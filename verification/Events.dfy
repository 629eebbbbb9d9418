/**
 What flows through the pipeline: source messages, what the consumer makes of them,
 and the outbox record each one becomes. The dedupe keys are the literal strings.
 */
module Events {
  import opened Wrappers

  /** `details` stands for the remaining columns, which the pipeline only copies. */
  datatype Event = Event(transactionId: string, details: string)

  datatype Score = Score(modelVersion: string, decision: string, details: string)

  /** The sanitised summary kept of a malformed message. */
  datatype Summary = Summary(transactionId: Option<string>, errorType: string, details: string)

  datatype Message = Valid(event: Event) | Malformed(summary: Summary)

  /** What the consumer buffers for a message, and the payload it publishes. */
  datatype Item = ScoredItem(event: Event, score: Score) | RejectedItem(summary: Summary)

  datatype Record = Record(dedupeKey: string, topic: string, messageKey: string, payload: Item)

  const RAW_TOPIC := "txns.raw"
  const SCORED_TOPIC := "txns.scored"
  const REJECTED_TOPIC := "txns.rejected"

  function Digit(d: nat): char
    requires d < 10
  {
    "0123456789"[d]
  }

  function Decimal(n: nat): (s: string)
    ensures s != []
  {
    if n < 10 then [Digit(n)] else Decimal(n / 10) + [Digit(n % 10)]
  }

  function ScoredKey(transactionId: string, modelVersion: string): string {
    "scored:" + transactionId + ":" + modelVersion
  }

  function RejectedKey(partition: nat, offset: nat): string {
    "rejected:" + RAW_TOPIC + ":" + Decimal(partition) + ":" + Decimal(offset)
  }

  function RecordOf(partition: nat, offset: nat, item: Item): Record {
    match item
    case ScoredItem(event, score) =>
      Record(ScoredKey(event.transactionId, score.modelVersion), SCORED_TOPIC, event.transactionId, item)
    case RejectedItem(summary) =>
      var fallback := "rejected-" + Decimal(partition) + "-" + Decimal(offset);
      var messageKey := if summary.transactionId.Some? then summary.transactionId.value else fallback;
      Record(RejectedKey(partition, offset), REJECTED_TOPIC, messageKey, item)
  }

  predicate ColonFree(s: string) {
    ':' !in s
  }

  lemma LastColonAt(a: string, b: string, i: nat)
    requires ColonFree(b) && i < |a + ":" + b| && (a + ":" + b)[i] == ':'
    ensures i <= |a|
  {
    assert forall k | 0 <= k < |b| :: (a + ":" + b)[|a| + 1 + k] == b[k];
  }

  /** A text splits at its last colon in one way only. */
  lemma LastColon(a: string, b: string, c: string, d: string)
    requires ColonFree(b) && ColonFree(d)
    requires a + ":" + b == c + ":" + d
    ensures a == c && b == d
  {
    var s, t := a + ":" + b, c + ":" + d;
    assert s[|a|] == ':' && t[|c|] == ':';
    LastColonAt(a, b, |c|);
    LastColonAt(c, d, |a|);
    assert s[..|a|] == a && t[..|c|] == c;
    assert s[|a| + 1..] == b && t[|c| + 1..] == d;
  }

  lemma {:induction false} DecimalIsColonFree(n: nat)
    ensures ColonFree(Decimal(n))
  {
    if n >= 10 {
      DecimalIsColonFree(n / 10);
    }
  }

  lemma {:induction false} DecimalInjective(m: nat, n: nat)
    requires Decimal(m) == Decimal(n)
    ensures m == n
  {
    var a, b := Decimal(m), Decimal(n);
    assert a[|a| - 1] == Digit(m % 10) && b[|b| - 1] == Digit(n % 10);
    assert m % 10 == n % 10;
    if m >= 10 && n >= 10 {
      assert a[..|a| - 1] == Decimal(m / 10) && b[..|b| - 1] == Decimal(n / 10);
      DecimalInjective(m / 10, n / 10);
    }
  }

  // ------------------------------------------- when two scored keys collide

  /** The transaction ids the event schema accepts. */
  predicate LegalId(id: string) {
    8 <= |id| <= 64
  }

  /** `longer` ends with a colon and `version`: a key under it can be read as one under `version`. */
  predicate Extends(longer: string, version: string) {
    |version| < |longer| && longer[|longer| - |version| - 1..] == ":" + version
  }

  /** What `longer` has before that colon. */
  function Prefix(longer: string, version: string): string
    requires Extends(longer, version)
  {
    longer[..|longer| - |version| - 1]
  }

  lemma ExtendsSplits(longer: string, version: string)
    requires Extends(longer, version)
    ensures longer == Prefix(longer, version) + ":" + version
  {
    assert longer == Prefix(longer, version) + longer[|longer| - |version| - 1..];
  }

  /** The same text read with a longer and with a shorter version at its end. */
  lemma LongerVersion(a: string, longer: string, b: string, version: string)
    requires a + ":" + longer == b + ":" + version && |version| < |longer|
    ensures Extends(longer, version) && b == a + ":" + Prefix(longer, version)
  {
    var s, t := a + ":" + longer, b + ":" + version;
    var k := |longer| - |version| - 1;
    assert |b| == |a| + 1 + k;
    assert longer == s[|a| + 1..] && longer[k..] == s[|b|..];
    assert t[|b|..] == ":" + version;
    assert b == t[..|b|] && s[..|b|] == a + ":" + longer[..k];
  }

  lemma SameLength(a: string, v: string, b: string, u: string)
    requires a + ":" + v == b + ":" + u && |v| == |u|
    ensures a == b && v == u
  {
    var s, t := a + ":" + v, b + ":" + u;
    assert a == s[..|a|] && b == t[..|b|] && v == s[|a| + 1..] && u == t[|b| + 1..];
  }

  lemma ScoredKeyTail(id: string, version: string)
    ensures ScoredKey(id, version)[7..] == id + ":" + version
    ensures ScoredKey(id, version) == "scored:" + (id + ":" + version)
  {
    assert ScoredKey(id, version) == "scored:" + (id + ":" + version);
  }

  lemma ShiftedKey(id: string, longer: string, version: string)
    requires Extends(longer, version)
    ensures ScoredKey(id, longer) == ScoredKey(id + ":" + Prefix(longer, version), version)
  {
    ExtendsSplits(longer, version);
    ScoredKeyTail(id, longer);
    ScoredKeyTail(id + ":" + Prefix(longer, version), version);
    var x := Prefix(longer, version);
    assert id + ":" + (x + ":" + version) == (id + ":" + x) + ":" + version;
  }

  /** All the ways in which two scored keys are equal: the same pair, or one version shifted into the other's id. */
  lemma ScoredKeysEqualIff(id: string, v: string, id': string, u: string)
    ensures ScoredKey(id, v) == ScoredKey(id', u) <==>
      || (id == id' && v == u)
      || (Extends(v, u) && id' == id + ":" + Prefix(v, u))
      || (Extends(u, v) && id == id' + ":" + Prefix(u, v))
  {
    ScoredKeyTail(id, v);
    ScoredKeyTail(id', u);
    if ScoredKey(id, v) == ScoredKey(id', u) {
      if |u| < |v| {
        LongerVersion(id, v, id', u);
      } else if |v| < |u| {
        LongerVersion(id', u, id, v);
      } else {
        SameLength(id, v, id', u);
      }
    }
    if Extends(v, u) {
      ShiftedKey(id, v, u);
    }
    if Extends(u, v) {
      ShiftedKey(id', u, v);
    }
  }

  /** Two different transactions, or one transaction under two versions, with one dedupe key. */
  ghost predicate Collide(v: string, u: string) {
    exists id, id' :: LegalId(id) && LegalId(id') && (id, v) != (id', u) && ScoredKey(id, v) == ScoredKey(id', u)
  }

  /** An id of eight characters leaves room for 55 more and a colon. */
  predicate Reaches(longer: string, version: string) {
    Extends(longer, version) && |Prefix(longer, version)| <= 55
  }

  lemma ReachesCollides(v: string, u: string)
    requires Reaches(v, u)
    ensures LegalId("txn-0001") && LegalId("txn-0001:" + Prefix(v, u))
    ensures ScoredKey("txn-0001", v) == ScoredKey("txn-0001:" + Prefix(v, u), u)
    ensures Collide(v, u) && Collide(u, v)
  {
    ShiftedKey("txn-0001", v, u);
    assert "txn-0001" + ":" == "txn-0001:";
  }

  /** Over the ids the schema accepts, keys collide exactly when one version ends with a colon and the other. */
  lemma VersionsCollideIff(v: string, u: string)
    ensures Collide(v, u) <==> Reaches(v, u) || Reaches(u, v)
  {
    if Collide(v, u) {
      var id, id' :| LegalId(id) && LegalId(id') && (id, v) != (id', u) && ScoredKey(id, v) == ScoredKey(id', u);
      ScoredKeysEqualIff(id, v, id', u);
    }
    if Reaches(v, u) {
      ReachesCollides(v, u);
    } else if Reaches(u, v) {
      ReachesCollides(u, v);
    }
  }

  lemma ExtendedHasColon(longer: string, version: string)
    ensures Extends(longer, version) ==> !ColonFree(longer)
  {
    if Extends(longer, version) {
      assert longer[|longer| - |version| - 1..][0] == ':';
    }
  }

  /** Ids may contain colons; versions may not. */
  lemma ScoredKeyInjective(id: string, version: string, id': string, version': string)
    requires ColonFree(version) && ColonFree(version')
    requires ScoredKey(id, version) == ScoredKey(id', version')
    ensures id == id' && version == version'
  {
    ExtendedHasColon(version, version');
    ExtendedHasColon(version', version);
    ScoredKeysEqualIff(id, version, id', version');
  }

  /** A release named after a channel collides with the plain release: two legal ids with one key. */
  lemma ScoredKeyCollision()
    ensures LegalId("txn-0001") && LegalId("txn-0001:blue")
    ensures ScoredKey("txn-0001", "blue:v2") == ScoredKey("txn-0001:blue", "v2")
    ensures Collide("blue:v2", "v2")
  {
    assert "blue:v2"[4..] == ":" + "v2";
    assert Prefix("blue:v2", "v2") == "blue";
    ReachesCollides("blue:v2", "v2");
    assert "txn-0001:" + "blue" == "txn-0001:blue";
  }

  lemma RejectedKeyInjective(p: nat, o: nat, p': nat, o': nat)
    requires RejectedKey(p, o) == RejectedKey(p', o')
    ensures p == p' && o == o'
  {
    var head := "rejected:" + RAW_TOPIC;
    DecimalIsColonFree(p);
    DecimalIsColonFree(p');
    DecimalIsColonFree(o);
    DecimalIsColonFree(o');
    LastColon(head + ":" + Decimal(p), Decimal(o), head + ":" + Decimal(p'), Decimal(o'));
    LastColon(head, Decimal(p), head, Decimal(p'));
    DecimalInjective(p, p');
    DecimalInjective(o, o');
  }

  lemma KeyFamiliesDisjoint(id: string, version: string, p: nat, o: nat)
    ensures ScoredKey(id, version) != RejectedKey(p, o)
  {
    assert ScoredKey(id, version)[0] == 's' && RejectedKey(p, o)[0] == 'r';
  }
}
