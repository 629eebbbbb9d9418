/** The .env reader and rewriter. */
module EnvFile {
  // ------------------------------------------------------------------- lines

  /** The characters at which str.splitlines ends a line. */
  predicate IsBreak(c: char) {
    c in "\n\r" || c in ['\U{0B}', '\U{0C}', '\U{1C}', '\U{1D}', '\U{1E}', '\U{85}', '\U{2028}', '\U{2029}']
  }

  /** The same by code point. */
  lemma BreaksAreThese(c: char)
    ensures IsBreak(c) <==> (var n := c as int; 10 <= n <= 13 || 28 <= n <= 30 || n == 133 || n == 8232 || n == 8233)
  {
  }

  predicate OneLine(s: string) {
    forall i | 0 <= i < |s| :: !IsBreak(s[i])
  }

  /** Splits off the first line: its text, and where the next one starts, past a CR LF pair as one break. */
  function LineEnd(text: string): (n: nat)
    ensures n <= |text| && OneLine(text[..n])
    ensures n < |text| ==> IsBreak(text[n])
  {
    if text == [] || IsBreak(text[0]) then 0 else 1 + LineEnd(text[1..])
  }

  function SplitLines(text: string): (lines: seq<string>)
    ensures forall i | 0 <= i < |lines| :: OneLine(lines[i])
    decreases |text|
  {
    if text == [] then []
    else
      var n := LineEnd(text);
      if n == |text| then [text]
      else if n + 1 < |text| && text[n] == '\r' && text[n + 1] == '\n' then [text[..n]] + SplitLines(text[n + 2..])
      else [text[..n]] + SplitLines(text[n + 1..])
  }

  /** "\n".join(lines) + "\n". */
  function JoinLines(lines: seq<string>): string {
    if lines == [] then "\n"
    else if |lines| == 1 then lines[0] + "\n"
    else lines[0] + "\n" + JoinLines(lines[1..])
  }

  lemma {:induction false} LineEndAt(line: string, rest: string)
    requires OneLine(line)
    ensures LineEnd(line + "\n" + rest) == |line|
    decreases |line|
  {
    var text := line + "\n" + rest;
    if line != [] {
      assert text[1..] == line[1..] + "\n" + rest;
      LineEndAt(line[1..], rest);
    }
  }

  lemma SplitFirst(line: string, rest: string)
    requires OneLine(line)
    ensures SplitLines(line + "\n" + rest) == [line] + SplitLines(rest)
  {
    LineEndAt(line, rest);
    var text := line + "\n" + rest;
    assert text[|line|] == '\n' && text[..|line|] == line && text[|line| + 1..] == rest;
  }

  lemma {:induction false} SplitJoinLines(lines: seq<string>)
    requires lines != [] && forall i | 0 <= i < |lines| :: OneLine(lines[i])
    ensures SplitLines(JoinLines(lines)) == lines
    decreases |lines|
  {
    if |lines| == 1 {
      SplitFirst(lines[0], "");
      assert lines[0] + "\n" + "" == lines[0] + "\n";
    } else {
      SplitFirst(lines[0], JoinLines(lines[1..]));
      SplitJoinLines(lines[1..]);
    }
  }

  /** Any one break ends a line, CR LF counts as one, and a last line needs none. */
  lemma LinesEndAtBreaks(line: string, rest: string, c: char)
    requires OneLine(line)
    ensures SplitLines(line + "\r\n" + rest) == [line] + SplitLines(rest)
    ensures IsBreak(c) && !(c == '\r' && rest != [] && rest[0] == '\n') ==> SplitLines(line + [c] + rest) == [line] + SplitLines(rest)
    ensures SplitLines(line) == if line == [] then [] else [line]
  {
    LineEndBefore(line, '\r', "\n" + rest);
    var text := line + "\r\n" + rest;
    assert text == line + ['\r'] + ("\n" + rest);
    assert text[|line|] == '\r' && text[|line| + 1] == '\n' && text[..|line|] == line && text[|line| + 2..] == rest;
    if IsBreak(c) && !(c == '\r' && rest != [] && rest[0] == '\n') {
      LineEndBefore(line, c, rest);
      var other := line + [c] + rest;
      assert other[|line|] == c && other[..|line|] == line && other[|line| + 1..] == rest;
    }
    WholeLine(line);
  }

  lemma {:induction false} LineEndBefore(line: string, c: char, rest: string)
    requires OneLine(line) && IsBreak(c)
    ensures LineEnd(line + [c] + rest) == |line|
    decreases |line|
  {
    var text := line + [c] + rest;
    if line != [] {
      assert text[1..] == line[1..] + [c] + rest;
      LineEndBefore(line[1..], c, rest);
    }
  }

  lemma {:induction false} WholeLine(line: string)
    requires OneLine(line)
    ensures LineEnd(line) == |line|
    decreases |line|
  {
    if line != [] {
      WholeLine(line[1..]);
    }
  }

  /** Printing lines and reading them back gives the lines exactly when there is one at least and none holds a break. */
  lemma SplitJoin(lines: seq<string>)
    ensures SplitLines(JoinLines(lines)) == lines <==> lines != [] && forall i | 0 <= i < |lines| :: OneLine(lines[i])
    ensures lines == [] ==> SplitLines(JoinLines(lines)) == [""]
  {
    if lines == [] {
      SplitFirst("", "");
      assert "" + "\n" + "" == "\n";
    } else if forall i | 0 <= i < |lines| :: OneLine(lines[i]) {
      SplitJoinLines(lines);
    }
  }

  // -------------------------------------------------------------------- keys

  predicate IsSpace(c: char) {
    c in " \t\n\r" || c in ['\U{0B}', '\U{0C}', '\U{1C}', '\U{1D}', '\U{1E}', '\U{1F}', '\U{85}', '\U{A0}', '\U{1680}',
      '\U{2000}', '\U{2001}', '\U{2002}', '\U{2003}', '\U{2004}', '\U{2005}', '\U{2006}', '\U{2007}', '\U{2008}', '\U{2009}',
      '\U{200A}', '\U{2028}', '\U{2029}', '\U{202F}', '\U{205F}', '\U{3000}']
  }

  /** The first character that is not white space starts a comment. */
  predicate IsComment(line: string) {
    line != [] && (line[0] == '#' || (IsSpace(line[0]) && IsComment(line[1..])))
  }

  predicate HashAfterSpace(line: string, i: nat) {
    i < |line| && line[i] == '#' && forall j | 0 <= j < i :: IsSpace(line[j])
  }

  lemma {:induction false} HashMakesComment(line: string, i: nat)
    requires HashAfterSpace(line, i)
    ensures IsComment(line)
    decreases i
  {
    if i > 0 {
      assert forall j | 0 <= j < i - 1 :: line[1..][j] == line[j + 1];
      HashMakesComment(line[1..], i - 1);
    }
  }

  lemma {:induction false} CommentHasHash(line: string) returns (i: nat)
    requires IsComment(line)
    ensures HashAfterSpace(line, i)
    decreases |line|
  {
    if line[0] == '#' {
      i := 0;
    } else {
      i := CommentHasHash(line[1..]);
      forall j | 0 <= j < i + 1 ensures IsSpace(line[j]) {
        assert j > 0 ==> line[j] == line[1..][j - 1];
      }
      i := i + 1;
    }
  }

  /** A comment is white space, if any, and then a '#'. */
  lemma IsCommentIff(line: string)
    ensures IsComment(line) <==> exists i :: HashAfterSpace(line, i)
  {
    if IsComment(line) {
      var i := CommentHasHash(line);
    }
    if i :| HashAfterSpace(line, i) {
      HashMakesComment(line, i);
    }
  }

  /** The same by code point. */
  lemma SpacesAreThese(c: char)
    ensures IsSpace(c) <==> (var n := c as int;
      || 9 <= n <= 13 || 28 <= n <= 32 || n == 133 || n == 160 || n == 5760 || 8192 <= n <= 8202
      || n == 8232 || n == 8233 || n == 8239 || n == 8287 || n == 12288)
  {
  }

  /** Every line break is white space. */
  lemma BreaksAreSpace(c: char)
    ensures IsBreak(c) ==> IsSpace(c)
  {
  }

  /** The position of the first '=', or the length. */
  function KeyEnd(line: string): (n: nat)
    ensures n <= |line| && '=' !in line[..n]
    ensures n < |line| <==> '=' in line
    ensures n < |line| ==> line[n] == '='
  {
    if line == [] || line[0] == '=' then 0 else 1 + KeyEnd(line[1..])
  }

  predicate IsEntry(line: string) {
    '=' in line && !IsComment(line)
  }

  function KeyOf(line: string): string {
    line[..KeyEnd(line)]
  }

  function ValueOf(line: string): string
    requires '=' in line
  {
    line[KeyEnd(line) + 1..]
  }

  /** The dictionary of a list of lines; a later entry overrides an earlier one. */
  function ValuesOf(lines: seq<string>): map<string, string> {
    if lines == [] then map[]
    else
      var before, line := ValuesOf(lines[..|lines| - 1]), lines[|lines| - 1];
      if IsEntry(line) then before[KeyOf(line) := ValueOf(line)] else before
  }

  method ParseEnv(text: string) returns (lines: seq<string>, values: map<string, string>)
    ensures lines == SplitLines(text) && values == ValuesOf(lines)
  {
    lines, values := SplitLines(text), map[];
    for i := 0 to |lines|
      invariant values == ValuesOf(lines[..i])
    {
      var line := lines[i];
      assert lines[..i + 1][..i] == lines[..i];
      if line != [] && !IsComment(line) && '=' in line {
        values := values[KeyOf(line) := ValueOf(line)];
      }
    }
    assert lines[..|lines|] == lines;
  }

  // ----------------------------------------------------------------- rewrite

  /** A dictionary in insertion order. */
  type Replacements = seq<(string, string)>

  predicate HasName(reps: Replacements, key: string) {
    exists i | 0 <= i < |reps| :: reps[i].0 == key
  }

  function Lookup(reps: Replacements, key: string): string
    requires HasName(reps, key)
  {
    if reps[0].0 == key then reps[0].1 else Lookup(reps[1..], key)
  }

  function Entry(key: string, value: string): string {
    key + "=" + value
  }

  /** An "=" line has its key, any other line the empty one. */
  function LineKey(line: string): string {
    if '=' in line then KeyOf(line) else ""
  }

  function Replaced(line: string, reps: Replacements): string {
    if HasName(reps, LineKey(line)) then Entry(LineKey(line), Lookup(reps, LineKey(line))) else line
  }

  predicate Mentions(lines: seq<string>, key: string) {
    exists i | 0 <= i < |lines| :: LineKey(lines[i]) == key
  }

  /** The replacements no line mentions, in their own order. */
  function Missing(lines: seq<string>, reps: Replacements): seq<string> {
    if reps == [] then []
    else
      var before, last := Missing(lines, reps[..|reps| - 1]), reps[|reps| - 1];
      if Mentions(lines, last.0) then before else before + [Entry(last.0, last.1)]
  }

  /** The lines in their places, replaced where they name a replacement. */
  function Kept(lines: seq<string>, reps: Replacements): seq<string> {
    seq(|lines|, i requires 0 <= i < |lines| => Replaced(lines[i], reps))
  }

  function Rewritten(lines: seq<string>, reps: Replacements): seq<string> {
    Kept(lines, reps) + Missing(lines, reps)
  }

  /** Lines stay in their places; what no line mentions is appended. */
  method ReplaceValues(lines: seq<string>, reps: Replacements) returns (text: string)
    ensures text == JoinLines(Rewritten(lines, reps))
  {
    var output: seq<string>, seen: set<string> := [], {};
    for i := 0 to |lines|
      invariant output == seq(i, j requires 0 <= j < i => Replaced(lines[j], reps))
      invariant forall key :: key in seen <==> HasName(reps, key) && Mentions(lines[..i], key)
    {
      var key := LineKey(lines[i]);
      MentionsGrows(lines, i);
      if HasName(reps, key) {
        output, seen := output + [Entry(key, Lookup(reps, key))], seen + {key};
      } else {
        output := output + [lines[i]];
      }
    }
    assert lines[..|lines|] == lines;
    ghost var kept := output;
    for i := 0 to |reps|
      invariant output == kept + Missing(lines, reps[..i])
    {
      assert reps[..i + 1][..i] == reps[..i];
      assert HasName(reps, reps[i].0);
      if reps[i].0 !in seen {
        output := output + [Entry(reps[i].0, reps[i].1)];
      }
    }
    assert reps[..|reps|] == reps;
    return JoinLines(output);
  }

  lemma MentionsGrows(lines: seq<string>, i: nat)
    requires i < |lines|
    ensures forall key :: Mentions(lines[..i + 1], key) <==> Mentions(lines[..i], key) || LineKey(lines[i]) == key
  {
    assert lines[..i + 1][i] == lines[i];
    assert forall j | 0 <= j < i :: lines[..i][j] == lines[..i + 1][j];
  }

  // --------------------------------------------------------------- the law

  predicate WellFormedKey(key: string) {
    key != [] && '=' !in key && OneLine(key) && !IsSpace(key[0]) && key[0] != '#'
  }

  /** Keys are names and all different, values are single lines. */
  predicate Sound(reps: Replacements) {
    && (forall i | 0 <= i < |reps| :: WellFormedKey(reps[i].0) && OneLine(reps[i].1))
    && (forall i, j | 0 <= i < j < |reps| :: reps[i].0 != reps[j].0)
  }

  predicate WellFormed(reps: Replacements) {
    reps != [] && Sound(reps)
  }

  function AsMap(reps: Replacements): map<string, string> {
    if reps == [] then map[] else AsMap(reps[..|reps| - 1])[reps[|reps| - 1].0 := reps[|reps| - 1].1]
  }

  lemma EntryReadsBack(key: string, value: string)
    requires WellFormedKey(key)
    ensures IsEntry(Entry(key, value)) && KeyOf(Entry(key, value)) == key && ValueOf(Entry(key, value)) == value
  {
    KeyEndAt(key, value);
    var line := Entry(key, value);
    assert line[|key|] == '=' && line[0] == key[0];
    assert line[..|key|] == key && line[|key| + 1..] == value;
  }

  lemma {:induction false} KeyEndAt(key: string, value: string)
    requires '=' !in key
    ensures KeyEnd(Entry(key, value)) == |key|
    decreases |key|
  {
    if key != [] {
      assert Entry(key, value)[1..] == Entry(key[1..], value);
      KeyEndAt(key[1..], value);
    }
  }

  lemma {:induction false} LookupIsMap(reps: Replacements, key: string)
    requires forall i, j | 0 <= i < j < |reps| :: reps[i].0 != reps[j].0
    ensures key in AsMap(reps) <==> HasName(reps, key)
    ensures forall i | 0 <= i < |reps| && reps[i].0 == key :: AsMap(reps)[key] == reps[i].1
    decreases |reps|
  {
    if reps != [] {
      var k := |reps| - 1;
      LookupIsMap(reps[..k], key);
      assert forall i | 0 <= i < k :: reps[..k][i] == reps[i];
    }
  }

  lemma {:induction false} LookupFinds(reps: Replacements, key: string) returns (i: nat)
    requires HasName(reps, key)
    ensures i < |reps| && reps[i].0 == key && Lookup(reps, key) == reps[i].1
    decreases |reps|
  {
    if reps[0].0 == key {
      i := 0;
    } else {
      i := LookupFinds(reps[1..], key);
      i := i + 1;
    }
  }

  /** For distinct keys a lookup by name is the map's. */
  lemma LookupInMap(reps: Replacements, key: string)
    requires WellFormed(reps)
    ensures key in AsMap(reps) <==> HasName(reps, key)
    ensures HasName(reps, key) ==> AsMap(reps)[key] == Lookup(reps, key) && WellFormedKey(key) && OneLine(Lookup(reps, key))
  {
    LookupIsMap(reps, key);
    if HasName(reps, key) {
      var i := LookupFinds(reps, key);
    }
  }

  predicate SameAt(a: map<string, string>, b: map<string, string>, key: string) {
    (key in a <==> key in b) && (key in a ==> a[key] == b[key])
  }

  /** The lines in place: a replaced key reads back as replaced, any other as before. */
  lemma {:induction false} KeptValues(lines: seq<string>, reps: Replacements, key: string)
    requires WellFormed(reps)
    ensures var v := ValuesOf(Kept(lines, reps));
      if HasName(reps, key) then (key in v <==> Mentions(lines, key)) && (key in v ==> v[key] == Lookup(reps, key))
      else SameAt(v, ValuesOf(lines), key)
    decreases |lines|
  {
    if lines != [] {
      var k := |lines| - 1;
      KeptValues(lines[..k], reps, key);
      assert Kept(lines, reps)[..k] == Kept(lines[..k], reps);
      assert lines[..k + 1] == lines;
      MentionsGrows(lines, k);
      var name := LineKey(lines[k]);
      if HasName(reps, name) {
        LookupInMap(reps, name);
        EntryReadsBack(name, Lookup(reps, name));
      } else {
        assert IsEntry(lines[k]) ==> KeyOf(lines[k]) == name;
        EntryKeyIsNotEmptyName(reps);
      }
    }
  }

  lemma EntryKeyIsNotEmptyName(reps: Replacements)
    requires WellFormed(reps)
    ensures !HasName(reps, "")
  {
  }

  lemma MissingStep(kept: seq<string>, lines: seq<string>, reps: Replacements)
    requires reps != [] && Sound(reps)
    ensures var init, last := reps[..|reps| - 1], reps[|reps| - 1];
      var before := ValuesOf(kept + Missing(lines, init));
      ValuesOf(kept + Missing(lines, reps)) == if Mentions(lines, last.0) then before else before[last.0 := last.1]
  {
    var init, last := reps[..|reps| - 1], reps[|reps| - 1];
    if !Mentions(lines, last.0) {
      AppendOne(kept + Missing(lines, init), last.0, last.1);
      assert kept + (Missing(lines, init) + [Entry(last.0, last.1)]) == kept + Missing(lines, init) + [Entry(last.0, last.1)];
    }
  }

  /** The appended lines: each missing replacement, and nothing else. */
  lemma {:induction false} AppendedValues(kept: seq<string>, lines: seq<string>, reps: Replacements, key: string)
    requires Sound(reps)
    ensures var v := ValuesOf(kept + Missing(lines, reps));
      if key in AsMap(reps) && !Mentions(lines, key) then key in v && v[key] == AsMap(reps)[key]
      else SameAt(v, ValuesOf(kept), key)
    decreases |reps|
  {
    if reps == [] {
      assert kept + [] == kept;
    } else {
      var init, last := reps[..|reps| - 1], reps[|reps| - 1];
      AppendedValues(kept, lines, init, key);
      LookupIsMap(init, last.0);
      MissingStep(kept, lines, reps);
    }
  }

  lemma AppendOne(before: seq<string>, key: string, value: string)
    requires WellFormedKey(key)
    ensures ValuesOf(before + [Entry(key, value)]) == ValuesOf(before)[key := value]
  {
    EntryReadsBack(key, value);
    assert (before + [Entry(key, value)])[..|before|] == before;
  }

  predicate IsEntryOf(reps: Replacements, line: string) {
    exists j | 0 <= j < |reps| :: line == Entry(reps[j].0, reps[j].1)
  }

  lemma {:induction false} MissingLines(lines: seq<string>, reps: Replacements)
    ensures forall x | x in Missing(lines, reps) :: IsEntryOf(reps, x)
    ensures forall j | 0 <= j < |reps| && !Mentions(lines, reps[j].0) :: Entry(reps[j].0, reps[j].1) in Missing(lines, reps)
    decreases |reps|
  {
    if reps != [] {
      var k := |reps| - 1;
      MissingLines(lines, reps[..k]);
      forall x | x in Missing(lines, reps) ensures IsEntryOf(reps, x) {
        if x in Missing(lines, reps[..k]) {
          var j :| 0 <= j < k && x == Entry(reps[..k][j].0, reps[..k][j].1);
          assert reps[j] == reps[..k][j];
        }
      }
      assert forall j | 0 <= j < k :: reps[..k][j] == reps[j];
    }
  }

  lemma EntryIsOneLine(reps: Replacements, line: string)
    requires Sound(reps) && IsEntryOf(reps, line)
    ensures OneLine(line)
  {
  }

  /** Every line of the rewritten text is a single line, and there is at least one. */
  lemma RewrittenLines(lines: seq<string>, reps: Replacements)
    requires WellFormed(reps) && forall i | 0 <= i < |lines| :: OneLine(lines[i])
    ensures Rewritten(lines, reps) != [] && forall i | 0 <= i < |Rewritten(lines, reps)| :: OneLine(Rewritten(lines, reps)[i])
  {
    var out := Rewritten(lines, reps);
    MissingLines(lines, reps);
    forall i | 0 <= i < |out| ensures OneLine(out[i]) {
      if i < |lines| {
        LookupInMap(reps, LineKey(lines[i]));
      } else {
        assert out[i] in Missing(lines, reps);
        EntryIsOneLine(reps, out[i]);
      }
    }
  }

  lemma RewrittenValues(lines: seq<string>, reps: Replacements)
    requires WellFormed(reps)
    ensures ValuesOf(Rewritten(lines, reps)) == ValuesOf(lines) + AsMap(reps)
  {
    var v, w := ValuesOf(Rewritten(lines, reps)), ValuesOf(lines) + AsMap(reps);
    forall key ensures SameAt(v, w, key) {
      KeptValues(lines, reps, key);
      AppendedValues(Kept(lines, reps), lines, reps, key);
      LookupInMap(reps, key);
    }
    assert forall key :: key in v.Keys <==> SameAt(v, w, key) && key in w.Keys;
    assert v.Keys == w.Keys;
    assert forall key | key in v :: SameAt(v, w, key);
  }

  /** The line sets this key. */
  predicate Sets(line: string, key: string) {
    key + "=" <= line
  }

  /** The line sets this key, and is not a comment. */
  ghost predicate Defines(line: string, key: string) {
    '=' !in key && Sets(line, key) && forall i :: !HashAfterSpace(line, i)
  }

  lemma DefinesIff(line: string, key: string)
    ensures Defines(line, key) <==> IsEntry(line) && KeyOf(line) == key
    ensures Defines(line, key) ==> ValueOf(line) == line[|key| + 1..]
  {
    IsCommentIff(line);
    if Defines(line, key) {
      assert line[..|key|] == key && line[|key|] == '=';
      KeyEndIsFirst(line, |key|);
    }
    if IsEntry(line) && KeyOf(line) == key {
      assert line[..|key|] == key && line[|key|] == '=';
      assert key + "=" == line[..|key| + 1];
    }
  }

  /** What a file says: a key has the value of the last line that defines it, and no other keys are there. */
  lemma {:induction false} LastDefinitionCounts(lines: seq<string>, key: string)
    ensures key in ValuesOf(lines) ==> exists i ::
      && 0 <= i < |lines| && Defines(lines[i], key) && ValuesOf(lines)[key] == lines[i][|key| + 1..]
      && forall j | i < j < |lines| :: !Defines(lines[j], key)
    ensures key !in ValuesOf(lines) ==> forall j | 0 <= j < |lines| :: !Defines(lines[j], key)
    decreases |lines|
  {
    if lines != [] {
      var k := |lines| - 1;
      LastDefinitionCounts(lines[..k], key);
      DefinesIff(lines[k], key);
      assert forall j | 0 <= j < k :: lines[..k][j] == lines[j];
    }
  }

  lemma {:induction false} KeyEndIsFirst(line: string, n: nat)
    requires n < |line| && line[n] == '=' && '=' !in line[..n]
    ensures KeyEnd(line) == n
    decreases n
  {
    if n > 0 {
      assert line[1..][..n - 1] == line[..n][1..];
      KeyEndIsFirst(line[1..], n - 1);
    }
  }

  /** Apart from the empty key, which no replacement has, the key of a line is the one it sets. */
  lemma SetsIff(line: string, key: string)
    requires key != [] && '=' !in key
    ensures LineKey(line) == key <==> Sets(line, key)
  {
    if Sets(line, key) {
      assert line[..|key|] == key && line[|key|] == '=';
      KeyEndIsFirst(line, |key|);
    }
    if LineKey(line) == key {
      assert '=' in line && line[..|key|] == key && line[|key|] == '=';
      assert key + "=" == line[..|key| + 1];
    }
  }

  /** A line that sets a replaced key becomes its new entry; any other line stays. */
  lemma ReplacedIs(line: string, reps: Replacements)
    requires WellFormed(reps)
    ensures forall j | 0 <= j < |reps| && Sets(line, reps[j].0) :: Replaced(line, reps) == reps[j].0 + "=" + reps[j].1
    ensures (forall j | 0 <= j < |reps| :: !Sets(line, reps[j].0)) ==> Replaced(line, reps) == line
  {
    forall j | 0 <= j < |reps| ensures LineKey(line) == reps[j].0 <==> Sets(line, reps[j].0) {
      SetsIff(line, reps[j].0);
    }
    forall j | 0 <= j < |reps| && Sets(line, reps[j].0) ensures Replaced(line, reps) == reps[j].0 + "=" + reps[j].1 {
      assert HasName(reps, reps[j].0);
      LookupInMap(reps, reps[j].0);
      LookupIsMap(reps, reps[j].0);
    }
  }

  /**
   Reading back the rewritten text gives the old values overridden by the replacements; every line that
   sets a replaced key is now its new entry, and every other line is still where it was.
   */
  lemma RewriteOverrides(text: string, reps: Replacements)
    requires WellFormed(reps)
    ensures var lines := SplitLines(text); var lines' := SplitLines(JoinLines(Rewritten(lines, reps)));
      && ValuesOf(lines') == ValuesOf(lines) + AsMap(reps)
      && |lines'| >= |lines|
      && (forall i, j | 0 <= i < |lines| && 0 <= j < |reps| && Sets(lines[i], reps[j].0) ::
            lines'[i] == reps[j].0 + "=" + reps[j].1)
      && (forall i | 0 <= i < |lines| && (forall j | 0 <= j < |reps| :: !Sets(lines[i], reps[j].0)) :: lines'[i] == lines[i])
  {
    var lines := SplitLines(text);
    RewrittenLines(lines, reps);
    SplitJoinLines(Rewritten(lines, reps));
    RewrittenValues(lines, reps);
    forall i | 0 <= i < |lines|
      ensures forall j | 0 <= j < |reps| && Sets(lines[i], reps[j].0) :: Rewritten(lines, reps)[i] == reps[j].0 + "=" + reps[j].1
      ensures (forall j | 0 <= j < |reps| :: !Sets(lines[i], reps[j].0)) ==> Rewritten(lines, reps)[i] == lines[i]
    {
      ReplacedIs(lines[i], reps);
    }
  }

  lemma ReplacedTwice(line: string, reps: Replacements)
    requires WellFormed(reps)
    ensures Replaced(Replaced(line, reps), reps) == Replaced(line, reps)
  {
    var name := LineKey(line);
    if HasName(reps, name) {
      LookupInMap(reps, name);
      EntryReadsBack(name, Lookup(reps, name));
    }
  }

  /** Replaced in place, the key's line is its entry. */
  lemma ReplacedInPlace(lines: seq<string>, reps: Replacements, j: nat, i: nat)
    requires WellFormed(reps) && j < |reps| && i < |lines| && LineKey(lines[i]) == reps[j].0
    ensures Rewritten(lines, reps)[i] == Entry(reps[j].0, reps[j].1)
  {
    assert HasName(reps, reps[j].0);
    LookupInMap(reps, reps[j].0);
    LookupIsMap(reps, reps[j].0);
  }

  /** Otherwise its entry is appended. */
  lemma ReplacedAtEnd(lines: seq<string>, reps: Replacements, j: nat)
    requires j < |reps| && !Mentions(lines, reps[j].0)
    ensures Entry(reps[j].0, reps[j].1) in Rewritten(lines, reps)
  {
    MissingLines(lines, reps);
    var i :| 0 <= i < |Missing(lines, reps)| && Missing(lines, reps)[i] == Entry(reps[j].0, reps[j].1);
    assert Rewritten(lines, reps)[|lines| + i] == Entry(reps[j].0, reps[j].1);
  }

  lemma RewrittenMentions(lines: seq<string>, reps: Replacements, j: nat)
    requires WellFormed(reps) && j < |reps|
    ensures Mentions(Rewritten(lines, reps), reps[j].0)
  {
    var line, out := Entry(reps[j].0, reps[j].1), Rewritten(lines, reps);
    if Mentions(lines, reps[j].0) {
      var i :| 0 <= i < |lines| && LineKey(lines[i]) == reps[j].0;
      ReplacedInPlace(lines, reps, j, i);
    } else {
      ReplacedAtEnd(lines, reps, j);
    }
    var i :| 0 <= i < |out| && out[i] == line;
    EntryReadsBack(reps[j].0, reps[j].1);
  }

  lemma {:induction false} NothingMissing(lines: seq<string>, reps: Replacements)
    requires forall j | 0 <= j < |reps| :: Mentions(lines, reps[j].0)
    ensures Missing(lines, reps) == []
    decreases |reps|
  {
    if reps != [] {
      NothingMissing(lines, reps[..|reps| - 1]);
    }
  }

  lemma EntryIsKept(reps: Replacements, line: string)
    requires WellFormed(reps) && IsEntryOf(reps, line)
    ensures Replaced(line, reps) == line
  {
    var j :| 0 <= j < |reps| && line == Entry(reps[j].0, reps[j].1);
    EntryReadsBack(reps[j].0, reps[j].1);
    LookupIsMap(reps, reps[j].0);
    assert HasName(reps, reps[j].0);
    LookupInMap(reps, reps[j].0);
  }

  lemma RewrittenLineIsKept(lines: seq<string>, reps: Replacements, i: nat)
    requires WellFormed(reps) && i < |Rewritten(lines, reps)|
    ensures Replaced(Rewritten(lines, reps)[i], reps) == Rewritten(lines, reps)[i]
  {
    var out := Rewritten(lines, reps);
    if i < |lines| {
      ReplacedTwice(lines[i], reps);
    } else {
      MissingLines(lines, reps);
      assert out[i] in Missing(lines, reps);
      EntryIsKept(reps, out[i]);
    }
  }

  /** Rewritten lines are already as the replacements want them. */
  lemma RewrittenTwice(lines: seq<string>, reps: Replacements)
    requires WellFormed(reps)
    ensures Rewritten(Rewritten(lines, reps), reps) == Rewritten(lines, reps)
  {
    var out := Rewritten(lines, reps);
    forall i | 0 <= i < |out| ensures Replaced(out[i], reps) == out[i] {
      RewrittenLineIsKept(lines, reps, i);
    }
    forall j | 0 <= j < |reps| ensures Mentions(out, reps[j].0) {
      RewrittenMentions(lines, reps, j);
    }
    NothingMissing(out, reps);
  }

  /** Rewriting again with the same replacements changes nothing. */
  lemma RewriteIsIdempotent(text: string, reps: Replacements)
    requires WellFormed(reps)
    ensures var once := JoinLines(Rewritten(SplitLines(text), reps));
      JoinLines(Rewritten(SplitLines(once), reps)) == once
  {
    var lines := SplitLines(text);
    RewrittenLines(lines, reps);
    SplitJoinLines(Rewritten(lines, reps));
    RewrittenTwice(lines, reps);
  }
}
