/** From commit to broker: what the consumer committed, the publisher's loop delivers. */
module Delivery {
  import opened Events
  import opened OutboxTable
  import opened Publisher
  import opened Repository
  import Intake
  import Pipeline
  import Relay
  import RelayProperties

  /** The broker's log holds a record under the key of this source message. */
  ghost predicate Delivered(c: Intake.Config, relay: Relay.State, p: nat, o: nat)
    requires p < |c.logs| && o < |c.logs[p]|
  {
    exists id :: Pipeline.Copied(relay, id) && Pipeline.HasKeyOf(c, relay.history[id].record, p, o)
  }

  /** Every message committed in `intake` is delivered in `relay`. */
  ghost predicate AllDelivered(c: Intake.Config, intake: Intake.State, relay: Relay.State)
    requires Intake.Sized(c, intake)
  {
    forall p: nat, o: nat | p < |c.logs| && o < intake.committed[p] :: o < |c.logs[p]| && Delivered(c, relay, p, o)
  }

  lemma EmptyOutboxDelivers(c: Intake.Config, limit: nat, w0: Pipeline.World, steps: seq<Pipeline.Step>, w: Pipeline.World,
                            relay: Relay.State)
    requires Pipeline.Init(c, w0) && Pipeline.Run(c, limit, w0, steps, w) && Intake.Sized(c, w.intake)
    requires Relay.Reaches(limit, w.relay, relay) && RelayProperties.Pending(relay.table) == {}
    ensures AllDelivered(c, w.intake, relay)
  {
    var outboxes :| Relay.Run(limit, w.relay, outboxes, relay);
    forall p: nat, o: nat | p < |c.logs| && o < w.intake.committed[p]
      ensures o < |c.logs[p]| && Delivered(c, relay, p, o)
    {
      Pipeline.CommittedIsDelivered(c, limit, w0, steps, w, outboxes, relay, p, o);
    }
  }

  /** Enough rounds after a quiet lease leave nothing pending. */
  lemma EnoughRounds(limit: nat, s0: Relay.State, steps: seq<Relay.Step>, s: Relay.State, tables: seq<Table>, times: seq<Time>)
    requires Relay.Init(s0) && Relay.Run(limit, s0, steps, s)
    requires RelayProperties.Rounds(limit, tables, times) && tables[0] == s.table
    requires times != [] ==> times[0] > s.now + 300_000_000
    requires |RelayProperties.Pending(s.table)| <= |times| * limit
    ensures RelayProperties.Pending(tables[|times|]) == {}
  {
    RelayProperties.Drain(limit, s0, steps, s, tables, times);
  }

  /**
   After any run of the pipeline, left alone for longer than a lease: enough turns of one publisher's loop
   either fail or leave every row in its place, nothing pending and every committed source message in the
   broker's log; with the broker up they do not fail.
   */
  method DrainOutbox(repo: TransactionRepository, producer: Producer, limit: nat, turns: nat, tokens: nat -> Token,
                     delays: (nat, nat) -> nat, pause: nat, publisher: nat,
                     ghost c: Intake.Config, ghost w0: Pipeline.World, ghost steps: seq<Pipeline.Step>, ghost w: Pipeline.World)
    returns (ok: bool, ghost relay: Relay.State)
    requires Pipeline.Init(c, w0) && Pipeline.Run(c, limit, w0, steps, w) && Intake.Sized(c, w.intake)
    requires repo.outbox == w.relay.table && repo.clock > w.relay.now + 300_000_000
    requires publisher < |w.relay.publishers| && w.relay.publishers[publisher].Idle?
    requires producer.Valid() && Fresh(tokens, w.relay.used, 0)
    requires |RelayProperties.Pending(w.relay.table)| <= turns * limit
    modifies producer, repo`outbox, repo`clock
    ensures Relay.Reaches(limit, w.relay, relay) && relay.table == repo.outbox
    ensures ok ==> RelayProperties.Pending(repo.outbox) == {} && repo.outbox.rows.Keys == w.relay.table.rows.Keys
    ensures ok ==> AllDelivered(c, w.intake, relay)
    ensures producer.Prompt() ==> ok
  {
    ghost var quiet := w.relay.(now := repo.clock);
    Relay.ReachesSelf(limit, w.relay);
    Relay.ReachesLater(limit, w.relay, w.relay, repo.clock);
    ghost var tables, times;
    ok, relay, tables, times := RunPublisher(repo, producer, limit, turns, tokens, delays, pause, publisher, quiet);
    Relay.ReachesOn(limit, w.relay, quiet, relay);
    if ok {
      ghost var sources, outboxes := Pipeline.RunProjects(c, limit, w0, steps, w);
      EnoughRounds(limit, w0.relay, outboxes, w.relay, tables, times);
      RelayProperties.RoundsKeepRows(limit, tables, times);
      EmptyOutboxDelivers(c, limit, w0, steps, w, relay);
    }
  }
}
