/** The loop of `_drain` as the protocol sees it: one DispatchRow step per row. */
module Draining {
  import opened Logs
  import opened Queues
  import opened BusProtocol

  /** The state after the pump of `c` has dispatched `k` rows of its batch with nothing in between. */
  ghost function DispatchMany(cfg: Config, st: State, c: nat, k: nat): State {
    if k == 0 then st else Next(cfg, DispatchMany(cfg, st, c, k - 1), DispatchRow(c))
  }

  function PortIn(sub: Sub): Port {
    Port(sub.queue, sub.registered)
  }

  /** The pump's fields once it is through the first `k` rows of its batch. */
  function Through(ct: Container, k: nat): Container
    requires k <= |ct.batch|
  {
    ct.(cursor := if k > 0 then ct.batch[k - 1].seqNo else ct.cursor, batch := ct.batch[k..],
        pos := ct.pos + k, sent := ct.sent + ct.batch[..k])
  }

  /** A subscriber once the pump of `c` has handed out `rows`. */
  function Given(cfg: Config, sub: Sub, c: nat, rows: seq<Row>): Sub {
    if sub.container == c then
      var port := ReceiveAll(PortIn(sub), cfg.queueSize, sub.topic, rows);
      sub.(queue := port.queue, registered := port.open)
    else sub
  }

  lemma ThroughOne(ct: Container, k: nat)
    requires k < |ct.batch|
    ensures Through(ct, k).batch[0] == ct.batch[k]
    ensures AfterDispatch(Through(ct, k)) == Through(ct, k + 1)
  {
    assert ct.batch[..k + 1] == ct.batch[..k] + [ct.batch[k]];
    assert ct.batch[k..][1..] == ct.batch[k + 1..];
  }

  lemma GivenOne(cfg: Config, sub: Sub, c: nat, batch: seq<Row>, k: nat)
    requires k < |batch|
    ensures DispatchTo(cfg, Given(cfg, sub, c, batch[..k]), c, batch[k]) == Given(cfg, sub, c, batch[..k + 1])
  {
    assert batch[..k + 1][..k] == batch[..k];
  }

  /** The state once `k` rows of the batch of `c` have been handed out. */
  ghost function Drained(cfg: Config, st: State, c: nat, k: nat): State
    requires c in st.containers && k <= |st.containers[c].batch|
  {
    State(st.db, st.containers[c := Through(st.containers[c], k)],
          map s | s in st.subs :: Given(cfg, st.subs[s], c, st.containers[c].batch[..k]))
  }

  lemma DrainedNone(cfg: Config, st: State, c: nat)
    requires c in st.containers
    ensures Drained(cfg, st, c, 0) == st
  {
    var ct := st.containers[c];
    assert Through(ct, 0) == ct;
    assert st.containers[c := ct] == st.containers;
    assert (map s | s in st.subs :: Given(cfg, st.subs[s], c, ct.batch[..0])) == st.subs;
  }

  lemma DrainedOne(cfg: Config, st: State, c: nat, k: nat)
    requires c in st.containers && k < |st.containers[c].batch|
    ensures DispatchState(cfg, Drained(cfg, st, c, k), c) == Drained(cfg, st, c, k + 1)
  {
    var ct, before, after := st.containers[c], Drained(cfg, st, c, k), Drained(cfg, st, c, k + 1);
    ThroughOne(ct, k);
    forall s | s in st.subs ensures DispatchTo(cfg, before.subs[s], c, ct.batch[k]) == after.subs[s] {
      GivenOne(cfg, st.subs[s], c, ct.batch, k);
    }
    assert DispatchState(cfg, before, c).subs == after.subs;
    assert DispatchState(cfg, before, c).containers == after.containers;
  }

  /** These steps do what PostgresEventBus.DrainUntilYield does: every local subscriber's queue receives
      the rows of its topic in order, the cursor follows the last row, and nothing else changes. */
  lemma {:induction false} DrainIsDispatchSteps(cfg: Config, st: State, c: nat, k: nat)
    requires Reachable(cfg, st) && Open(st, c) && k <= |st.containers[c].batch|
    ensures Reachable(cfg, DispatchMany(cfg, st, c, k)) && DispatchMany(cfg, st, c, k) == Drained(cfg, st, c, k)
  {
    if k == 0 {
      DrainedNone(cfg, st, c);
    } else {
      DrainIsDispatchSteps(cfg, st, c, k - 1);
      DispatchOne(cfg, Drained(cfg, st, c, k - 1), c);
      DrainedOne(cfg, st, c, k - 1);
    }
  }

  lemma DispatchOne(cfg: Config, st: State, c: nat)
    requires Reachable(cfg, st) && Open(st, c) && st.containers[c].batch != []
    ensures Next(cfg, st, DispatchRow(c)) == DispatchState(cfg, st, c)
    ensures Reachable(cfg, Next(cfg, st, DispatchRow(c)))
  {
    ReachableStep(cfg, st, DispatchRow(c));
  }
}
