/** The pump's sleep in the protocol: the rows that Wakeup counts are the rows of the log, gaps and pruned rows
    included, and a sleeping pump has dispatched every one of them. */
module PumpSleep {
  import opened Logs
  import opened Database
  import B = BusProtocol
  import Delivery
  import W = Wakeup

  /** The bus, and the sleep and LISTEN connection of one of its containers. */
  datatype State = State(bus: B.State, pump: W.State)

  datatype Step = Bus(bus: B.Step) | Pump(pump: W.Step)

  /** The counts of container `c`. */
  ghost predicate Matches(st: State, c: nat) {
    && c in st.bus.containers
    && st.pump.committed == |st.bus.db.log|
    && st.pump.pos == st.bus.containers[c].pos
    && st.pump.covered == st.bus.containers[c].pos + |st.bus.containers[c].batch|
  }

  /** What a step of the bus is for the pump of `c`. */
  function Seen(step: B.Step, c: nat): Option<W.Step> {
    match step
    case Server(d) => if d.Commit? then Some(W.Commit) else None
    case Fetch(c') => if c' == c then Some(W.Fetch) else None
    case DispatchRow(c') => if c' == c then Some(W.DispatchRow) else None
    case _ => None
  }

  /** Both take part in commits, and in the fetches and dispatches of `c`; anything else is done by one. */
  ghost predicate Enabled(st: State, c: nat, step: Step) {
    match step
    case Bus(b) =>
      && B.Enabled(st.bus, b) && b != B.CloseBus(c)
      && (Seen(b, c).Some? ==> W.Enabled(st.pump, Seen(b, c).value))
    case Pump(w) => w !in {W.Commit, W.Fetch, W.DispatchRow} && W.Enabled(st.pump, w)
  }

  ghost function Next(cfg: B.Config, st: State, c: nat, step: Step): State
    requires Enabled(st, c, step)
  {
    match step
    case Bus(b) =>
      State(B.Next(cfg, st.bus, b), if Seen(b, c).Some? then W.Next(st.pump, Seen(b, c).value) else st.pump)
    case Pump(w) => st.(pump := W.Next(st.pump, w))
  }

  ghost predicate Legal(cfg: B.Config, st: State, c: nat, steps: seq<Step>)
    decreases |steps|
  {
    steps == [] || (Enabled(st, c, steps[0]) && Legal(cfg, Next(cfg, st, c, steps[0]), c, steps[1..]))
  }

  ghost function Run(cfg: B.Config, st: State, c: nat, steps: seq<Step>): State
    requires Legal(cfg, st, c, steps)
    decreases |steps|
  {
    if steps == [] then st else Run(cfg, Next(cfg, st, c, steps[0]), c, steps[1..])
  }

  /** The next batch is as long as Wakeup says: the unread rows, at most a full batch of them. */
  lemma FetchCounts(cfg: B.Config, st: B.State, c: nat)
    requires B.Reachable(cfg, st) && B.Open(st, c) && st.containers[c].batch == []
    ensures var unread := |st.db.log| - st.containers[c].pos;
            && unread >= 0
            && |FetchRows(st.db, st.containers[c].cursor, B.BATCH)| == if unread >= B.BATCH then B.BATCH else unread
  {
    B.ReachableInv(cfg, st);
    assert B.PumpInv(st.db, st.containers[c]);
    FetchIsNextRows(st.db, st.containers[c].cursor, st.containers[c].pos, B.BATCH);
  }

  lemma BusStepMatches(cfg: B.Config, st: State, c: nat, b: B.Step)
    requires B.Reachable(cfg, st.bus) && B.Open(st.bus, c) && Matches(st, c) && Enabled(st, c, Bus(b))
    ensures Matches(Next(cfg, st, c, Bus(b)), c) && B.Open(Next(cfg, st, c, Bus(b)).bus, c)
  {
    if b == B.Fetch(c) {
      FetchCounts(cfg, st.bus, c);
    }
  }

  ghost predicate Inv(cfg: B.Config, st: State, c: nat) {
    B.Reachable(cfg, st.bus) && B.Open(st.bus, c) && Matches(st, c) && W.Inv(st.pump)
  }

  lemma PumpStepKeeps(w: W.State, step: W.Step)
    requires W.Inv(w) && W.Enabled(w, step)
    ensures W.Inv(W.Next(w, step))
  {
    W.NoLostWakeup(w, [step]);
  }

  lemma StepKeeps(cfg: B.Config, st: State, c: nat, step: Step)
    requires Inv(cfg, st, c) && Enabled(st, c, step)
    ensures Inv(cfg, Next(cfg, st, c, step), c)
  {
    match step
    case Bus(b) =>
      BusStepMatches(cfg, st, c, b);
      B.ReachableStep(cfg, st.bus, b);
      if Seen(b, c).Some? {
        PumpStepKeeps(st.pump, Seen(b, c).value);
      }
    case Pump(w) => PumpStepKeeps(st.pump, w);
  }

  /** A container starts with the pump awake and its count right. */
  lemma StartMatches(cfg: B.Config, bus: B.State, c: nat)
    requires B.Reachable(cfg, bus) && c !in bus.containers
    ensures Inv(cfg, State(B.Next(cfg, bus, B.Start(c)), W.Started(|bus.db.log|)), c)
  {
    B.ReachableStep(cfg, bus, B.Start(c));
  }

  /** In every run of the whole bus with the sleep of one container's pump: when the LISTEN connection is proven
      and the pump sleeps with nothing to wake it, it has dispatched every committed row, and each of its live
      subscribers with an empty queue has been sent everything it is due. */
  lemma {:induction false} SleepingPumpIsDone(cfg: B.Config, st: State, c: nat, steps: seq<Step>)
    requires Inv(cfg, st, c) && Legal(cfg, st, c, steps)
    ensures var end := Run(cfg, st, c, steps);
      Inv(cfg, end, c) &&
      (end.pump.listen.Proven? && end.pump.pump.Waiting? && !end.pump.wake && end.pump.transit == 0 ==>
         && end.bus.containers[c].pos == |end.bus.db.log| && end.bus.containers[c].batch == []
         && forall s :: s in end.bus.subs && end.bus.subs[s].container == c && end.bus.subs[s].phase.Live?
                        && end.bus.subs[s].registered && end.bus.subs[s].queue == [] ==>
              end.bus.subs[s].regPos <= |end.bus.db.log|
              && end.bus.subs[s].delivered == Delivery.Expected(cfg, end.bus.db, end.bus.subs[s]))
    decreases |steps|
  {
    if steps == [] {
      forall s | s in st.bus.subs && Delivery.CaughtUp(st.bus, s)
        ensures st.bus.subs[s].regPos <= |st.bus.db.log|
                && st.bus.subs[s].delivered == Delivery.Expected(cfg, st.bus.db, st.bus.subs[s])
      {
        Delivery.DeliveryIsPrefix(cfg, st.bus, s);
      }
    } else {
      StepKeeps(cfg, st, c, steps[0]);
      SleepingPumpIsDone(cfg, Next(cfg, st, c, steps[0]), c, steps[1..]);
    }
  }
}
