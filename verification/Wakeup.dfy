/** The pump's sleep: with a proven LISTEN connection no committed row waits for the safety timeout. */
module Wakeup {
  import BusProtocol

  /** Where `_pump` is: fetching, dispatching a batch (`more` when it was a full one), between the
      drain and the wait, waiting on `_wake`, or sleeping after an error. */
  datatype Pump = Fetching | Dispatching(more: bool) | Drained | Waiting | Backoff

  /** The LISTEN connection: none, listening but unproven, or proven by the probe. */
  datatype Listen = Off | Attached | Proven

  /** Rows are counted in commit order: `committed` exist, the last fetch covered the first `covered`
      and the first `pos` are dispatched. `transit` notifications are under way to this container. */
  datatype State = State(committed: nat, covered: nat, pos: nat, pump: Pump, wake: bool, listen: Listen, transit: nat)

  datatype Step =
    | Commit | Deliver | Attach | Prove | Lose
    | Fetch | FetchFails | DispatchRow | BatchEnds | Sleep | PruneFails | BackoffEnds | Wake | Timeout

  function Started(head: nat): State {
    State(head, head, head, Fetching, false, Off, 0)
  }

  predicate Enabled(st: State, step: Step) {
    match step
    case Commit => true
    case Deliver => st.transit > 0
    case Attach => st.listen.Off?
    case Prove => st.listen.Attached?
    case Lose => !st.listen.Off?
    case Fetch => st.pump.Fetching? && st.pos <= st.committed
    case FetchFails => st.pump.Fetching?
    case DispatchRow => st.pump.Dispatching? && st.pos < st.covered
    case BatchEnds => st.pump.Dispatching? && st.pos == st.covered
    case Sleep => st.pump.Drained?
    case PruneFails => st.pump.Drained?
    case BackoffEnds => st.pump.Backoff?
    case Wake => st.pump.Waiting? && st.wake
    case Timeout => st.pump.Waiting?
  }

  /** A commit notifies whoever listens; a lost connection loses what was under way; proving the
      connection sets `_wake`; both ways out of the wait clear it and go on to fetch. */
  function Next(st: State, step: Step): State
    requires Enabled(st, step)
  {
    match step
    case Commit => st.(committed := st.committed + 1, transit := if st.listen.Off? then 0 else st.transit + 1)
    case Deliver => st.(transit := st.transit - 1, wake := true)
    case Attach => st.(listen := Attached, transit := 0)
    case Prove => st.(listen := Proven, wake := true)
    case Lose => st.(listen := Off, transit := 0)
    case Fetch =>
      var unread := st.committed - st.pos;
      if unread >= BusProtocol.BATCH then st.(covered := st.pos + BusProtocol.BATCH, pump := Dispatching(true))
      else st.(covered := st.committed, pump := Dispatching(false))
    case FetchFails => st.(pump := Backoff)
    case DispatchRow => st.(pos := st.pos + 1)
    case BatchEnds => st.(pump := if st.pump.more then Fetching else Drained)
    case Sleep => st.(pump := Waiting)
    case PruneFails => st.(pump := Backoff)
    case BackoffEnds => st.(pump := Fetching)
    case Wake => st.(pump := Fetching, wake := false)
    case Timeout => st.(pump := Fetching, wake := false)
  }

  ghost predicate Legal(st: State, steps: seq<Step>)
    decreases |steps|
  {
    steps == [] || (Enabled(st, steps[0]) && Legal(Next(st, steps[0]), steps[1..]))
  }

  ghost function Run(st: State, steps: seq<Step>): State
    requires Legal(st, steps)
    decreases |steps|
  {
    if steps == [] then st else Run(Next(st, steps[0]), steps[1..])
  }

  /** The pump will read the table again before it can sleep. */
  predicate WillFetch(pump: Pump) {
    pump.Fetching? || pump.Backoff? || (pump.Dispatching? && pump.more)
  }

  ghost predicate Inv(st: State) {
    && st.pos <= st.covered <= st.committed
    && (st.pos < st.covered ==> st.pump.Dispatching?)
    && (st.listen.Off? ==> st.transit == 0)
    && (st.listen.Proven? && st.covered < st.committed ==> st.transit > 0 || st.wake || WillFetch(st.pump))
  }

  /** No lost wakeup, in every state of every run from the start of the pump: while the connection
      is proven, a row the pump has not read has its notification under way, or `_wake` set, or a
      fetch coming, whether it committed before or after listening began; a row it has read is
      being dispatched. */
  lemma {:induction false} NoLostWakeup(st: State, steps: seq<Step>)
    requires Inv(st) && Legal(st, steps)
    ensures Inv(Run(st, steps))
    decreases |steps|
  {
    if steps != [] {
      NoLostWakeup(Next(st, steps[0]), steps[1..]);
    }
  }

  /** So a pump that is asleep with nothing to wake it has dispatched every committed row. */
  lemma AsleepMeansDelivered(head: nat, steps: seq<Step>)
    requires Legal(Started(head), steps)
    ensures var st := Run(Started(head), steps);
      st.listen.Proven? && st.pump.Waiting? && !st.wake && st.transit == 0 ==> st.pos == st.committed
  {
    NoLostWakeup(Started(head), steps);
  }

  /** Listening alone is not enough: a row committed before LISTEN took effect sends nothing, and only
      the `_wake.set()` that follows the probe makes the pump look for it. */
  lemma UnprovenListenerCanMissARow(head: nat)
    ensures exists steps :: Legal(Started(head), steps) &&
              var st := Run(Started(head), steps);
              st.listen.Attached? && st.pump.Waiting? && !st.wake && st.transit == 0 && st.pos < st.committed
  {
    var s0 := Started(head);
    var s1 := Next(s0, Fetch);
    var s2 := Next(s1, BatchEnds);
    var s3 := Next(s2, Sleep);
    var s4 := Next(s3, Commit);
    var s5 := Next(s4, Attach);
    var steps := [Fetch, BatchEnds, Sleep, Commit, Attach];
    assert Legal(s5, []) && Run(s5, []) == s5;
    assert steps[4..] == [Attach] && steps[4..][1..] == [];
    assert Legal(s4, steps[4..]) && Run(s4, steps[4..]) == s5;
    assert steps[3..][1..] == steps[4..];
    assert Legal(s3, steps[3..]) && Run(s3, steps[3..]) == s5;
    assert steps[2..][1..] == steps[3..];
    assert Legal(s2, steps[2..]) && Run(s2, steps[2..]) == s5;
    assert Legal(s1, steps[1..]) && Run(s1, steps[1..]) == s5 by { assert steps[1..][1..] == steps[2..]; }
    assert Legal(s0, steps) && Run(s0, steps) == s5;
  }

  // ---- notifications, the flag and errors ---------------------------------------

  function Commits(steps: seq<Step>): nat {
    if steps == [] then 0 else Commits(steps[1..]) + if steps[0].Commit? then 1 else 0
  }

  function Deliveries(steps: seq<Step>): nat {
    if steps == [] then 0 else Deliveries(steps[1..]) + if steps[0].Deliver? then 1 else 0
  }

  /** While it listens, proven or not, a container is notified of each commit once, and of nothing else. */
  lemma {:induction false} EveryCommitIsNotified(st: State, steps: seq<Step>)
    requires Legal(st, steps) && !st.listen.Off? && forall i :: 0 <= i < |steps| ==> !steps[i].Lose?
    ensures Run(st, steps).transit + Deliveries(steps) == st.transit + Commits(steps)
    ensures !Run(st, steps).listen.Off? && (Run(st, steps).transit > 0 ==> Enabled(Run(st, steps), Deliver))
    decreases |steps|
  {
    if steps != [] {
      EveryCommitIsNotified(Next(st, steps[0]), steps[1..]);
    }
  }

  /** `_wake.set()`, and the `_wake.clear()` after the wait. */
  predicate Rings(step: Step) {
    step.Deliver? || step.Prove?
  }

  predicate Clears(step: Step) {
    step.Wake? || step.Timeout?
  }

  ghost predicate NoneClears(steps: seq<Step>, from: nat) {
    forall i :: from <= i < |steps| ==> !Clears(steps[i])
  }

  ghost predicate RungAt(steps: seq<Step>, i: nat) {
    i < |steps| && Rings(steps[i]) && NoneClears(steps, i + 1)
  }

  lemma RungLater(steps: seq<Step>, i: nat)
    requires steps != []
    ensures RungAt(steps, i + 1) <==> RungAt(steps[1..], i)
    ensures NoneClears(steps, 1) <==> NoneClears(steps[1..], 0)
  {
    assert forall k :: 0 <= k < |steps| - 1 ==> steps[1..][k] == steps[k + 1];
  }

  /** The flag is set exactly if a notification or a proven connection set it since the last wait ended. */
  lemma {:induction false} WakeIsExact(st: State, steps: seq<Step>)
    requires Legal(st, steps)
    ensures Run(st, steps).wake <==> (st.wake && NoneClears(steps, 0)) || exists i: nat :: RungAt(steps, i)
    decreases |steps|
  {
    if steps != [] {
      var next, rest := Next(st, steps[0]), steps[1..];
      WakeIsExact(next, rest);
      RungLater(steps, 0);
      if i: nat :| RungAt(steps, i) {
        assert i > 0 ==> RungAt(rest, i - 1) by {
          if i > 0 { RungLater(steps, i - 1); }
        }
      }
      if i: nat :| RungAt(rest, i) {
        RungLater(steps, i);
      }
      assert RungAt(steps, 0) <==> Rings(steps[0]) && NoneClears(rest, 0);
    }
  }

  lemma {:induction false} BackoffLasts(st: State, steps: seq<Step>)
    requires Legal(st, steps) && st.pump.Backoff? && forall i :: 0 <= i < |steps| ==> !steps[i].BackoffEnds?
    ensures forall i :: 0 <= i < |steps| ==> steps[i] in {Commit, Deliver, Attach, Prove, Lose}
    decreases |steps|
  {
    if steps != [] {
      BackoffLasts(Next(st, steps[0]), steps[1..]);
      assert forall i :: 1 <= i < |steps| ==> steps[i] == steps[1..][i - 1];
    }
  }

  lemma {:induction false} LegalPart(st: State, steps: seq<Step>, n: nat)
    requires Legal(st, steps) && n <= |steps|
    ensures Legal(st, steps[..n])
    decreases n
  {
    if n > 0 {
      LegalPart(Next(st, steps[0]), steps[1..], n - 1);
      assert steps[..n][1..] == steps[1..][..n - 1];
    }
  }

  /** A fetch can fail, and a prune: the pump then does not touch the table before a backoff has passed. */
  lemma ErrorsBackOff(st: State, error: Step, steps: seq<Step>, j: nat)
    requires (error.FetchFails? && st.pump.Fetching?) || (error.PruneFails? && st.pump.Drained?)
    requires Legal(Next(st, error), steps) && j < |steps|
    requires steps[j].Fetch? || steps[j].FetchFails? || steps[j].DispatchRow? || steps[j].PruneFails?
    ensures Enabled(st, error) && exists m :: 0 <= m < j && steps[m].BackoffEnds?
  {
    var part := steps[..j + 1];
    assert part[j] == steps[j];
    LegalPart(Next(st, error), steps, j + 1);
    if forall m :: 0 <= m < j ==> !steps[m].BackoffEnds? {
      BackoffLasts(Next(st, error), part);
      assert false;
    }
  }

  /** A fetch reads at most 500 rows, and goes round again without sleeping exactly if it got that many. */
  lemma FetchIsLimited(st: State)
    requires Inv(st) && Enabled(st, Fetch)
    ensures var next := Next(st, Fetch);
            && next.covered - next.pos <= 500 && next.pos == st.pos
            && (next.covered == st.committed || next.covered - next.pos == 500)
            && (WillFetch(next.pump) <==> next.covered - next.pos == 500)
  {
  }

  // ---- progress -------------------------------------------------------------------

  /** The pump's own moves when nothing fails, the safety timeout included. */
  predicate OwnMove(step: Step) {
    step in {Fetch, DispatchRow, BatchEnds, Sleep, BackoffEnds, Timeout}
  }

  function Moves(st: State): nat {
    match st.pump
    case Dispatching(_) => 5
    case Drained => 4
    case Backoff => 3
    case Waiting => 3
    case Fetching => 2
  }

  function Move(st: State): Step {
    match st.pump
    case Dispatching(_) => if st.pos < st.covered then DispatchRow else BatchEnds
    case Drained => Sleep
    case Backoff => BackoffEnds
    case Waiting => Timeout
    case Fetching => Fetch
  }

  lemma MoveHelps(st: State)
    requires Inv(st) && st.pos < st.committed
    ensures Enabled(st, Move(st)) && OwnMove(Move(st))
    ensures var next := Next(st, Move(st));
            && Inv(next) && next.committed == st.committed && next.listen == st.listen && next.pos >= st.pos
            && (next.pos > st.pos || Moves(next) < Moves(st) || (st.pump.Fetching? && next.pump.Dispatching?
                && next.pos < next.covered))
  {
  }

  /** The safety timeout alone is enough: whatever became of the connection and its notifications, the pump left
      to itself has moves that dispatch every committed row. */
  lemma {:induction false} TimeoutSuffices(st: State) returns (steps: seq<Step>)
    requires Inv(st)
    ensures Legal(st, steps) && forall i :: 0 <= i < |steps| ==> OwnMove(steps[i])
    ensures Run(st, steps).pos == Run(st, steps).committed == st.committed
    decreases st.committed - st.pos, if st.pump.Dispatching? && st.pos < st.covered then 1 else Moves(st)
  {
    if st.pos == st.committed {
      steps := [];
    } else {
      MoveHelps(st);
      var rest := TimeoutSuffices(Next(st, Move(st)));
      steps := [Move(st)] + rest;
      assert steps[1..] == rest;
    }
  }

  // ---- progress without the timeout ----------------------------------------

  /** What goes on when no new event comes, the connection stays as it is, nothing fails and no timeout
      fires. */
  predicate Quiet(step: Step) {
    step !in {Commit, Attach, Prove, Lose, FetchFails, PruneFails, Timeout}
  }

  function Rank(st: State): nat {
    match st.pump
    case Backoff => 10
    case Fetching => 9
    case Dispatching(more) => if st.pos < st.covered then 1 else if more then 10 else 5
    case Drained => 4
    case Waiting => 3
  }

  /** How many quiet steps there can be at most. */
  function Work(st: State): nat
    requires st.pos <= st.committed
  {
    11 * (st.committed - st.pos) + 11 * (2 * st.transit + if st.wake then 1 else 0) + Rank(st)
  }

  lemma QuietStepWorks(st: State, step: Step)
    requires Inv(st) && Enabled(st, step) && Quiet(step)
    ensures Inv(Next(st, step)) && Work(Next(st, step)) < Work(st)
    ensures Next(st, step).committed == st.committed && Next(st, step).listen == st.listen
  {
  }

  /** A state where nothing more happens by itself is one where all is dispatched. */
  lemma RestMeansDelivered(st: State)
    requires Inv(st) && st.listen.Proven?
    requires forall step :: Quiet(step) ==> !Enabled(st, step)
    ensures st.pump.Waiting? && st.pos == st.committed
  {
    assert !Enabled(st, Deliver) && !Enabled(st, Fetch) && !Enabled(st, DispatchRow) && !Enabled(st, BatchEnds);
    assert !Enabled(st, Sleep) && !Enabled(st, BackoffEnds) && !Enabled(st, Wake);
  }

  /** Left alone on a proven connection, under every schedule of pump and notifications: there are only so
      many steps, and when there is none left everything committed has been dispatched. The safety timeout
      is never needed. */
  lemma {:induction false} EverythingIsDelivered(st: State, steps: seq<Step>)
    requires Inv(st) && st.listen.Proven?
    requires Legal(st, steps) && forall i :: 0 <= i < |steps| ==> Quiet(steps[i])
    ensures |steps| <= Work(st)
    ensures var end := Run(st, steps);
      && end.committed == st.committed
      && ((forall step :: Quiet(step) ==> !Enabled(end, step)) ==> end.pump.Waiting? && end.pos == end.committed)
    decreases |steps|
  {
    if steps == [] {
      if forall step :: Quiet(step) ==> !Enabled(st, step) {
        RestMeansDelivered(st);
      }
    } else {
      QuietStepWorks(st, steps[0]);
      EverythingIsDelivered(Next(st, steps[0]), steps[1..]);
    }
  }
}
