/** Backpressure in whole runs of the protocol: a healthy subscriber keeps its stream, whatever all the
    other publishers, pumps and subscribers do in between. */
module HealthyRuns {
  import opened Logs
  import opened Queues
  import opened PostgresBus
  import opened BusProtocol

  function Counts(step: Step, c: nat): nat {
    if step == DispatchRow(c) then 1 else 0
  }

  /** The rows the pump of `c` dispatches in a stretch of a run. */
  function Dispatches(steps: seq<Step>, c: nat): nat {
    if steps == [] then 0 else Counts(steps[0], c) + Dispatches(steps[1..], c)
  }

  /** The subscriber does not leave and its container is not closed. */
  predicate Stays(steps: seq<Step>, c: nat, s: nat) {
    forall i :: 0 <= i < |steps| ==> steps[i] != CloseBus(c) && steps[i] != Act(s, Leave)
  }

  /** A stretch runs from one point where the pump's loop suspends (its yield or its next fetch) to the
      next, and holds at most a chunk of its dispatches (PostgresEventBus.DrainUntilYield). */
  ghost predicate Stretch(cfg: Config, st: State, steps: seq<Step>, c: nat, s: nat) {
    Legal(cfg, st, steps) && Stays(steps, c, s) && Dispatches(steps, c) <= Chunk(cfg.queueSize)
  }

  /** The subscriber has an empty queue at the end of at least one of every two consecutive stretches;
      `owing` says that it had not at the previous end. */
  ghost predicate HealthyRun(cfg: Config, st: State, stretches: seq<seq<Step>>, c: nat, s: nat, owing: bool)
    decreases |stretches|
  {
    stretches == [] || (
      && Stretch(cfg, st, stretches[0], c, s) && s in Run(cfg, st, stretches[0]).subs
      && (owing ==> Run(cfg, st, stretches[0]).subs[s].queue == [])
      && HealthyRun(cfg, Run(cfg, st, stretches[0]), stretches[1..], c, s,
                    Run(cfg, st, stretches[0]).subs[s].queue != []))
  }

  ghost function RunAll(cfg: Config, st: State, stretches: seq<seq<Step>>, c: nat, s: nat, owing: bool): State
    requires HealthyRun(cfg, st, stretches, c, s, owing)
    decreases |stretches|
  {
    if stretches == [] then st
    else
      var next := Run(cfg, st, stretches[0]);
      RunAll(cfg, next, stretches[1..], c, s, next.subs[s].queue != [])
  }

  /** `s` is an open stream of container `c` with at most `n` rows waiting. */
  ghost predicate Backlog(st: State, c: nat, s: nat, n: nat) {
    && s in st.subs && st.subs[s].container == c && c in st.containers
    && st.subs[s].registered && AllItems(st.subs[s].queue) && |st.subs[s].queue| <= n
  }

  ghost predicate Fits(cfg: Config, n: nat) {
    cfg.queueSize <= 0 || n <= cfg.queueSize
  }

  lemma OneStep(cfg: Config, st: State, step: Step, c: nat, s: nat, n: nat)
    requires Enabled(st, step) && step != CloseBus(c) && step != Act(s, Leave) && Backlog(st, c, s, n)
    requires Fits(cfg, n + Counts(step, c))
    ensures Backlog(Next(cfg, st, step), c, s, n + Counts(step, c))
  {
  }

  lemma {:induction false} StretchKeeps(cfg: Config, st: State, steps: seq<Step>, c: nat, s: nat, n: nat)
    requires Legal(cfg, st, steps) && Stays(steps, c, s) && Backlog(st, c, s, n) && Fits(cfg, n + Dispatches(steps, c))
    ensures Backlog(Run(cfg, st, steps), c, s, n + Dispatches(steps, c))
    decreases |steps|
  {
    if steps != [] {
      OneStep(cfg, st, steps[0], c, s, n);
      StretchKeeps(cfg, Next(cfg, st, steps[0]), steps[1..], c, s, n + Counts(steps[0], c));
    }
  }

  /** In every run of the protocol in which the subscriber is healthy and the pump keeps to its chunks, for
      every queue size but one: the stream is still open after any further part of a stretch, and its
      backlog is within two chunks, which fit the queue. */
  lemma {:induction false} HealthyStreamStaysOpen(cfg: Config, st: State, stretches: seq<seq<Step>>, c: nat, s: nat,
      owing: bool, last: seq<Step>)
    requires cfg.queueSize != 1
    requires Backlog(st, c, s, if owing then Chunk(cfg.queueSize) else 0)
    requires HealthyRun(cfg, st, stretches, c, s, owing)
    requires Stretch(cfg, RunAll(cfg, st, stretches, c, s, owing), last, c, s)
    ensures Backlog(Run(cfg, RunAll(cfg, st, stretches, c, s, owing), last), c, s, 2 * Chunk(cfg.queueSize))
    ensures Fits(cfg, 2 * Chunk(cfg.queueSize))
    decreases |stretches|
  {
    var before := if owing then Chunk(cfg.queueSize) else 0;
    if stretches == [] {
      StretchKeeps(cfg, st, last, c, s, before);
    } else {
      var next := Run(cfg, st, stretches[0]);
      StretchKeeps(cfg, st, stretches[0], c, s, before);
      HealthyStreamStaysOpen(cfg, next, stretches[1..], c, s, next.subs[s].queue != [], last);
    }
  }
}
