/** with_heartbeat: items of a source, or a heartbeat whenever the interval passes without one. */
module Heartbeat {
  import opened Logs

  // Below, `== true` makes the verifier pass a predicate on as one fact instead of taking it apart.

  /** What the wrapper yields; a heartbeat (None in the source) remembers when it was sent. */
  datatype Output<T> = Item(value: T) | Beat(at: real)

  /** What the world does in one turn of the loop: the clock at its top, whether the pending pull is
      done when the wait returns, the clock then, and whether the consumer closes the generator at
      the yield of this turn. */
  datatype Turn = Turn(top: real, done: bool, after: real, leaves: bool)

  datatype Ending = Running | SourceEnded | SourceRaised | DeadlineReached | ConsumerLeft

  function Items<T>(out: seq<Output<T>>): seq<T> {
    if out == [] then []
    else
      var rest := Items(out[..|out| - 1]);
      match out[|out| - 1]
      case Item(value) => rest + [value]
      case Beat(_) => rest
  }

  lemma ItemsAppend<T>(out: seq<Output<T>>, o: Output<T>)
    ensures Items(out + [o]) == Items(out) + if o.Item? then [o.value] else []
  {
    assert (out + [o])[..|out|] == out;
  }

  /** Yielding the next item of the source. */
  lemma ItemsNext<T>(out: seq<Output<T>>, source: seq<T>, given: nat)
    requires given < |source| && Items(out) == source[..given]
    ensures Items(out + [Item(source[given])]) == source[..given + 1]
  {
    ItemsAppend(out, Item(source[given]));
  }

  /** `max_duration` of zero counts as none, as in `if max_duration`. */
  function Deadline(start: real, maxDuration: Option<real>): Option<real> {
    if maxDuration.Some? && maxDuration.value != 0.0 then Some(start + maxDuration.value) else None
  }

  /** The deadline is found passed at the top of a turn, or after a wait that brought nothing. */
  predicate Passed(deadline: Option<real>, turn: Turn) {
    deadline.Some? && (turn.top >= deadline.value || (!turn.done && turn.after >= deadline.value))
  }

  /** A turn before the deadline yields an item if the pull was done, and otherwise a heartbeat, which is
      then sent before the deadline. */
  predicate Answers<T>(deadline: Option<real>, turn: Turn, o: Output<T>) {
    !Passed(deadline, turn) && if turn.done then o.Item? else o == Beat(turn.after)
  }

  /** A wait lasts the interval or, if that is shorter, until the deadline; it is positive if the interval is. */
  predicate InTime(deadline: Option<real>, interval: real, turn: Turn, wait: real) {
    && wait <= interval
    && (deadline.Some? ==> turn.top + wait <= deadline.value)
    && (wait == interval || (deadline.Some? && turn.top + wait == deadline.value))
    && (interval > 0.0 ==> wait > 0.0)
  }

  function Min(a: real, b: real): real {
    if a <= b then a else b
  }

  // ---- one turn, as a function ---------------------------------------------------------

  /** What the wrapper is given. */
  datatype Task<T> = Task(source: seq<T>, raises: bool, interval: real, deadline: Option<real>)

  /** The wrapper between two turns: what it has yielded, the timeouts it has waited with, the pulls it has
      started, whether one is pending and how many items the source has given. */
  datatype Loop<T> = Loop(out: seq<Output<T>>, waits: seq<real>, pulls: nat, pending: bool, given: nat, ending: Ending)

  function Timeout<T>(t: Task<T>, turn: Turn): real {
    if t.deadline.Some? then Min(t.interval, t.deadline.value - turn.top) else t.interval
  }

  /** A pull is pending and has been waited for. */
  function Waited<T>(t: Task<T>, s: Loop<T>, turn: Turn): Loop<T> {
    s.(waits := s.waits + [Timeout(t, turn)], pulls := if s.pending then s.pulls else s.pulls + 1, pending := true)
  }

  function Yielded<T>(s: Loop<T>, o: Output<T>, turn: Turn): Loop<T> {
    s.(out := s.out + [o], ending := if turn.leaves then ConsumerLeft else Running)
  }

  function OneTurn<T>(t: Task<T>, s: Loop<T>, turn: Turn): Loop<T> {
    if !s.ending.Running? then s
    else if t.deadline.Some? && turn.top >= t.deadline.value then s.(ending := DeadlineReached)
    else
      var w := Waited(t, s, turn);
      if !turn.done then
        if t.deadline.Some? && turn.after >= t.deadline.value then w.(ending := DeadlineReached)
        else Yielded(w, Beat(turn.after), turn)
      else if s.given >= |t.source| then w.(pending := false, ending := if t.raises then SourceRaised else SourceEnded)
      else Yielded(w, Item(t.source[s.given]), turn).(pending := false, given := s.given + 1)
  }

  /** One pull at a time, and everything pulled is yielded but the last. */
  ghost predicate Counted<T>(t: Task<T>, s: Loop<T>) {
    && s.given <= |t.source| && Items(s.out) == t.source[..s.given]
    && if s.ending.SourceEnded? || s.ending.SourceRaised? then
         !s.pending && s.given == |t.source| && s.pulls == s.given + 1 && (s.ending.SourceRaised? <==> t.raises)
       else
         s.pulls == s.given + if s.pending then 1 else 0
  }

  lemma BeatCounts<T>(t: Task<T>, s: Loop<T>, turn: Turn)
    requires Counted(t, s) && s.ending.Running?
    ensures Counted(t, Yielded(Waited(t, s, turn), Beat(turn.after), turn))
  {
    ItemsAppend(s.out, Beat(turn.after));
  }

  lemma ItemCounts<T>(t: Task<T>, s: Loop<T>, turn: Turn)
    requires Counted(t, s) && s.ending.Running? && s.given < |t.source|
    ensures Counted(t, Yielded(Waited(t, s, turn), Item(t.source[s.given]), turn).(pending := false,
            given := s.given + 1))
  {
    ItemsNext(s.out, t.source, s.given);
  }

  lemma EndCounts<T>(t: Task<T>, s: Loop<T>, turn: Turn)
    requires Counted(t, s) && s.ending.Running?
    ensures Counted(t, Waited(t, s, turn).(ending := DeadlineReached)) && Counted(t, s.(ending := DeadlineReached))
    ensures s.given == |t.source| ==>
              Counted(t, Waited(t, s, turn).(pending := false,
                                             ending := if t.raises then SourceRaised else SourceEnded))
  {
  }

  lemma OneTurnCounts<T>(t: Task<T>, s: Loop<T>, turn: Turn)
    requires Counted(t, s)
    ensures Counted(t, OneTurn(t, s, turn)) == true
  {
    if s.ending.Running? {
      EndCounts(t, s, turn);
      if !turn.done {
        BeatCounts(t, s, turn);
      } else if s.given < |t.source| {
        ItemCounts(t, s, turn);
      }
    }
  }

  /** The first `n` turns were answered in time, until one of them ended the stream. */
  ghost predicate Answered<T>(t: Task<T>, turns: seq<Turn>, n: nat, s: Loop<T>) {
    && |s.out| <= |s.waits| <= n <= |turns| && (s.ending.Running? ==> |s.out| == |s.waits| == n)
    && (forall k :: 0 <= k < |s.out| ==> Answers(t.deadline, turns[k], s.out[k]))
    && (forall k :: 0 <= k < |s.waits| ==> InTime(t.deadline, t.interval, turns[k], s.waits[k]))
    && (forall k :: 0 <= k < |s.out| - 1 ==> !turns[k].leaves)
    && (s.ending.ConsumerLeft? <==> |s.out| > 0 && turns[|s.out| - 1].leaves)
    && (s.ending.DeadlineReached? ==> |s.out| < n && Passed(t.deadline, turns[|s.out|]))
    && (s.ending.SourceEnded? || s.ending.SourceRaised? ==> |s.out| < n && !Passed(t.deadline, turns[|s.out|]))
  }

  lemma YieldAnswers<T>(t: Task<T>, turns: seq<Turn>, n: nat, s: Loop<T>, o: Output<T>)
    requires n < |turns| && Answered(t, turns, n, s) && s.ending.Running?
    requires Answers(t.deadline, turns[n], o) && InTime(t.deadline, t.interval, turns[n], Timeout(t, turns[n]))
    ensures Answered(t, turns, n + 1, Yielded(Waited(t, s, turns[n]), o, turns[n])) == true
  {
  }

  lemma EndAnswers<T>(t: Task<T>, turns: seq<Turn>, n: nat, s: Loop<T>, ending: Ending)
    requires n < |turns| && Answered(t, turns, n, s) && s.ending.Running?
    requires InTime(t.deadline, t.interval, turns[n], Timeout(t, turns[n]))
    requires if ending.DeadlineReached? then Passed(t.deadline, turns[n])
             else (ending.SourceEnded? || ending.SourceRaised?) && !Passed(t.deadline, turns[n])
    ensures Answered(t, turns, n + 1, Waited(t, s, turns[n]).(ending := ending)) == true
  {
  }

  lemma LateAnswers<T>(t: Task<T>, turns: seq<Turn>, n: nat, s: Loop<T>)
    requires n < |turns| && Answered(t, turns, n, s) && s.ending.Running? && Passed(t.deadline, turns[n])
    ensures Answered(t, turns, n + 1, s.(ending := DeadlineReached)) == true
  {
  }

  lemma EndedAnswers<T>(t: Task<T>, turns: seq<Turn>, n: nat, s: Loop<T>)
    requires n < |turns| && Answered(t, turns, n, s) && !s.ending.Running?
    ensures Answered(t, turns, n + 1, s) == true
  {
  }

  lemma OneTurnAnswers<T>(t: Task<T>, turns: seq<Turn>, n: nat, s: Loop<T>)
    requires n < |turns| && Answered(t, turns, n, s) == true
    ensures Answered(t, turns, n + 1, OneTurn(t, s, turns[n])) == true
  {
    var turn := turns[n];
    if !s.ending.Running? {
      EndedAnswers(t, turns, n, s);
    } else if t.deadline.Some? && turn.top >= t.deadline.value {
      LateAnswers(t, turns, n, s);
    } else if !turn.done && t.deadline.Some? && turn.after >= t.deadline.value {
      EndAnswers(t, turns, n, s, DeadlineReached);
    } else if !turn.done {
      YieldAnswers(t, turns, n, s, Beat(turn.after));
    } else if s.given >= |t.source| {
      EndAnswers(t, turns, n, s, if t.raises then SourceRaised else SourceEnded);
    } else {
      YieldAnswers(t, turns, n, s, Item(t.source[s.given]));
    }
  }

  /** The wrapper after the first `n` turns. */
  function AfterTurns<T>(t: Task<T>, turns: seq<Turn>, n: nat): Loop<T>
    requires n <= |turns|
  {
    if n == 0 then Loop([], [], 0, false, 0, Running) else OneTurn(t, AfterTurns(t, turns, n - 1), turns[n - 1])
  }

  lemma {:induction false} TurnsCount<T>(t: Task<T>, turns: seq<Turn>, n: nat)
    requires n <= |turns|
    ensures Counted(t, AfterTurns(t, turns, n)) == true
  {
    if n > 0 {
      TurnsCount(t, turns, n - 1);
      OneTurnCounts(t, AfterTurns(t, turns, n - 1), turns[n - 1]);
    }
  }

  lemma {:induction false} TurnsAnswer<T>(t: Task<T>, turns: seq<Turn>, n: nat)
    requires n <= |turns|
    ensures Answered(t, turns, n, AfterTurns(t, turns, n)) == true
  {
    if n > 0 {
      TurnsAnswer(t, turns, n - 1);
      OneTurnAnswers(t, turns, n - 1, AfterTurns(t, turns, n - 1));
    }
  }

  /** What holds of the wrapper after any number of turns. */
  lemma AtTheEnd<T>(t: Task<T>, turns: seq<Turn>, n: nat)
    requires n <= |turns|
    ensures Answered(t, turns, n, AfterTurns(t, turns, n)) == true
    ensures var s := AfterTurns(t, turns, n);
      && Items(s.out) <= t.source && |Items(s.out)| <= s.pulls <= |Items(s.out)| + 1
      && (s.ending.SourceEnded? || s.ending.SourceRaised? ==>
            Items(s.out) == t.source && !s.pending && (s.ending.SourceRaised? <==> t.raises))
      && (s.ending.DeadlineReached? || s.ending.ConsumerLeft? ==>
          s.pulls - |Items(s.out)| == if s.pending then 1 else 0)
  {
    TurnsCount(t, turns, n);
    TurnsAnswer(t, turns, n);
  }

  /** The `while` loop: it takes turns until the stream ends. */
  method TurnLoop<T>(source: seq<T>, raises: bool, interval: real, deadline: Option<real>, turns: seq<Turn>)
    returns (out: seq<Output<T>>, waits: seq<real>, pulls: nat, pending: bool, ending: Ending, ghost n: nat)
    ensures n <= |turns| && (ending.Running? ==> n == |turns|)
    ensures var s := AfterTurns(Task(source, raises, interval, deadline), turns, n);
            out == s.out && waits == s.waits && pulls == s.pulls && pending == s.pending && ending == s.ending
  {
    ghost var task := Task(source, raises, interval, deadline);
    out, waits, pulls, pending, ending := [], [], 0, false, Running;
    var given := 0;   // how far the source has got
    var i := 0;
    while i < |turns| && ending.Running?
      invariant 0 <= i <= |turns|
      invariant Loop(out, waits, pulls, pending, given, ending) == AfterTurns(task, turns, i)
    {
      var turn := turns[i];
      var timeout := interval;
      if deadline.Some? {
        timeout := Min(interval, deadline.value - turn.top);
      }
      if deadline.Some? && deadline.value - turn.top <= 0.0 {
        ending := DeadlineReached;
      } else {
        if !pending {
          pending := true;
          pulls := pulls + 1;
        }
        waits := waits + [timeout];
        if !turn.done && deadline.Some? && turn.after >= deadline.value {
          ending := DeadlineReached;
        } else if !turn.done {
          out := out + [Beat(turn.after)];
          ending := if turn.leaves then ConsumerLeft else Running;
        } else if given >= |source| {
          pending := false;
          ending := if raises then SourceRaised else SourceEnded;
        } else {
          pending := false;
          out := out + [Item(source[given])];
          given := given + 1;
          ending := if turn.leaves then ConsumerLeft else Running;
        }
      }
      i := i + 1;
    }
    n := i;
  }

  /** The wrapper driven through any number of turns over any source, which yields `source` and then
      stops, or raises. `waits` are the timeouts passed to `asyncio.wait`, `pulls` the number of
      `__anext__` tasks created, `cancels` the number cancelled, and `closed` says that the source was closed. */
  method WithHeartbeat<T>(source: seq<T>, raises: bool, interval: real, maxDuration: Option<real>, start: real,
                          turns: seq<Turn>)
    returns (out: seq<Output<T>>, waits: seq<real>, pulls: nat, cancels: nat, closed: bool, ending: Ending)
    // Items come through unchanged, in order and once.
    ensures Items(out) <= source
    // One pull at a time: the wrapper is never more than one pull ahead of what it has yielded.
    ensures |Items(out)| <= pulls <= |Items(out)| + 1
    // Heartbeats leave the pending pull alone; it is cancelled only when the wrapper ends early.
    ensures cancels == if ending.DeadlineReached? || ending.ConsumerLeft? then pulls - |Items(out)| else 0
    // However the wrapper ends, it closes the source.
    ensures closed <==> !ending.Running?
    // The source's own end is reported only after everything it had was yielded.
    ensures ending.SourceEnded? || ending.SourceRaised? ==> Items(out) == source && (ending.SourceRaised? <==> raises)
    // Each turn before the last yields its answer; the deadline ends the stream in the first turn that finds it passed.
    ensures |out| <= |turns| && (ending.Running? ==> |out| == |turns|)
    ensures forall i :: 0 <= i < |out| ==> Answers(Deadline(start, maxDuration), turns[i], out[i])
    ensures ending.DeadlineReached? ==> |out| < |turns| && Passed(Deadline(start, maxDuration), turns[|out|])
    ensures ending.ConsumerLeft? <==> |out| > 0 && turns[|out| - 1].leaves
    ensures forall i :: 0 <= i < |out| - 1 ==> !turns[i].leaves
    ensures |out| <= |waits| <= |turns|
    ensures forall i :: 0 <= i < |waits| ==> InTime(Deadline(start, maxDuration), interval, turns[i], waits[i])
    // With a lifetime: no heartbeat at or after its end; the first turn that starts after it, or waits until
    // then for nothing, ends the stream; and each wait is the interval or, if shorter, the time that is left.
    ensures maxDuration.Some? && maxDuration.value != 0.0 ==>
              var end := start + maxDuration.value;
              && (forall i :: 0 <= i < |out| && out[i].Beat? ==> out[i].at < end)
              && (forall i :: 0 <= i < |out| ==> turns[i].top < end && (!turns[i].done ==> turns[i].after < end))
              && (ending.DeadlineReached? <==>
                    && |out| < |turns| && !ending.ConsumerLeft?
                    && (turns[|out|].top >= end || (!turns[|out|].done && turns[|out|].after >= end)))
              && (forall i :: 0 <= i < |waits| ==>
                    && waits[i] <= interval && turns[i].top + waits[i] <= end
                    && (waits[i] == interval || turns[i].top + waits[i] == end))
    // Without one, the deadline never ends it.
    ensures maxDuration.None? || maxDuration.value == 0.0 ==>
              !ending.DeadlineReached? && forall i :: 0 <= i < |waits| ==> waits[i] == interval
  {
    ghost var task := Task(source, raises, interval, Deadline(start, maxDuration));
    ghost var n: nat;
    var pending: bool;
    out, waits, pulls, pending, ending, n := TurnLoop(source, raises, interval, Deadline(start, maxDuration), turns);
    AtTheEnd(task, turns, n);
    cancels, closed := 0, false;
    if !ending.Running? {
      if pending {
        cancels := cancels + 1;
      }
      closed := true;
    }
  }
}
