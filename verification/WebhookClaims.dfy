/** The tail of receive_webhook: concurrent deliveries of one (provider, id) claim it, publish, and
    forget it again when publishing fails. The claim is assumed to be retained meanwhile. */
module WebhookClaims {
  import opened Logs

  /** Where a delivery is: it holds the claim; its event is committed but `publish` has not returned;
      `publish` raised (`late`: after the commit) and `forget` is still to come; or it is over. */
  datatype Phase =
    | Claimed
    | Committed
    | Failing(late: bool)
    | Accepted
    | Duplicate
    | Errored(late: bool, forgotten: bool)
    | Cancelled(published: bool)

  /** `recorded` is the store's row, `published` the number of events on the bus. History: `holder`
      made the claim that is recorded, `repeats` claims were released although they had published. */
  datatype State = State(recorded: bool, published: nat, deliveries: map<nat, Phase>, holder: Option<nat>, repeats: nat)

  datatype Step =
    | Deliver(d: nat)
    | LoseClaim(d: nat)    // record_if_new, outside the try, raises after its row is in
    | Publish(d: nat)
    | Refuse(d: nat)       // publish raises, nothing was committed
    | Return(d: nat)
    | Forget(d: nat)
    | LoseReply(d: nat)    // publish raises although the event was committed
    | ForgetFails(d: nat)
    | Cancel(d: nat)       // CancelledError is not an Exception: no forget

  function Initial(): State {
    State(false, 0, map[], None, 0)
  }

  predicate Active(phase: Phase) {
    phase.Claimed? || phase.Committed? || phase.Failing?
  }

  predicate Enabled(st: State, step: Step) {
    match step
    case Deliver(d) => d !in st.deliveries
    case LoseClaim(d) => d !in st.deliveries && !st.recorded
    case Publish(d) => d in st.deliveries && st.deliveries[d].Claimed?
    case Refuse(d) => d in st.deliveries && st.deliveries[d].Claimed?
    case Return(d) => d in st.deliveries && st.deliveries[d].Committed?
    case Forget(d) => d in st.deliveries && st.deliveries[d].Failing?
    case LoseReply(d) => d in st.deliveries && st.deliveries[d].Committed?
    case ForgetFails(d) => d in st.deliveries && st.deliveries[d].Failing?
    case Cancel(d) => d in st.deliveries && Active(st.deliveries[d])
  }

  function Next(st: State, step: Step): State
    requires Enabled(st, step)
  {
    match step
    case Deliver(d) =>
      if st.recorded then Set(st, d, Duplicate)
      else Set(st, d, Claimed).(recorded := true, holder := Some(d))
    case LoseClaim(d) => Set(st, d, Errored(false, false)).(recorded := true, holder := Some(d))
    case Publish(d) => Set(st, d, Committed).(published := st.published + 1)
    case Refuse(d) => Set(st, d, Failing(false))
    case Return(d) => Set(st, d, Accepted)
    case Forget(d) =>
      var late := st.deliveries[d].late;
      Set(st, d, Errored(late, true)).(recorded := false, holder := None, repeats := st.repeats + if late then 1 else 0)
    case LoseReply(d) => Set(st, d, Failing(true))
    case ForgetFails(d) => Set(st, d, Errored(st.deliveries[d].late, false))
    case Cancel(d) => Set(st, d, Cancelled(HasPublished(st.deliveries[d])))
  }

  function Set(st: State, d: nat, phase: Phase): State {
    st.(deliveries := st.deliveries[d := phase])
  }

  /** The publish is all-or-nothing, `forget` succeeds and no handler is cancelled. */
  predicate Mild(step: Step) {
    !step.LoseReply? && !step.ForgetFails? && !step.Cancel?
  }

  /** And a call that claims the id does not raise. */
  predicate Clean(step: Step) {
    Mild(step) && !step.LoseClaim?
  }

  predicate HasPublished(phase: Phase) {
    match phase
    case Committed => true
    case Failing(late) => late
    case Accepted => true
    case Errored(late, _) => late
    case Cancelled(published) => published
    case _ => false
  }

  ghost predicate Legal(st: State, steps: seq<Step>)
    decreases |steps|
  {
    steps == [] || (Enabled(st, steps[0]) && Legal(Next(st, steps[0]), steps[1..]))
  }

  ghost function Run(st: State, steps: seq<Step>): State
    requires Legal(st, steps)
    decreases |steps|
  {
    if steps == [] then st else Run(Next(st, steps[0]), steps[1..])
  }

  /** Some run leads to `st`, a clean one if asked for. */
  ghost predicate Reachable(st: State, clean: bool) {
    exists steps :: Legal(Initial(), steps) && Run(Initial(), steps) == st && (clean ==> AllClean(steps))
  }

  ghost predicate AllClean(steps: seq<Step>) {
    forall i :: 0 <= i < |steps| ==> Clean(steps[i])
  }

  lemma {:induction false} RunAppend(st: State, steps: seq<Step>, step: Step)
    requires Legal(st, steps) && Enabled(Run(st, steps), step)
    ensures Legal(st, steps + [step]) && Run(st, steps + [step]) == Next(Run(st, steps), step)
    decreases |steps|
  {
    if steps == [] {
      assert [] + [step] == [step] && [step][1..] == [];
    } else {
      RunAppend(Next(st, steps[0]), steps[1..], step);
      assert (steps + [step])[1..] == steps[1..] + [step];
    }
  }

  lemma Then(st: State, step: Step, clean: bool) returns (next: State)
    requires Reachable(st, clean) && Enabled(st, step) && (clean ==> Clean(step))
    ensures next == Next(st, step) && Reachable(next, clean)
  {
    next := Next(st, step);
    var steps :| Legal(Initial(), steps) && Run(Initial(), steps) == st && (clean ==> AllClean(steps));
    RunAppend(Initial(), steps, step);
  }

  /** The first delivery has claimed the id. */
  lemma FirstClaims(clean: bool) returns (st: State)
    ensures st == Next(Initial(), Deliver(1)) && Reachable(st, clean)
  {
    assert Legal(Initial(), []) && Run(Initial(), []) == Initial() && AllClean([]);
    st := Then(Initial(), Deliver(1), clean);
  }

  /** Deliveries that claimed the id and have not released it. */
  predicate Holds(phase: Phase) {
    !phase.Duplicate? && !(phase.Errored? && phase.forgotten)
  }

  /** The recorded row belongs to one delivery; every published event is its own or that of a claim
      released in error. */
  ghost predicate Inv(st: State) {
    && (st.recorded <==> st.holder.Some?)
    && (st.holder.Some? ==> st.holder.value in st.deliveries && Holds(st.deliveries[st.holder.value]))
    && (forall d :: d in st.deliveries && Holds(st.deliveries[d]) ==> st.holder == Some(d))
    && st.published == st.repeats + if st.holder.Some? && HasPublished(st.deliveries[st.holder.value]) then 1 else 0
  }

  /** In a mild run nothing was cancelled or published twice, and a claim is only left behind by a call
      that lost it. */
  ghost predicate MildInv(st: State, lost: bool) {
    && st.repeats == 0
    && (forall d :: d in st.deliveries ==>
         match st.deliveries[d]
         case Failing(late) => !late
         case Errored(late, forgotten) => !late && (forgotten || (lost && st.holder == Some(d)))
         case Cancelled(_) => false
         case _ => true)
    && (lost ==>
          && st.holder.Some? && st.holder.value in st.deliveries
          && st.deliveries[st.holder.value] == Errored(false, false))
  }

  /** In a clean run nothing was cancelled, lost or left behind. */
  ghost predicate CleanInv(st: State) {
    MildInv(st, false)
  }

  ghost predicate ClaimIsLost(steps: seq<Step>) {
    exists i :: 0 <= i < |steps| && steps[i].LoseClaim?
  }

  lemma MildStepKeeps(st: State, step: Step, lost: bool)
    requires Inv(st) && MildInv(st, lost) && Enabled(st, step) && Mild(step)
    ensures MildInv(Next(st, step), lost || step.LoseClaim?)
  {
  }

  lemma {:induction false} MildRunKeeps(st: State, steps: seq<Step>, lost: bool)
    requires Inv(st) && MildInv(st, lost) && Legal(st, steps) && forall i :: 0 <= i < |steps| ==> Mild(steps[i])
    ensures MildInv(Run(st, steps), lost || ClaimIsLost(steps))
    decreases |steps|
  {
    if steps != [] {
      MildStepKeeps(st, steps[0], lost);
      RunKeeps(Next(st, steps[0]), []);
      MildRunKeeps(Next(st, steps[0]), steps[1..], lost || steps[0].LoseClaim?);
      LostLater(steps);
    }
  }

  lemma LostLater(steps: seq<Step>)
    requires steps != []
    ensures ClaimIsLost(steps) <==> steps[0].LoseClaim? || ClaimIsLost(steps[1..])
  {
    if ClaimIsLost(steps[1..]) {
      var i :| 0 <= i < |steps[1..]| && steps[1..][i].LoseClaim?;
      assert steps[i + 1].LoseClaim?;
    }
    if i :| 0 <= i < |steps| && steps[i].LoseClaim? {
      assert i == 0 || steps[1..][i - 1].LoseClaim?;
    }
  }

  lemma {:induction false} RunKeeps(st: State, steps: seq<Step>)
    requires Inv(st) && Legal(st, steps)
    ensures Inv(Run(st, steps))
    ensures CleanInv(st) && (forall i :: 0 <= i < |steps| ==> Clean(steps[i])) ==> CleanInv(Run(st, steps))
    decreases |steps|
  {
    if steps != [] {
      RunKeeps(Next(st, steps[0]), steps[1..]);
    }
  }

  /** The deliveries answered 202. */
  ghost function AcceptedOnes(st: State): set<nat> {
    set d | d in st.deliveries && st.deliveries[d].Accepted?
  }

  ghost predicate Quiescent(st: State) {
    forall d :: d in st.deliveries ==> !Active(st.deliveries[d])
  }

  lemma AtMostOneAccepted(st: State)
    requires Inv(st)
    ensures |AcceptedOnes(st)| <= 1
    ensures AcceptedOnes(st) != {} ==> st.holder.Some? && AcceptedOnes(st) == {st.holder.value}
  {
    if AcceptedOnes(st) != {} {
      var d :| d in AcceptedOnes(st);
      assert AcceptedOnes(st) == {d};
    }
  }

  /** Exactly once, over every interleaving of clean deliveries: 202 answers <= events <= 1, an id is
      recorded only while claimed or once published, and at rest it is recorded exactly if its event
      was published, which is exactly if some delivery was answered 202. */
  lemma ExactlyOnce(steps: seq<Step>)
    requires Legal(Initial(), steps) && forall i :: 0 <= i < |steps| ==> Clean(steps[i])
    ensures var st := Run(Initial(), steps);
      && |AcceptedOnes(st)| <= st.published <= 1
      && (st.recorded ==> st.published == 1 || exists d :: d in st.deliveries && Active(st.deliveries[d]))
      && (Quiescent(st) ==> (st.recorded <==> st.published == 1) && (st.published == 1 <==> AcceptedOnes(st) != {}))
  {
    RunKeeps(Initial(), steps);
    var st := Run(Initial(), steps);
    AtMostOneAccepted(st);
    if st.holder.Some? && st.deliveries[st.holder.value].Accepted? {
      assert st.holder.value in AcceptedOnes(st);
    }
  }

  /** The same with claiming calls that may raise: an id is recorded at rest without its event, and every
      retry is answered duplicate, exactly if such a call raised after its row was in. */
  lemma ExactlyOnceUnlessClaimIsLost(steps: seq<Step>)
    requires Legal(Initial(), steps) && forall i :: 0 <= i < |steps| ==> Mild(steps[i])
    ensures var st := Run(Initial(), steps);
      && |AcceptedOnes(st)| <= st.published <= 1
      && (ClaimIsLost(steps) ==> st.recorded && st.published == 0)
      && (Quiescent(st) ==> ((st.recorded <==> st.published == 1) <==> !ClaimIsLost(steps)))
  {
    RunKeeps(Initial(), steps);
    MildRunKeeps(Initial(), steps, false);
    AtMostOneAccepted(Run(Initial(), steps));
  }

  /** One such call. */
  lemma LostClaimIsStuck()
    ensures exists st :: Reachable(st, false) && Quiescent(st) && st.recorded && st.published == 0
                           && st.deliveries == map[1 := Errored(false, false)]
  {
    assert Legal(Initial(), []) && Run(Initial(), []) == Initial();
    var st := Then(Initial(), LoseClaim(1), false);
    assert st == State(true, 0, map[1 := Errored(false, false)], Some(1), 0);
  }

  /** The deliveries whose event is on the bus, whatever they were answered. */
  ghost function PublishedOnes(st: State): set<nat> {
    set d | d in st.deliveries && HasPublished(st.deliveries[d])
  }

  lemma PublishedOnesStep(st: State, step: Step)
    requires Enabled(st, step)
    ensures PublishedOnes(Next(st, step)) == PublishedOnes(st) + if step.Publish? then {step.d} else {}
    ensures step.Publish? ==> step.d !in PublishedOnes(st)
  {
  }

  /** Every event is one delivery's own. */
  lemma {:induction false} EventsAreCounted(st: State, steps: seq<Step>)
    requires Legal(st, steps) && st.published == |PublishedOnes(st)|
    ensures Run(st, steps).published == |PublishedOnes(Run(st, steps))|
    decreases |steps|
  {
    if steps != [] {
      PublishedOnesStep(st, steps[0]);
      EventsAreCounted(Next(st, steps[0]), steps[1..]);
    }
  }

  /** A delivery over before its event was published that kept the id: cancelled, or not forgotten, or one
      whose claiming call raised. */
  predicate Stuck(phase: Phase) {
    phase == Cancelled(false) || phase == Errored(false, false)
  }

  /** A delivery whose event went through although it was answered an error and its id released. */
  predicate Released(phase: Phase) {
    phase == Errored(true, true)
  }

  lemma TwoMembers(s: set<nat>) returns (a: nat, b: nat)
    requires |s| >= 2
    ensures a in s && b in s && a != b
  {
    a :| a in s;
    assert |s - {a}| == |s| - 1;
    b :| b in s - {a};
  }

  lemma AtLeastTwo(s: set<nat>, a: nat, b: nat)
    requires a in s && b in s && a != b
    ensures |s| >= 2
  {
    assert s == {a, b} + (s - {a, b});
  }

  /** In any run at all, whatever is lost, fails or is cancelled: there is one event for each delivery that
      published, 202 answers never outnumber them, and there is a second event exactly if a released
      delivery had published and another one did. At rest the id is recorded without the event of its
      claim exactly if some delivery is stuck, and an event is on the bus with no id recorded exactly if a
      released delivery left it there. */
  lemma WhatErrorsCanDo(steps: seq<Step>)
    requires Legal(Initial(), steps)
    ensures var st := Run(Initial(), steps);
      && |AcceptedOnes(st)| <= 1 && |AcceptedOnes(st)| <= st.published <= 1 + st.repeats
      && st.published == |PublishedOnes(st)|
      && (st.published >= 2 <==> Repeated(st))
      && st.repeats <= st.published && (!st.recorded ==> st.published == st.repeats)
    ensures var st := Run(Initial(), steps);
      Quiescent(st) ==>
        && (st.recorded && st.published == st.repeats <==> exists d :: d in st.deliveries && Stuck(st.deliveries[d]))
        && (!st.recorded && st.published > 0 <==>
              !st.recorded && exists d :: d in st.deliveries && Released(st.deliveries[d]))
  {
    RunKeeps(Initial(), steps);
    var st := Run(Initial(), steps);
    AtMostOneAccepted(st);
    EventsAreCounted(Initial(), steps);
    SecondEvent(st);
    if Quiescent(st) {
      AtRest(st);
    }
  }

  /** A released delivery that had published, and another that did. */
  ghost predicate Repeated(st: State) {
    exists d, other :: d in st.deliveries && other in st.deliveries && d != other
                       && Released(st.deliveries[d]) && HasPublished(st.deliveries[other])
  }

  lemma SecondEvent(st: State)
    requires Inv(st) && st.published == |PublishedOnes(st)|
    ensures st.published >= 2 <==> Repeated(st)
  {
    if st.published >= 2 {
      var a, b := TwoMembers(PublishedOnes(st));
      OneIsReleased(st, a, b);
    }
    if Repeated(st) {
      var d, other :| d in st.deliveries && other in st.deliveries && d != other
                      && Released(st.deliveries[d]) && HasPublished(st.deliveries[other]);
      AtLeastTwo(PublishedOnes(st), d, other);
    }
  }

  lemma OneIsReleased(st: State, a: nat, b: nat)
    requires Inv(st) && a in PublishedOnes(st) && b in PublishedOnes(st) && a != b
    ensures Repeated(st)
  {
    assert Released(st.deliveries[a]) || Released(st.deliveries[b]);
  }

  lemma AtRest(st: State)
    requires Inv(st) && Quiescent(st) && st.published == |PublishedOnes(st)|
    ensures st.recorded && st.published == st.repeats <==> exists d :: d in st.deliveries && Stuck(st.deliveries[d])
    ensures !st.recorded && st.published > 0 <==>
              !st.recorded && exists d :: d in st.deliveries && Released(st.deliveries[d])
  {
    if st.recorded && st.published == st.repeats {
      assert Stuck(st.deliveries[st.holder.value]);
    }
    if !st.recorded && st.published > 0 {
      var d :| d in PublishedOnes(st);
      assert Released(st.deliveries[d]);
    }
    if d :| d in st.deliveries && Released(st.deliveries[d]) {
      assert d in PublishedOnes(st);
    }
  }

  /** A request cancelled between its claim and its publish: the id stays recorded and every later
      delivery is a duplicate of an event that never was. */
  lemma CancelledClaimIsStuck()
    ensures exists st :: Reachable(st, false) && Quiescent(st) && st.recorded && st.published == 0
  {
    var st := FirstClaims(false);
    st := Then(st, Cancel(1), false);
    assert Quiescent(st);
  }

  lemma FirstReplyIsLost() returns (st: State)
    ensures Reachable(st, false) && st == State(false, 1, map[1 := Errored(true, true)], None, 1)
  {
    st := FirstClaims(false);
    st := Then(st, Publish(1), false);
    assert st == State(true, 1, map[1 := Committed], Some(1), 0);
    st := Then(st, LoseReply(1), false);
    assert st == State(true, 1, map[1 := Failing(true)], Some(1), 0);
    st := Then(st, Forget(1), false);
  }

  /** A publish that commits and then raises: the id is released, and the provider's retry publishes again. */
  lemma LostReplyPublishesTwice()
    ensures exists st :: Reachable(st, false) && Quiescent(st) && st.published == 2
                           && st.deliveries == map[1 := Errored(true, true), 2 := Accepted]
  {
    var st := FirstReplyIsLost();
    st := Then(st, Deliver(2), false);
    assert st == State(true, 1, map[1 := Errored(true, true), 2 := Claimed], Some(2), 1);
    st := Then(st, Publish(2), false);
    assert st == State(true, 2, map[1 := Errored(true, true), 2 := Committed], Some(2), 1);
    st := Then(st, Return(2), false);
    assert st == State(true, 2, map[1 := Errored(true, true), 2 := Accepted], Some(2), 1);
  }

  /** A delivery is answered "duplicate" exactly when another one holds the id: it is still at work, or was
      answered 202, or is over and kept the id. In a clean run that means that the event is being published
      by another delivery or has been. */
  lemma DuplicateMeansClaimedOrPublished(steps: seq<Step>, d: nat)
    requires Legal(Initial(), steps) && d !in Run(Initial(), steps).deliveries
    ensures var st := Run(Initial(), steps);
      Next(st, Deliver(d)).deliveries[d].Duplicate? <==>
        exists other :: other in st.deliveries && Holds(st.deliveries[other])
    ensures var st := Run(Initial(), steps);
      (forall i :: 0 <= i < |steps| ==> Clean(steps[i])) ==>
        (Next(st, Deliver(d)).deliveries[d].Duplicate? <==>
           st.published == 1 || exists other :: other in st.deliveries && Active(st.deliveries[other]))
  {
    RunKeeps(Initial(), steps);
    var st := Run(Initial(), steps);
    if (forall i :: 0 <= i < |steps| ==> Clean(steps[i])) && st.holder.Some?
        && !Active(st.deliveries[st.holder.value]) {
      assert st.deliveries[st.holder.value].Accepted?;
    }
  }

  lemma ThreeSteps(st: State, a: Step, b: Step, c: Step)
    requires Enabled(st, a) && Enabled(Next(st, a), b) && Enabled(Next(Next(st, a), b), c)
    ensures Legal(st, [a, b, c]) && Run(st, [a, b, c]) == Next(Next(Next(st, a), b), c)
  {
    var last := Next(Next(Next(st, a), b), c);
    assert Legal(last, []) && Run(last, []) == last;
    assert [a, b, c][1..] == [b, c] && [b, c][1..] == [c] && [c][1..] == [];
    assert Legal(Next(Next(st, a), b), [c]) && Run(Next(Next(st, a), b), [c]) == last;
    assert Legal(Next(st, a), [b, c]) && Run(Next(st, a), [b, c]) == last;
  }

  /** Whatever happened before, once the id is not recorded a new delivery can be accepted: its event is then
      published and the id recorded. If its publish is refused the id is free again, and no event is added. */
  lemma RetryGetsThrough(st: State, d: nat)
    requires !st.recorded && d !in st.deliveries
    ensures var steps := [Deliver(d), Publish(d), Return(d)];
      && Legal(st, steps)
      && Run(st, steps).deliveries == st.deliveries[d := Accepted]
      && Run(st, steps).recorded && Run(st, steps).published == st.published + 1
    ensures var steps := [Deliver(d), Refuse(d), Forget(d)];
      && Legal(st, steps)
      && Run(st, steps).deliveries == st.deliveries[d := Errored(false, true)]
      && !Run(st, steps).recorded && Run(st, steps).published == st.published
  {
    ThreeSteps(st, Deliver(d), Publish(d), Return(d));
    ThreeSteps(st, Deliver(d), Refuse(d), Forget(d));
  }

  /** A call can come at any time, and lose its claim only if it made one; a delivery at work can be cancelled
      wherever it is, which changes neither the record nor the events. */
  lemma AnyCallCanBeCutOff(st: State, d: nat)
    ensures d !in st.deliveries ==> Enabled(st, Deliver(d)) && (Enabled(st, LoseClaim(d)) <==> !st.recorded)
    ensures d in st.deliveries ==>
              (Enabled(st, Cancel(d)) <==> st.deliveries[d] in {Claimed, Committed, Failing(true), Failing(false)})
    ensures Enabled(st, Cancel(d)) ==>
              && Next(st, Cancel(d)).recorded == st.recorded && Next(st, Cancel(d)).published == st.published
              && Next(st, Cancel(d)).deliveries[d].Cancelled?
  {
  }

  lemma SecondIsDuplicate() returns (st: State)
    ensures Reachable(st, true) && st == State(true, 0, map[1 := Claimed, 2 := Duplicate], Some(1), 0)
  {
    st := FirstClaims(true);
    st := Then(st, Deliver(2), true);
  }

  /** But a duplicate answer does not outlive the claim it saw: the first delivery can still fail, and
      then the id is answered 200 and nothing is published, until the provider sends it again. */
  lemma DuplicateIsNoPromise()
    ensures exists st :: Reachable(st, true) && Quiescent(st) && 2 in st.deliveries && st.deliveries[2].Duplicate?
                           && st.published == 0 && !st.recorded
  {
    var st := SecondIsDuplicate();
    st := Then(st, Refuse(1), true);
    assert st == State(true, 0, map[1 := Failing(false), 2 := Duplicate], Some(1), 0);
    st := Then(st, Forget(1), true);
    assert st == State(false, 0, map[1 := Errored(false, true), 2 := Duplicate], None, 0);
  }
}
