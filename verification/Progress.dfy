/** What a container and its subscribers come to when they are left to themselves. */
module Progress {
  import opened Logs
  import opened Database
  import opened Queues
  import opened BusProtocol
  import opened Delivery

  // Below, `== true` makes the verifier pass a predicate on as one fact instead of taking it apart.

  // ---- where streams and pumps start from ---------------------------------------

  /** `n` is the largest seq in the table, or zero if that is empty. */
  ghost predicate IsTableHead(db: Db, n: nat) {
    && (forall i :: 0 <= i < |db.log| && db.log[i].seqNo !in db.pruned ==> db.log[i].seqNo <= n)
    && (n == 0 || exists i :: 0 <= i < |db.log| && db.log[i].seqNo !in db.pruned && db.log[i].seqNo == n)
  }

  lemma TableHead(db: Db)
    requires DbInv(db)
    ensures IsTableHead(db, MaxSeq(db))
  {
    HeadCoversTable(db);
    var table := Table(db);
    KeepMembers(db.log, Alive(db.pruned));
    if table != [] {
      assert table[|table| - 1] in table;
    }
  }

  /** A pump starts from the newest row in the table. */
  lemma PumpStartsAtTheHead(cfg: Config, st: State, c: nat)
    requires Reachable(cfg, st) && c !in st.containers
    ensures Enabled(st, Start(c)) && c in Next(cfg, st, Start(c)).containers
    ensures var ct := Next(cfg, st, Start(c)).containers[c];
            IsTableHead(st.db, ct.cursor) && ct.batch == [] && !ct.closed
  {
    ReachableInv(cfg, st);
    TableHead(st.db);
  }

  lemma CursorIsLastSent(db: Db, ct: Container)
    requires SentInv(db, ct)
    ensures ct.cursor == if ct.sent != [] then ct.sent[|ct.sent| - 1].seqNo else ct.startCursor
  {
  }

  lemma ActIs(cfg: Config, st: State, s: nat, action: Action)
    requires s in st.subs && st.subs[s].container in st.containers && CanAct(st.subs[s], action)
    ensures Enabled(st, Act(s, action)) && Next(cfg, st, Act(s, action)) == ActState(cfg, st, s, action)
  {
  }

  lemma FactsOf(cfg: Config, st: State, s: nat)
    requires Inv(cfg, st) == true && s in st.subs
    ensures st.subs[s].container in st.containers
    ensures ContainerInv(st.db, st.containers[st.subs[s].container]) == true
    ensures SubInv(cfg, st.db, st.containers[st.subs[s].container], st.subs[s]) == true
    ensures DbInv(st.db) == true
  {
    assert SubOk(cfg, st, s);
  }

  /** A stream's head is the newest row in the table or, if that could not be read, the last row that the
      container's pump has dispatched, or where that pump started. */
  lemma HeadIsTableOrPump(cfg: Config, st: State, s: nat)
    requires Reachable(cfg, st) && s in st.subs && st.subs[s].phase.Registered?
    ensures st.subs[s].container in st.containers
    ensures Enabled(st, Act(s, ReadHead)) && Enabled(st, Act(s, HeadFailed))
    ensures IsTableHead(st.db, Next(cfg, st, Act(s, ReadHead)).subs[s].head)
    ensures var ct := st.containers[st.subs[s].container];
            Next(cfg, st, Act(s, HeadFailed)).subs[s].head
            == if ct.sent != [] then ct.sent[|ct.sent| - 1].seqNo else ct.startCursor
  {
    ReachableInv(cfg, st);
    FactsOf(cfg, st, s);
    TableHead(st.db);
    CursorIsLastSent(st.db, st.containers[st.subs[s].container]);
    ActIs(cfg, st, s, ReadHead);
    ActIs(cfg, st, s, HeadFailed);
  }

  lemma FetchIs(cfg: Config, st: State, c: nat)
    requires Open(st, c) && st.containers[c].batch == []
    ensures Enabled(st, Fetch(c)) && Next(cfg, st, Fetch(c)) == FetchState(st, c)
  {
  }

  lemma DispatchIs(cfg: Config, st: State, c: nat)
    requires Open(st, c) && st.containers[c].batch != []
    ensures Enabled(st, DispatchRow(c)) && Next(cfg, st, DispatchRow(c)) == DispatchState(cfg, st, c)
  {
  }

  lemma NextRows(db: Db, ct: Container)
    requires DbInv(db) && PumpInv(db, ct) && !ct.closed && ct.batch == []
    ensures var batch := FetchRows(db, ct.cursor, BATCH);
            && |batch| == (if |db.log| - ct.pos >= 500 then 500 else |db.log| - ct.pos)
            && batch == db.log[ct.pos..ct.pos + |batch|]
  {
    FetchIsNextRows(db, ct.cursor, ct.pos, BATCH);
  }

  /** A fetch reads the next 500 rows, or all there are. */
  lemma FetchReadsNext(cfg: Config, st: State, c: nat)
    requires Reachable(cfg, st) && Open(st, c) && st.containers[c].batch == []
    ensures Enabled(st, Fetch(c))
    ensures var ct := Next(cfg, st, Fetch(c)).containers[c];
            && ct.pos == st.containers[c].pos <= |st.db.log|
            && |ct.batch| == (if |st.db.log| - ct.pos >= 500 then 500 else |st.db.log| - ct.pos)
            && ct.batch == st.db.log[ct.pos..ct.pos + |ct.batch|]
  {
    ReachableInv(cfg, st);
    NextRows(st.db, st.containers[c]);
    FetchIs(cfg, st, c);
  }

  /** A consumer can leave at any time; its stream is then over and off its topic, and no other notices. */
  lemma LeavingIsAlwaysPossible(cfg: Config, st: State, s: nat)
    requires Reachable(cfg, st) && s in st.subs && !st.subs[s].phase.Ended?
    ensures Enabled(st, Act(s, Leave))
    ensures var next := Next(cfg, st, Act(s, Leave));
            && s in next.subs && next.subs == st.subs[s := next.subs[s]]
            && next.containers == st.containers && next.db == st.db
            && next.subs[s].phase.Ended? && !next.subs[s].registered
            && next.subs[s].delivered == st.subs[s].delivered
  {
    ReachableInv(cfg, st);
    FactsOf(cfg, st, s);
    ActIs(cfg, st, s, Leave);
  }

  // ---- catching up ------------------------------------------------------------------

  /** Which of its two queries fail. */
  datatype Luck = Luck(headFails: bool, replayFails: bool)

  /** A stream that is still on its topic, of an open container. */
  ghost predicate OnAir(st: State, s: nat) {
    s in st.subs && !st.subs[s].phase.Ended? && st.subs[s].registered && Open(st, st.subs[s].container)
  }

  /** The stream has nothing to do. */
  predicate Idle(sub: Sub) {
    sub.phase.Live? && sub.queue == []
  }

  /** What the stream does next. */
  function NextAction(sub: Sub, luck: Luck): Action
    requires !Idle(sub) && !sub.phase.Ended?
  {
    match sub.phase
    case Registered => if luck.headFails then HeadFailed else ReadHead
    case HeadKnown => if luck.replayFails && sub.last.Some? then ReplayFailed else ReadReplay
    case Replaying => if sub.shown < |sub.replayed| then YieldReplayed else GoLive
    case Live => Take
  }

  /** The next step of the stream, or its pump's when the stream has nothing to do. */
  ghost function Turn(st: State, s: nat, luck: Luck): Step
    requires OnAir(st, s)
  {
    var sub := st.subs[s];
    if !Idle(sub) then Act(s, NextAction(sub, luck))
    else if st.containers[sub.container].batch == [] then Fetch(sub.container)
    else DispatchRow(sub.container)
  }

  function Stage(phase: Phase): nat {
    match phase
    case Registered => 3
    case HeadKnown => 2
    case Replaying => 1
    case Live => 0
    case Ended => 0
  }

  /** What is left: stages, replay, rows for the pump, queue, and whether the pump must fetch. */
  datatype Rest = Rest(stages: nat, replay: int, rows: int, queue: nat, fetch: nat)

  function Left(n: nat, ct: Container, sub: Sub): Rest {
    Rest(Stage(sub.phase), |sub.replayed| - sub.shown, n - ct.pos, |sub.queue|, if ct.batch == [] then 1 else 0)
  }

  ghost function Remaining(st: State, s: nat): Rest
    requires OnAir(st, s)
  {
    Left(|st.db.log|, st.containers[st.subs[s].container], st.subs[s])
  }

  predicate Less(a: Rest, b: Rest) {
    a.stages < b.stages || (a.stages == b.stages &&
      (a.replay < b.replay || (a.replay == b.replay &&
        (a.rows < b.rows || (a.rows == b.rows &&
          (a.queue < b.queue || (a.queue == b.queue && a.fetch < b.fetch)))))))
  }

  predicate NotNegative(rest: Rest) {
    rest.replay >= 0 && rest.rows >= 0
  }

  /** What the stream is, was asked for and has found out does not change under it. */
  predicate SameStream(before: Sub, after: Sub) {
    && after.container == before.container && after.topic == before.topic && after.last == before.last
    && after.born == before.born && before.delivered <= after.delivered
    && (!before.phase.Registered? ==> after.head == before.head && after.headFromDb == before.headFromDb)
    && (!before.phase.Registered? && !before.phase.HeadKnown? ==>
          !after.phase.Registered? && !after.phase.HeadKnown? && after.replay == before.replay)
    && (before.phase.HeadKnown? ==> !after.phase.Registered?)
  }

  /** A query fails or not, as given. */
  predicate Answered(before: Sub, after: Sub, luck: Luck) {
    && (before.phase.Registered? ==> after.phase.HeadKnown? && after.headFromDb == !luck.headFails)
    && (before.phase.HeadKnown? ==>
          after.phase.Replaying? && (after.replay.Failed? <==> luck.replayFails && before.last.Some?))
  }

  /** What became of the queries of a stream from here on. */
  predicate AsGiven(before: Sub, after: Sub, luck: Luck) {
    && (before.phase.Registered? ==> after.headFromDb == !luck.headFails)
    && (before.phase.Registered? || before.phase.HeadKnown? ==>
          (after.replay.Failed? <==> luck.replayFails && before.last.Some?))
  }

  /** A turn leaves the stream on its topic, with less left to do. */
  predicate Helps(n: nat, ct: Container, sub: Sub, ct': Container, sub': Sub, luck: Luck) {
    && !sub'.phase.Ended? && sub'.registered && !ct'.closed && SameStream(sub, sub') && Answered(sub, sub', luck)
    && Less(Left(n, ct', sub'), Left(n, ct, sub))
  }

  lemma ActionHelps(cfg: Config, db: Db, ct: Container, sub: Sub, luck: Luck)
    requires StreamInv(sub) && AllItems(sub.queue)
    requires !Idle(sub) && !sub.phase.Ended? && sub.registered && !ct.closed
    ensures CanAct(sub, NextAction(sub, luck))
    ensures Helps(|db.log|, ct, sub, ct, AfterAction(cfg, db, ct, sub, NextAction(sub, luck)), luck) == true
  {
  }

  lemma FetchHelps(db: Db, ct: Container, sub: Sub, luck: Luck)
    requires DbInv(db) && PumpInv(db, ct) && !ct.closed && ct.batch == [] && ct.pos < |db.log|
    requires Idle(sub) && sub.registered
    ensures Helps(|db.log|, ct, sub, ct.(batch := FetchRows(db, ct.cursor, BATCH)), sub, luck) == true
  {
    NextRows(db, ct);
  }

  lemma DispatchHelps(cfg: Config, n: nat, ct: Container, sub: Sub, luck: Luck)
    requires !ct.closed && ct.batch != [] && Idle(sub) && sub.registered
    ensures Helps(n, ct, sub, AfterDispatch(ct), DispatchTo(cfg, sub, sub.container, ct.batch[0]), luck) == true
  {
  }

  ghost predicate TurnHelps(st: State, next: State, s: nat, luck: Luck) {
    && OnAir(st, s) && s in next.subs && next.subs[s].container in next.containers && next.db == st.db
    && Helps(|st.db.log|, st.containers[st.subs[s].container], st.subs[s],
             next.containers[next.subs[s].container], next.subs[s], luck) == true
  }

  lemma StreamTurn(cfg: Config, st: State, s: nat, luck: Luck)
    requires Inv(cfg, st) == true && OnAir(st, s) && !Idle(st.subs[s])
    ensures Enabled(st, Turn(st, s, luck)) && TurnHelps(st, Next(cfg, st, Turn(st, s, luck)), s, luck) == true
  {
    FactsOf(cfg, st, s);
    var sub, ct := st.subs[s], st.containers[st.subs[s].container];
    ActionHelps(cfg, st.db, ct, sub, luck);
    ActIs(cfg, st, s, NextAction(sub, luck));
  }

  lemma FetchTurn(cfg: Config, st: State, s: nat, luck: Luck)
    requires Inv(cfg, st) == true && OnAir(st, s) && Idle(st.subs[s])
    requires st.containers[st.subs[s].container].pos < |st.db.log|
    requires st.containers[st.subs[s].container].batch == []
    ensures TurnHelps(st, FetchState(st, st.subs[s].container), s, luck) == true
  {
    FactsOf(cfg, st, s);
    FetchHelps(st.db, st.containers[st.subs[s].container], st.subs[s], luck);
  }

  lemma DispatchTurn(cfg: Config, st: State, s: nat, luck: Luck)
    requires OnAir(st, s) && Idle(st.subs[s]) && st.containers[st.subs[s].container].batch != []
    ensures TurnHelps(st, DispatchState(cfg, st, st.subs[s].container), s, luck) == true
  {
    DispatchHelps(cfg, |st.db.log|, st.containers[st.subs[s].container], st.subs[s], luck);
  }

  lemma PumpTurn(cfg: Config, st: State, s: nat, luck: Luck)
    requires Inv(cfg, st) == true && OnAir(st, s) && Idle(st.subs[s])
    requires st.containers[st.subs[s].container].pos < |st.db.log|
    ensures Enabled(st, Turn(st, s, luck)) && TurnHelps(st, Next(cfg, st, Turn(st, s, luck)), s, luck) == true
  {
    var c := st.subs[s].container;
    if st.containers[c].batch == [] {
      FetchTurn(cfg, st, s, luck);
      FetchIs(cfg, st, c);
    } else {
      DispatchTurn(cfg, st, s, luck);
      DispatchIs(cfg, st, c);
    }
  }

  lemma LeftIsBounded(cfg: Config, st: State, s: nat)
    requires Inv(cfg, st) == true && OnAir(st, s)
    ensures NotNegative(Remaining(st, s))
  {
    FactsOf(cfg, st, s);
  }

  lemma EveryTurnHelps(cfg: Config, st: State, s: nat, luck: Luck)
    requires Inv(cfg, st) == true && OnAir(st, s) && !CaughtUp(st, s)
    ensures Enabled(st, Turn(st, s, luck)) && TurnHelps(st, Next(cfg, st, Turn(st, s, luck)), s, luck) == true
  {
    LeftIsBounded(cfg, st, s);
    if Idle(st.subs[s]) {
      PumpTurn(cfg, st, s, luck);
    } else {
      StreamTurn(cfg, st, s, luck);
    }
  }

  lemma KeepsOn(cfg: Config, st: State, step: Step)
    requires Inv(cfg, st) == true && Enabled(st, step)
    ensures Inv(cfg, Next(cfg, st, step)) == true
  {
    StepKeeps(cfg, st, step);
  }

  lemma LessAfter(st: State, next: State, s: nat, luck: Luck)
    requires TurnHelps(st, next, s, luck)
    ensures OnAir(next, s) && next.db == st.db && SameStream(st.subs[s], next.subs[s])
    ensures Answered(st.subs[s], next.subs[s], luck)
    ensures Less(Remaining(next, s), Remaining(st, s))
  {
  }

  /** The stream's own steps, and its pump's. */
  ghost predicate Own(steps: seq<Step>, s: nat, c: nat) {
    forall i :: 0 <= i < |steps| ==>
      steps[i] == Fetch(c) || steps[i] == DispatchRow(c) || (steps[i].Act? && steps[i].s == s)
  }

  /** The stream is up to date, and still the same stream of the same log; its queries went as given. */
  ghost predicate Arrived(st: State, end: State, s: nat, luck: Luck) {
    && end.db == st.db && s in st.subs && s in end.subs && CaughtUp(end, s)
    && SameStream(st.subs[s], end.subs[s]) && AsGiven(st.subs[s], end.subs[s], luck)
  }

  ghost predicate Brings(cfg: Config, st: State, s: nat, luck: Luck, steps: seq<Step>) {
    && s in st.subs && Legal(cfg, st, steps) && Own(steps, s, st.subs[s].container)
    && Arrived(st, Run(cfg, st, steps), s, luck) == true
  }

  lemma ArrivedFrom(st: State, next: State, end: State, s: nat, luck: Luck)
    requires s in st.subs && s in next.subs && next.db == st.db && SameStream(st.subs[s], next.subs[s])
    requires Answered(st.subs[s], next.subs[s], luck) && Arrived(next, end, s, luck)
    ensures Arrived(st, end, s, luck) == true
  {
  }

  lemma TurnIsOwn(st: State, s: nat, luck: Luck)
    requires OnAir(st, s)
    ensures Own([Turn(st, s, luck)], s, st.subs[s].container)
  {
  }

  lemma BringsFirst(cfg: Config, st: State, s: nat, luck: Luck, step: Step, rest: seq<Step>)
    requires s in st.subs && Enabled(st, step) && Own([step], s, st.subs[s].container)
    requires var next := Next(cfg, st, step);
             && next.db == st.db && s in next.subs && SameStream(st.subs[s], next.subs[s])
             && Answered(st.subs[s], next.subs[s], luck) && Brings(cfg, next, s, luck, rest) == true
    ensures Brings(cfg, st, s, luck, [step] + rest) == true
  {
    var next := Next(cfg, st, step);
    assert ([step] + rest)[1..] == rest;
    assert [step][0] == step;
    ArrivedFrom(st, next, Run(cfg, next, rest), s, luck);
  }

  lemma ArrivedAlready(cfg: Config, st: State, s: nat, luck: Luck)
    requires s in st.subs && CaughtUp(st, s)
    ensures Brings(cfg, st, s, luck, []) == true
  {
  }

  /** One turn, whatever is to be done. */
  lemma TakeTurn(cfg: Config, st: State, s: nat, luck: Luck) returns (step: Step, next: State)
    requires Inv(cfg, st) == true && OnAir(st, s) && !CaughtUp(st, s)
    ensures Inv(cfg, next) == true && OnAir(next, s)
    ensures Less(Remaining(next, s), Remaining(st, s)) && NotNegative(Remaining(st, s))
    ensures forall rest :: Brings(cfg, next, s, luck, rest) ==> Brings(cfg, st, s, luck, [step] + rest)
  {
    step := Turn(st, s, luck);
    EveryTurnHelps(cfg, st, s, luck);
    next := Next(cfg, st, step);
    KeepsOn(cfg, st, step);
    LeftIsBounded(cfg, st, s);
    LessAfter(st, next, s, luck);
    TurnIsOwn(st, s, luck);
    forall rest | Brings(cfg, next, s, luck, rest) ensures Brings(cfg, st, s, luck, [step] + rest) {
      BringsFirst(cfg, st, s, luck, step, rest);
    }
  }

  lemma {:induction false} TurnsBring(cfg: Config, st: State, s: nat, luck: Luck) returns (steps: seq<Step>)
    requires Inv(cfg, st) == true && OnAir(st, s)
    ensures Brings(cfg, st, s, luck, steps) == true
    decreases Remaining(st, s).stages, Remaining(st, s).replay, Remaining(st, s).rows, Remaining(st, s).queue,
              Remaining(st, s).fetch
  {
    if CaughtUp(st, s) {
      ArrivedAlready(cfg, st, s, luck);
      steps := [];
    } else {
      var step, next := TakeTurn(cfg, st, s, luck);
      var rest := TurnsBring(cfg, next, s, luck);
      steps := [step] + rest;
    }
  }

  lemma {:induction false} ReachableRun(cfg: Config, st: State, steps: seq<Step>)
    requires Reachable(cfg, st) && Legal(cfg, st, steps)
    ensures Reachable(cfg, Run(cfg, st, steps))
    decreases |steps|
  {
    if steps != [] {
      ReachableStep(cfg, st, steps[0]);
      ReachableRun(cfg, Next(cfg, st, steps[0]), steps[1..]);
    }
  }

  /** A stream that is on its topic of an open bus is never stuck and need not be dropped: from every reachable
      state, whichever of its queries fail, its own steps and its pump's bring it up to date with the log, for
      every queue size and with every other stream standing still. It has then been sent all it is due. */
  lemma EveryStreamCanCatchUp(cfg: Config, st: State, s: nat, luck: Luck) returns (steps: seq<Step>)
    requires Reachable(cfg, st) && OnAir(st, s)
    ensures Legal(cfg, st, steps) && Own(steps, s, st.subs[s].container)
    ensures var end := Run(cfg, st, steps);
            && end.db == st.db && s in end.subs && CaughtUp(end, s)
            && SameStream(st.subs[s], end.subs[s]) && AsGiven(st.subs[s], end.subs[s], luck)
            && end.subs[s].regPos <= |end.db.log|
            && end.subs[s].delivered == Expected(cfg, end.db, end.subs[s])
  {
    ReachableInv(cfg, st);
    steps := TurnsBring(cfg, st, s, luck);
    ReachableRun(cfg, st, steps);
    DeliveryIsPrefix(cfg, Run(cfg, st, steps), s);
  }

  // ---- the beginning and the end of a stream ------------------------------------------

  /** A stream can be opened on an open bus at any time: it starts on its topic with nothing queued or sent, and
      no other notices. */
  lemma StreamsStartOnAir(cfg: Config, st: State, s: nat, c: nat, topic: string, last: Option<int>)
    requires c in st.containers && !st.containers[c].closed && s !in st.subs
    ensures Enabled(st, Subscribe(s, c, topic, last))
    ensures var next := Next(cfg, st, Subscribe(s, c, topic, last));
            && OnAir(next, s) && next.subs == st.subs[s := next.subs[s]]
            && next.containers == st.containers && next.db == st.db
            && var sub := next.subs[s];
               && sub.container == c && sub.topic == topic && sub.last == last && sub.born == |st.db.log|
               && sub.phase.Registered? && sub.queue == [] && sub.delivered == []
  {
  }

  /** The stream has been closed and has not noticed yet. */
  predicate Marked(sub: Sub) {
    sub.queue == [Close] && !sub.phase.Ended?
  }

  /** The stream is over, and what it was to replay it has replayed. */
  predicate Finished(before: Sub, after: Sub) {
    && after.phase.Ended? && !after.registered && after.shown == |after.replayed|
    && before.delivered <= after.delivered
  }

  predicate Nears(before: Sub, after: Sub) {
    && Marked(after) && before.delivered <= after.delivered
    && (Stage(after.phase) < Stage(before.phase)
        || (after.phase == before.phase && |after.replayed| - after.shown < |before.replayed| - before.shown))
  }

  lemma MarkedActs(cfg: Config, db: Db, ct: Container, sub: Sub, luck: Luck)
    requires StreamInv(sub) && Marked(sub)
    ensures CanAct(sub, NextAction(sub, luck))
    ensures var next := AfterAction(cfg, db, ct, sub, NextAction(sub, luck));
            next.container == sub.container && if sub.phase.Live? then Finished(sub, next) else Nears(sub, next)
  {
  }

  ghost predicate Ends(cfg: Config, st: State, s: nat, steps: seq<Step>) {
    && s in st.subs && Legal(cfg, st, steps) && (forall i :: 0 <= i < |steps| ==> steps[i].Act? && steps[i].s == s)
    && var end := Run(cfg, st, steps); s in end.subs && Finished(st.subs[s], end.subs[s])
  }

  lemma EndsFirst(cfg: Config, st: State, s: nat, action: Action, rest: seq<Step>)
    requires s in st.subs && Enabled(st, Act(s, action)) && Ends(cfg, Next(cfg, st, Act(s, action)), s, rest) == true
    requires st.subs[s].delivered <= Next(cfg, st, Act(s, action)).subs[s].delivered
    ensures Ends(cfg, st, s, [Act(s, action)] + rest) == true
  {
    assert ([Act(s, action)] + rest)[1..] == rest;
  }

  lemma EndsNow(cfg: Config, st: State, s: nat, action: Action)
    requires s in st.subs && Enabled(st, Act(s, action)) && s in Next(cfg, st, Act(s, action)).subs
    requires Finished(st.subs[s], Next(cfg, st, Act(s, action)).subs[s])
    ensures Ends(cfg, st, s, [Act(s, action)]) == true
  {
    var next := Next(cfg, st, Act(s, action));
    assert [Act(s, action)][1..] == [];
    assert Legal(cfg, next, []) && Run(cfg, next, []) == next;
  }

  /** What a closed stream does next. */
  lemma MarkedTurn(cfg: Config, st: State, s: nat, luck: Luck) returns (action: Action, next: State)
    requires Inv(cfg, st) == true && s in st.subs && Marked(st.subs[s])
    ensures Inv(cfg, next) == true && s in next.subs && st.subs[s].shown <= |st.subs[s].replayed|
    ensures if st.subs[s].phase.Live? then Ends(cfg, st, s, [Act(s, action)])
            else
              && Nears(st.subs[s], next.subs[s])
              && forall rest :: Ends(cfg, next, s, rest) ==> Ends(cfg, st, s, [Act(s, action)] + rest)
  {
    FactsOf(cfg, st, s);
    var sub := st.subs[s];
    action := NextAction(sub, luck);
    MarkedActs(cfg, st.db, st.containers[sub.container], sub, luck);
    ActIs(cfg, st, s, action);
    next := Next(cfg, st, Act(s, action));
    KeepsOn(cfg, st, Act(s, action));
    if sub.phase.Live? {
      EndsNow(cfg, st, s, action);
    } else {
      forall rest | Ends(cfg, next, s, rest) ensures Ends(cfg, st, s, [Act(s, action)] + rest) {
        EndsFirst(cfg, st, s, action, rest);
      }
    }
  }

  /** A stream that was closed, for being slow or with its bus, ends by its own steps, even after its bus is
      gone: it yields the rest of its replay if it was still at that, takes the marker and is off its topic. */
  lemma {:induction false} ClosedStreamEnds(cfg: Config, st: State, s: nat, luck: Luck) returns (steps: seq<Step>)
    requires Inv(cfg, st) == true && s in st.subs && Marked(st.subs[s])
    ensures Ends(cfg, st, s, steps) == true
    decreases Stage(st.subs[s].phase), |st.subs[s].replayed| - st.subs[s].shown
  {
    var action, next := MarkedTurn(cfg, st, s, luck);
    if st.subs[s].phase.Live? {
      steps := [Act(s, action)];
    } else {
      var rest := ClosedStreamEnds(cfg, next, s, luck);
      steps := [Act(s, action)] + rest;
    }
  }
}
