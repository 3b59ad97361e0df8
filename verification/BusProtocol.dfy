/** PostgresEventBus as a protocol: any number of publishers, containers and subscribers around one
    database. Every await of the source is a point where any other step may come in between. */
module BusProtocol {
  import opened Logs
  import opened Database
  import opened Queues

  const BATCH: nat := 500

  datatype Config = Config(replaySize: nat, queueSize: int)

  /** One container's bus: `cursor` is the pump's field, `batch` the fetched rows it has still to
      dispatch. History: the pump is done with `log[..pos]`; it started from `startCursor` when the
      log had `startPos` rows, and has dispatched `sent` since. */
  datatype Container = Container(cursor: nat, batch: seq<Row>, closed: bool, pos: nat,
                                 startCursor: nat, startPos: nat, sent: seq<Row>)

  /** Where a `subscribe` generator is. */
  datatype Phase = Registered | HeadKnown | Replaying | Live | Ended

  /** What became of the replay query; `Served` remembers which rows had been pruned by then. */
  datatype Replay = NotYet | Skipped | Failed | Served(pruned: set<nat>)

  /** One `subscribe` call. `last` is the Last-Event-ID when it was given and is an integer; `head`
      is the source's `reg_seq`. History: at registration the log had `born` rows and the pump, which
      started at row `regStart`, was done with `regPos` and its cursor was `regCursor`; `taken` are the
      rows got from the queue, `delivered` the rows yielded. */
  datatype Sub = Sub(
    container: nat, topic: string, last: Option<int>,
    registered: bool, queue: seq<Slot>, phase: Phase, head: nat, replayed: seq<Row>, shown: nat,
    born: nat, regStart: nat, regPos: nat, regCursor: nat, headFromDb: bool,
    replay: Replay, taken: seq<Row>, delivered: seq<Row>)

  datatype State = State(db: Db, containers: map<nat, Container>, subs: map<nat, Sub>)

  /** What one `subscribe` generator does between two awaits. */
  datatype Action = ReadHead | HeadFailed | ReadReplay | ReplayFailed | YieldReplayed | GoLive | Take | Leave

  datatype Step =
    | Server(step: DbStep)
    | Start(c: nat)
    | CloseBus(c: nat)
    | Fetch(c: nat)
    | DispatchRow(c: nat)
    | Subscribe(s: nat, c: nat, topic: string, last: Option<int>)
    | Act(s: nat, action: Action)

  function Initial(): State {
    State(EmptyDb(), map[], map[])
  }

  ghost predicate Enabled(st: State, step: Step) {
    match step
    case Server(d) => DbEnabled(st.db, d, true) && (d.Prune? ==> OnlyFetchedRows(st, d.dead))
    case Start(c) => c !in st.containers
    case CloseBus(c) => Open(st, c)
    case Fetch(c) => Open(st, c) && st.containers[c].batch == []
    case DispatchRow(c) => Open(st, c) && st.containers[c].batch != []
    case Subscribe(s, c, _, _) => s !in st.subs && Open(st, c)
    case Act(s, action) =>
      s in st.subs && st.subs[s].container in st.containers && CanAct(st.subs[s], action)
  }

  predicate CanAct(sub: Sub, action: Action) {
    match action
    case ReadHead => sub.phase.Registered?
    case HeadFailed => sub.phase.Registered?
    case ReadReplay => sub.phase.HeadKnown?
    case ReplayFailed => sub.phase.HeadKnown? && sub.last.Some?
    case YieldReplayed => sub.phase.Replaying? && sub.shown < |sub.replayed|
    case GoLive => sub.phase.Replaying? && sub.shown == |sub.replayed|
    case Take => sub.phase.Live? && sub.queue != []
    case Leave => !sub.phase.Ended?
  }

  ghost predicate Open(st: State, c: nat) {
    c in st.containers && !st.containers[c].closed
  }

  /** The retention settings are generous enough: no open pump loses a row it has not fetched. */
  ghost predicate OnlyFetchedRows(st: State, dead: set<nat>) {
    forall c, i :: Open(st, c) && st.containers[c].pos + |st.containers[c].batch| <= i < |st.db.log|
      ==> st.db.log[i].seqNo !in dead
  }

  /** The state after `step`; a step that is not enabled does nothing. */
  ghost function Next(cfg: Config, st: State, step: Step): State {
    if !Enabled(st, step) then st else
    match step
    case Server(d) => st.(db := DbNext(st.db, d, true))
    case Start(c) => st.(containers := st.containers[c := Started(st.db)])
    case CloseBus(c) => CloseState(st, c)
    case Fetch(c) => FetchState(st, c)
    case DispatchRow(c) => DispatchState(cfg, st, c)
    case Subscribe(s, c, topic, last) => SubscribeState(st, s, c, topic, last)
    case Act(s, action) => ActState(cfg, st, s, action)
  }

  /** `close`: the pump stops and every local stream is ended. */
  function CloseState(st: State, c: nat): State
    requires c in st.containers
  {
    State(st.db, st.containers[c := st.containers[c].(closed := true)], map s | s in st.subs :: CloseIn(st.subs[s], c))
  }

  /** The pump reads the next rows; `batch` holds them until they are dispatched. */
  function FetchState(st: State, c: nat): State
    requires c in st.containers
  {
    var ct := st.containers[c];
    st.(containers := st.containers[c := ct.(batch := FetchRows(st.db, ct.cursor, BATCH))])
  }

  /** The pump hands one row to its local subscribers and moves its cursor. */
  function DispatchState(cfg: Config, st: State, c: nat): State
    requires c in st.containers && st.containers[c].batch != []
  {
    var ct := st.containers[c];
    State(st.db, st.containers[c := AfterDispatch(ct)],
          map s | s in st.subs :: DispatchTo(cfg, st.subs[s], c, ct.batch[0]))
  }

  /** A subscriber as it registers with the container `ct`. */
  function Fresh(db: Db, ct: Container, c: nat, topic: string, last: Option<int>): Sub {
    Sub(c, topic, last, true, [], Registered, 0, [], 0, |db.log|, ct.startPos, ct.pos, ct.cursor, false, NotYet, [], [])
  }

  /** A generator starts by registering on its topic. */
  function SubscribeState(st: State, s: nat, c: nat, topic: string, last: Option<int>): State
    requires c in st.containers
  {
    st.(subs := st.subs[s := Fresh(st.db, st.containers[c], c, topic, last)])
  }

  function ActState(cfg: Config, st: State, s: nat, action: Action): State
    requires s in st.subs && st.subs[s].container in st.containers && CanAct(st.subs[s], action)
  {
    st.(subs := st.subs[s := AfterAction(cfg, st.db, st.containers[st.subs[s].container], st.subs[s], action)])
  }

  function AfterAction(cfg: Config, db: Db, ct: Container, sub: Sub, action: Action): Sub
    requires CanAct(sub, action)
  {
    match action
    case ReadHead => sub.(phase := HeadKnown, head := MaxSeq(db), headFromDb := true)
    case HeadFailed => sub.(phase := HeadKnown, head := ct.cursor)
    case ReadReplay => AfterReplayQuery(cfg, db, sub)
    case ReplayFailed => sub.(phase := Replaying, replay := Failed)
    case YieldReplayed => sub.(shown := sub.shown + 1, delivered := sub.delivered + [sub.replayed[sub.shown]])
    case GoLive => sub.(phase := Live)
    case Take => AfterTake(sub)
    case Leave => sub.(phase := Ended, registered := false)
  }

  function Started(db: Db): Container {
    Container(MaxSeq(db), [], false, |db.log|, MaxSeq(db), |db.log|, [])
  }

  /** The loop of `_drain`: the cursor follows the row just dispatched. */
  function AfterDispatch(ct: Container): Container
    requires ct.batch != []
  {
    ct.(cursor := ct.batch[0].seqNo, batch := ct.batch[1..], pos := ct.pos + 1, sent := ct.sent + [ct.batch[0]])
  }

  /** `_dispatch`, for one subscriber: a full queue closes it and takes it off the topic. */
  function DispatchTo(cfg: Config, sub: Sub, c: nat, row: Row): Sub {
    if sub.container == c && sub.topic == row.topic then
      var port := Receive(Port(sub.queue, sub.registered), cfg.queueSize, row);
      sub.(queue := port.queue, registered := port.open)
    else sub
  }

  /** `close` ends the local streams but leaves them in the topic's set. */
  function CloseIn(sub: Sub, c: nat): Sub {
    if sub.container == c && sub.registered then sub.(queue := [Close]) else sub
  }

  function AfterReplayQuery(cfg: Config, db: Db, sub: Sub): Sub {
    match sub.last
    case None => sub.(phase := Replaying, replay := Skipped)
    case Some(last) =>
      sub.(phase := Replaying, replay := Served(db.pruned),
           replayed := ReplayRows(db, sub.topic, last, sub.head, cfg.replaySize))
  }

  /** One turn of the live loop: stop at the marker, skip what replay covered, yield the rest. */
  function AfterTake(sub: Sub): Sub
    requires sub.queue != []
  {
    match sub.queue[0]
    case Close => sub.(queue := sub.queue[1..], phase := Ended, registered := false)
    case Item(row) =>
      sub.(queue := sub.queue[1..], taken := sub.taken + [row],
           delivered := if row.seqNo <= sub.head then sub.delivered else sub.delivered + [row])
  }

  ghost predicate Legal(cfg: Config, st: State, steps: seq<Step>)
    decreases |steps|
  {
    steps == [] || (Enabled(st, steps[0]) && Legal(cfg, Next(cfg, st, steps[0]), steps[1..]))
  }

  ghost function Run(cfg: Config, st: State, steps: seq<Step>): State
    requires Legal(cfg, st, steps)
    decreases |steps|
  {
    if steps == [] then st else Run(cfg, Next(cfg, st, steps[0]), steps[1..])
  }

  // ---- what every step keeps ---------------------------------------------
  // Below, `== true` makes the verifier pass an invariant on as one fact instead of taking it apart.

  /** `from` and `cursor` separate a read part of the log, pruned or at most the cursor, from an
      unread part above it. */
  ghost predicate Separates(db: Db, from: nat, cursor: nat) {
    && from <= |db.log| && cursor <= Top(db.log)
    && (forall i :: 0 <= i < from ==> db.log[i].seqNo in db.pruned || db.log[i].seqNo <= cursor)
    && (forall i :: from <= i < |db.log| ==> db.log[i].seqNo > cursor)
  }

  ghost predicate PumpInv(db: Db, ct: Container) {
    && ct.pos + |ct.batch| <= |db.log|
    && ct.batch == db.log[ct.pos..ct.pos + |ct.batch|]
    && Separates(db, ct.pos, ct.cursor)
    && (!ct.closed ==> forall i :: ct.pos + |ct.batch| <= i < |db.log| ==> db.log[i].seqNo !in db.pruned)
  }

  ghost predicate SentInv(db: Db, ct: Container) {
    && ct.startPos <= ct.pos <= |db.log|
    && ct.sent == db.log[ct.startPos..ct.pos]
    && ct.cursor == (if ct.pos > ct.startPos then db.log[ct.pos - 1].seqNo else ct.startCursor)
    && Separates(db, ct.startPos, ct.startCursor)
  }

  ghost predicate ContainerInv(db: Db, ct: Container) {
    PumpInv(db, ct) && SentInv(db, ct)
  }

  /** The topic rows the pump has dispatched since the subscriber registered. */
  ghost function Dispatched(db: Db, pos: nat, sub: Sub): seq<Row>
    requires sub.regPos <= pos <= |db.log|
  {
    Keep(db.log[sub.regPos..pos], OnTopic(sub.topic))
  }

  /** Taken and queued rows are what was dispatched, all of it while the stream is open. */
  ghost predicate QueueInv(db: Db, pos: nat, open: bool, sub: Sub) {
    && sub.regPos <= pos <= |db.log|
    && (sub.queue == [Close] || AllItems(sub.queue))
    && sub.taken + Rows(sub.queue) <= Dispatched(db, pos, sub)
    && (sub.registered && open ==>
          AllItems(sub.queue) && sub.taken + Rows(sub.queue) == Dispatched(db, pos, sub))
  }

  /** The rows yielded are the part of the replay shown and what was taken above the head. */
  ghost predicate StreamInv(sub: Sub) {
    && sub.shown <= |sub.replayed|
    && sub.delivered == sub.replayed[..sub.shown] + Keep(sub.taken, SeqAbove(sub.head))
    && (sub.taken != [] ==> sub.shown == |sub.replayed|)
    && (sub.phase.Registered? || sub.phase.HeadKnown? || sub.phase.Replaying? ==> sub.taken == [])
    && (sub.phase.Live? ==> sub.shown == |sub.replayed|)
    && (sub.phase.Registered? || sub.phase.HeadKnown? ==> sub.replay.NotYet?)
    && (sub.phase.Replaying? || sub.phase.Live? ==> !sub.replay.NotYet?)
    && (sub.replay.NotYet? || sub.replay.Failed? || sub.replay.Skipped? ==> sub.replayed == [])
    && (sub.replay.Skipped? <==> !sub.replay.NotYet? && sub.last.None?)
    && (sub.phase.Registered? ==> sub.head == 0 && !sub.headFromDb)
    && (sub.phase.Ended? ==> !sub.registered)
  }

  /** The cursor at registration separates what the pump had dispatched from what it had not. */
  ghost predicate RegInv(db: Db, sub: Sub) {
    && sub.regStart <= sub.regPos <= |db.log| && sub.regCursor <= Top(db.log)
    && (forall i :: sub.regStart <= i < sub.regPos ==> db.log[i].seqNo <= sub.regCursor)
    && (forall i :: sub.regPos <= i < |db.log| ==> db.log[i].seqNo > sub.regCursor)
  }

  /** The head lies inside the log; rows above it that the subscriber will not get were pruned. */
  ghost predicate HeadInv(cfg: Config, db: Db, sub: Sub) {
    && sub.regPos <= sub.born <= |db.log|
    && sub.head <= Top(db.log)
    && (sub.phase.HeadKnown? || !sub.replay.NotYet? ==>
          forall i :: 0 <= i < sub.regPos && db.log[i].seqNo > sub.head ==> db.log[i].seqNo in db.pruned)
    && (sub.headFromDb ==> forall i :: 0 <= i < sub.born && db.log[i].seqNo > sub.head ==> db.log[i].seqNo in db.pruned)
    && (sub.replay.Served? ==>
          && sub.last.Some? && sub.replay.pruned <= db.pruned
          && (forall i :: 0 <= i < sub.regPos && db.log[i].seqNo > sub.head ==> db.log[i].seqNo in sub.replay.pruned)
          && (sub.headFromDb ==> forall i :: 0 <= i < sub.born && db.log[i].seqNo > sub.head ==>
              db.log[i].seqNo in sub.replay.pruned)
          && sub.replayed == Newest(
               Keep(db.log, BetweenAlive(sub.topic, sub.last.value, sub.head, sub.replay.pruned)), cfg.replaySize))
  }

  ghost predicate SubInv(cfg: Config, db: Db, ct: Container, sub: Sub) {
    QueueInv(db, ct.pos, !ct.closed, sub) && StreamInv(sub) && HeadInv(cfg, db, sub) && RegInv(db, sub)
  }

  ghost predicate SubOk(cfg: Config, st: State, s: nat)
    requires s in st.subs
  {
    && st.subs[s].container in st.containers
    && SubInv(cfg, st.db, st.containers[st.subs[s].container], st.subs[s])
  }

  ghost predicate Inv(cfg: Config, st: State) {
    && DbInv(st.db)
    && (forall c :: c in st.containers ==> ContainerInv(st.db, st.containers[c]))
    && (forall s :: s in st.subs ==> SubOk(cfg, st, s))
  }

  lemma ServerKeepsContainer(db: Db, later: Db, ct: Container)
    requires DbInv(db) && DbInv(later) && Extends(db, later) && ContainerInv(db, ct)
    requires !ct.closed ==> forall i :: ct.pos + |ct.batch| <= i < |later.log| ==> later.log[i].seqNo !in later.pruned
    ensures ContainerInv(later, ct)
  {
    assert later.log[ct.pos..ct.pos + |ct.batch|] == db.log[ct.pos..ct.pos + |ct.batch|];
    assert later.log[ct.startPos..ct.pos] == db.log[ct.startPos..ct.pos];
    ServerKeepsSeparation(db, later, ct.pos, ct.cursor);
    ServerKeepsSeparation(db, later, ct.startPos, ct.startCursor);
  }

  lemma ServerKeepsSeparation(db: Db, later: Db, from: nat, cursor: nat)
    requires DbInv(db) && DbInv(later) && Extends(db, later) && Separates(db, from, cursor)
    ensures Separates(later, from, cursor)
  {
    TopGrows(db, later);
  }

  lemma TopGrows(db: Db, later: Db)
    requires DbInv(later) && Extends(db, later)
    ensures Top(db.log) <= Top(later.log)
    ensures forall i :: 0 <= i < |db.log| ==> later.log[i] == db.log[i]
  {
    if db.log != [] { assert later.log[|db.log| - 1] == db.log[|db.log| - 1]; }
  }

  lemma ServerKeepsQueue(db: Db, later: Db, pos: nat, open: bool, sub: Sub)
    requires Extends(db, later) && pos <= |db.log| && QueueInv(db, pos, open, sub)
    ensures QueueInv(later, pos, open, sub)
  {
    assert later.log[sub.regPos..pos] == db.log[sub.regPos..pos];
  }

  lemma ServerKeepsHead(cfg: Config, db: Db, later: Db, sub: Sub)
    requires DbInv(later) && Extends(db, later) && HeadInv(cfg, db, sub)
    ensures HeadInv(cfg, later, sub)
  {
    TopGrows(db, later);
    if sub.replay.Served? {
      WindowIsFixed(db, later, sub.topic, sub.last.value, sub.head, sub.replay.pruned);
    }
  }

  lemma ServerKeepsReg(db: Db, later: Db, sub: Sub)
    requires DbInv(later) && Extends(db, later) && RegInv(db, sub)
    ensures RegInv(later, sub)
  {
    TopGrows(db, later);
  }

  lemma ServerKeepsSub(cfg: Config, db: Db, later: Db, ct: Container, sub: Sub)
    requires DbInv(later) && Extends(db, later) && SubInv(cfg, db, ct, sub) == true
    ensures SubInv(cfg, later, ct, sub) == true
  {
    ServerKeepsQueue(db, later, ct.pos, !ct.closed, sub);
    ServerKeepsHead(cfg, db, later, sub);
    ServerKeepsReg(db, later, sub);
  }

  /** Rows that commit later lie above the head, so the replay window never changes. */
  lemma WindowIsFixed(db: Db, later: Db, topic: string, last: int, head: nat, pruned: set<nat>)
    requires Extends(db, later) && head <= Top(db.log)
    ensures Keep(later.log, BetweenAlive(topic, last, head, pruned))
            == Keep(db.log, BetweenAlive(topic, last, head, pruned))
  {
    var p := BetweenAlive(topic, last, head, pruned);
    assert later.log == db.log + later.log[|db.log|..];
    KeepConcat(db.log, later.log[|db.log|..], p);
    KeepNone(later.log[|db.log|..], p);
  }

  lemma FetchKeeps(db: Db, ct: Container)
    requires DbInv(db) && PumpInv(db, ct) && !ct.closed && ct.batch == []
    ensures PumpInv(db, ct.(batch := FetchRows(db, ct.cursor, BATCH)))
  {
    FetchIsNextRows(db, ct.cursor, ct.pos, BATCH);
  }

  lemma StartKeeps(db: Db)
    requires DbInv(db)
    ensures ContainerInv(db, Started(db))
  {
    HeadCoversTable(db);
  }

  lemma DispatchKeepsPump(db: Db, ct: Container)
    requires DbInv(db) && PumpInv(db, ct) && !ct.closed && ct.batch != []
    ensures ct.batch[0] == db.log[ct.pos]
    ensures PumpInv(db, AfterDispatch(ct))
  {
    assert db.log[ct.pos] == ct.batch[0];
    assert db.log[ct.pos + 1..ct.pos + |ct.batch|] == ct.batch[1..];
  }

  lemma DispatchKeepsSent(db: Db, ct: Container)
    requires SentInv(db, ct) && ct.batch != [] && ct.pos < |db.log| && ct.batch[0] == db.log[ct.pos]
    ensures SentInv(db, AfterDispatch(ct))
  {
    assert db.log[ct.startPos..ct.pos + 1] == db.log[ct.startPos..ct.pos] + [db.log[ct.pos]];
  }

  lemma DispatchedGrows(db: Db, pos: nat, sub: Sub)
    requires sub.regPos <= pos < |db.log|
    ensures Dispatched(db, pos + 1, sub)
         == Dispatched(db, pos, sub) + if db.log[pos].topic == sub.topic then [db.log[pos]] else []
  {
    var grown := db.log[sub.regPos..pos + 1];
    assert grown[..|grown| - 1] == db.log[sub.regPos..pos];
  }

  /** Taken and queued rows are a prefix of what was dispatched, and all of it at an open port. */
  ghost predicate PortInv(taken: seq<Row>, port: Port, dispatched: seq<Row>) {
    && (port.queue == [Close] || AllItems(port.queue))
    && taken + Rows(port.queue) <= dispatched
    && (port.open ==> AllItems(port.queue) && taken + Rows(port.queue) == dispatched)
  }

  lemma ReceiveKeepsPort(taken: seq<Row>, port: Port, maxsize: int, dispatched: seq<Row>, row: Row)
    requires PortInv(taken, port, dispatched)
    ensures PortInv(taken, Receive(port, maxsize, row), dispatched + [row]) == true
  {
    if port.open && Full(port.queue, maxsize) {
      assert Rows([Close]) == [];
      assert taken + [] == taken;
      assert taken <= dispatched;
    } else if port.open {
      RowsAppend(port.queue, row);
      assert taken + (Rows(port.queue) + [row]) == (taken + Rows(port.queue)) + [row];
    }
  }

  lemma DispatchKeepsQueue(cfg: Config, db: Db, pos: nat, c: nat, sub: Sub)
    requires QueueInv(db, pos, true, sub) && sub.container == c && pos < |db.log|
    ensures QueueInv(db, pos + 1, true, DispatchTo(cfg, sub, c, db.log[pos]))
  {
    var row := db.log[pos];
    DispatchedGrows(db, pos, sub);
    var before := Dispatched(db, pos, sub);
    assert PortInv(sub.taken, Port(sub.queue, sub.registered), before);
    if sub.topic == row.topic {
      ReceiveKeepsPort(sub.taken, Port(sub.queue, sub.registered), cfg.queueSize, before, row);
    }
  }

  lemma TakeKeepsQueue(db: Db, pos: nat, open: bool, sub: Sub)
    requires QueueInv(db, pos, open, sub) && sub.queue != []
    ensures QueueInv(db, pos, open, AfterTake(sub))
  {
    match sub.queue[0]
    case Close =>
      assert sub.queue[1..] == [];
      assert Rows([Close]) == Rows([]);
    case Item(row) =>
      RowsHead(sub.queue);
      assert sub.taken + ([row] + Rows(sub.queue[1..])) == (sub.taken + [row]) + Rows(sub.queue[1..]);
  }

  lemma TakeKeepsStream(sub: Sub)
    requires StreamInv(sub) && sub.phase.Live? && sub.queue != []
    ensures StreamInv(AfterTake(sub))
  {
    match sub.queue[0]
    case Close =>
    case Item(row) =>
      var shown, live := sub.replayed[..sub.shown], Keep(sub.taken, SeqAbove(sub.head));
      assert (sub.taken + [row])[..|sub.taken|] == sub.taken;
      assert shown + (live + [row]) == (shown + live) + [row];
  }

  lemma HeadKnownKeeps(cfg: Config, db: Db, ct: Container, sub: Sub, head: nat, fromDb: bool)
    requires SubInv(cfg, db, ct, sub) && sub.phase.Registered?
    requires head <= Top(db.log)
    requires forall i :: 0 <= i < sub.regPos && db.log[i].seqNo > head ==> db.log[i].seqNo in db.pruned
    requires fromDb ==> forall i :: 0 <= i < |db.log| && db.log[i].seqNo > head ==> db.log[i].seqNo in db.pruned
    ensures SubInv(cfg, db, ct, sub.(phase := HeadKnown, head := head, headFromDb := fromDb))
  {}

  lemma ReplayKeeps(cfg: Config, db: Db, ct: Container, sub: Sub)
    requires SubInv(cfg, db, ct, sub) && sub.phase.HeadKnown?
    ensures SubInv(cfg, db, ct, AfterReplayQuery(cfg, db, sub))
  {
    if sub.last.Some? {
      ReplayIsNewest(db, sub.topic, sub.last.value, sub.head, cfg.replaySize);
    }
  }

  lemma TakeKeeps(cfg: Config, db: Db, ct: Container, sub: Sub)
    requires SubInv(cfg, db, ct, sub) && sub.phase.Live? && sub.queue != []
    ensures SubInv(cfg, db, ct, AfterTake(sub))
  {
    TakeKeepsQueue(db, ct.pos, !ct.closed, sub);
    TakeKeepsStream(sub);
  }

  predicate Quiet(action: Action) {
    action.ReplayFailed? || action.YieldReplayed? || action.GoLive? || action.Leave?
  }

  lemma QuietActionKeepsStream(cfg: Config, db: Db, ct: Container, sub: Sub, action: Action)
    requires StreamInv(sub) && CanAct(sub, action) && Quiet(action)
    ensures StreamInv(AfterAction(cfg, db, ct, sub, action)) == true
  {}

  lemma QuietActionKeepsHead(cfg: Config, db: Db, ct: Container, sub: Sub, action: Action)
    requires HeadInv(cfg, db, sub) && RegInv(db, sub) && StreamInv(sub) && CanAct(sub, action) && Quiet(action)
    ensures HeadInv(cfg, db, AfterAction(cfg, db, ct, sub, action)) == true
    ensures RegInv(db, AfterAction(cfg, db, ct, sub, action)) == true
  {}

  lemma QuietActionKeeps(cfg: Config, db: Db, ct: Container, sub: Sub, action: Action)
    requires SubInv(cfg, db, ct, sub) == true && CanAct(sub, action) && Quiet(action)
    ensures SubInv(cfg, db, ct, AfterAction(cfg, db, ct, sub, action)) == true
  {
    QuietActionKeepsStream(cfg, db, ct, sub, action);
    QuietActionKeepsHead(cfg, db, ct, sub, action);
  }

  lemma ActionKeeps(cfg: Config, db: Db, ct: Container, sub: Sub, action: Action)
    requires DbInv(db) && ContainerInv(db, ct) && SubInv(cfg, db, ct, sub) && CanAct(sub, action)
    ensures SubInv(cfg, db, ct, AfterAction(cfg, db, ct, sub, action)) == true
    ensures AfterAction(cfg, db, ct, sub, action).container == sub.container
  {
    match action
    case ReadHead =>
      HeadCoversTable(db);
      HeadKnownKeeps(cfg, db, ct, sub, MaxSeq(db), true);
    case HeadFailed => HeadKnownKeeps(cfg, db, ct, sub, ct.cursor, false);
    case ReadReplay => ReplayKeeps(cfg, db, ct, sub);
    case Take => TakeKeeps(cfg, db, ct, sub);
    case _ => QuietActionKeeps(cfg, db, ct, sub, action);
  }

  lemma ServerKeepsOne(cfg: Config, st: State, later: Db, s: nat)
    requires DbInv(st.db) && DbInv(later) && Extends(st.db, later) && s in st.subs && SubOk(cfg, st, s) == true
    ensures SubOk(cfg, st.(db := later), s) == true
  {
    ServerKeepsSub(cfg, st.db, later, st.containers[st.subs[s].container], st.subs[s]);
  }

  lemma InvFrom(cfg: Config, st: State)
    requires DbInv(st.db) && (forall c :: c in st.containers ==> ContainerInv(st.db, st.containers[c]) == true)
    requires forall s :: s in st.subs ==> SubOk(cfg, st, s) == true
    ensures Inv(cfg, st) == true
  {}

  lemma ServerStepKeeps(cfg: Config, st: State, d: DbStep)
    requires Inv(cfg, st) && DbEnabled(st.db, d, true) && (d.Prune? ==> OnlyFetchedRows(st, d.dead))
    ensures Inv(cfg, st.(db := DbNext(st.db, d, true))) == true
  {
    var later := DbNext(st.db, d, true);
    DbStepKeeps(st.db, d);
    forall c | c in st.containers ensures ContainerInv(later, st.containers[c]) == true {
      ServerKeepsContainer(st.db, later, st.containers[c]);
    }
    forall s | s in st.subs ensures SubOk(cfg, st.(db := later), s) == true {
      ServerKeepsOne(cfg, st, later, s);
    }
    InvFrom(cfg, st.(db := later));
  }

  /** Dispatching and closing touch a subscriber's queue and registration only. */
  lemma QueueChange(cfg: Config, db: Db, ct: Container, next: Container, sub: Sub, queue: seq<Slot>, registered: bool)
    requires SubInv(cfg, db, ct, sub) && (registered ==> sub.registered)
    requires QueueInv(db, next.pos, !next.closed, sub.(queue := queue, registered := registered))
    ensures SubInv(cfg, db, next, sub.(queue := queue, registered := registered)) == true
  {}

  lemma DispatchKeepsSub(cfg: Config, db: Db, ct: Container, next: Container, c: nat, sub: Sub)
    requires SubInv(cfg, db, ct, sub) == true && sub.container == c && !ct.closed && !next.closed
    requires ct.pos < |db.log| && next.pos == ct.pos + 1
    ensures SubInv(cfg, db, next, DispatchTo(cfg, sub, c, db.log[ct.pos])) == true
  {
    var sub' := DispatchTo(cfg, sub, c, db.log[ct.pos]);
    DispatchKeepsQueue(cfg, db, ct.pos, c, sub);
    QueueChange(cfg, db, ct, next, sub, sub'.queue, sub'.registered);
  }

  lemma DispatchKeepsContainer(cfg: Config, st: State, c: nat)
    requires Inv(cfg, st) && Open(st, c) && st.containers[c].batch != []
    ensures st.containers[c].pos < |st.db.log| && st.containers[c].batch[0] == st.db.log[st.containers[c].pos]
    ensures ContainerInv(st.db, AfterDispatch(st.containers[c]))
  {
    DispatchKeepsPump(st.db, st.containers[c]);
    DispatchKeepsSent(st.db, st.containers[c]);
  }

  lemma DispatchKeepsOne(cfg: Config, st: State, c: nat, s: nat)
    requires Open(st, c) && st.containers[c].batch != [] && s in st.subs && SubOk(cfg, st, s) == true
    requires st.containers[c].pos < |st.db.log| && st.containers[c].batch[0] == st.db.log[st.containers[c].pos]
    ensures SubOk(cfg, DispatchState(cfg, st, c), s) == true
  {
    if st.subs[s].container == c {
      DispatchKeepsSub(cfg, st.db, st.containers[c], AfterDispatch(st.containers[c]), c, st.subs[s]);
    }
  }

  lemma DispatchStepKeeps(cfg: Config, st: State, c: nat)
    requires Inv(cfg, st) == true && Open(st, c) && st.containers[c].batch != []
    ensures Inv(cfg, DispatchState(cfg, st, c)) == true
  {
    DispatchKeepsContainer(cfg, st, c);
    forall s | s in st.subs ensures SubOk(cfg, DispatchState(cfg, st, c), s) == true {
      DispatchKeepsOne(cfg, st, c, s);
    }
    OneContainerChanges(cfg, st, c, DispatchState(cfg, st, c));
  }

  /** A step of one container, with what it does to the local subscribers. */
  lemma OneContainerChanges(cfg: Config, st: State, c: nat, next: State)
    requires Inv(cfg, st) == true && c in next.containers && next.db == st.db
    requires next.containers == st.containers[c := next.containers[c]]
    requires ContainerInv(st.db, next.containers[c]) == true
    requires forall s :: s in next.subs ==> SubOk(cfg, next, s) == true
    ensures Inv(cfg, next) == true
  {}

  lemma CloseKeepsContainer(db: Db, ct: Container)
    requires ContainerInv(db, ct) == true
    ensures ContainerInv(db, ct.(closed := true)) == true
  {}

  lemma CloseKeepsSub(cfg: Config, db: Db, ct: Container, c: nat, sub: Sub)
    requires SubInv(cfg, db, ct, sub) == true && sub.container == c
    ensures SubInv(cfg, db, ct.(closed := true), CloseIn(sub, c)) == true
  {
    assert Rows([Close]) == [];
    QueueChange(cfg, db, ct, ct.(closed := true), sub, CloseIn(sub, c).queue, sub.registered);
  }

  lemma CloseKeepsOne(cfg: Config, st: State, c: nat, s: nat)
    requires Open(st, c) && s in st.subs && SubOk(cfg, st, s) == true
    ensures SubOk(cfg, CloseState(st, c), s) == true
  {
    if st.subs[s].container == c {
      CloseKeepsSub(cfg, st.db, st.containers[c], c, st.subs[s]);
    }
  }

  lemma CloseStepKeeps(cfg: Config, st: State, c: nat)
    requires Inv(cfg, st) == true && Open(st, c)
    ensures Inv(cfg, CloseState(st, c)) == true
  {
    CloseKeepsContainer(st.db, st.containers[c]);
    forall s | s in st.subs ensures SubOk(cfg, CloseState(st, c), s) == true {
      CloseKeepsOne(cfg, st, c, s);
    }
    OneContainerChanges(cfg, st, c, CloseState(st, c));
  }

  lemma SamePlace(cfg: Config, db: Db, ct: Container, next: Container, sub: Sub)
    requires SubInv(cfg, db, ct, sub) == true && next.pos == ct.pos && next.closed == ct.closed
    ensures SubInv(cfg, db, next, sub) == true
  {}

  /** A container may change in any way that keeps its position and whether it is open. */
  lemma ContainerChange(cfg: Config, st: State, c: nat, ct: Container)
    requires Inv(cfg, st) == true && ContainerInv(st.db, ct) == true
    requires c in st.containers ==> ct.pos == st.containers[c].pos && ct.closed == st.containers[c].closed
    ensures Inv(cfg, st.(containers := st.containers[c := ct])) == true
  {
    var next := st.(containers := st.containers[c := ct]);
    forall s | s in next.subs ensures SubOk(cfg, next, s) == true {
      OtherContainerChanges(cfg, st, c, ct, s);
    }
    OneContainerChanges(cfg, st, c, next);
  }

  lemma OtherContainerChanges(cfg: Config, st: State, c: nat, ct: Container, s: nat)
    requires s in st.subs && SubOk(cfg, st, s) == true
    requires c in st.containers ==> ct.pos == st.containers[c].pos && ct.closed == st.containers[c].closed
    ensures SubOk(cfg, st.(containers := st.containers[c := ct]), s) == true
  {
    if st.subs[s].container == c {
      SamePlace(cfg, st.db, st.containers[c], ct, st.subs[s]);
    }
  }

  lemma SubChange(cfg: Config, st: State, s: nat, sub: Sub)
    requires Inv(cfg, st) && sub.container in st.containers
    requires SubInv(cfg, st.db, st.containers[sub.container], sub) == true
    ensures Inv(cfg, st.(subs := st.subs[s := sub])) == true
  {}

  lemma StartStepKeeps(cfg: Config, st: State, c: nat)
    requires Inv(cfg, st) == true && c !in st.containers
    ensures Inv(cfg, st.(containers := st.containers[c := Started(st.db)])) == true
  {
    StartKeeps(st.db);
    ContainerChange(cfg, st, c, Started(st.db));
  }

  lemma FetchKeepsContainer(db: Db, ct: Container)
    requires DbInv(db) && ContainerInv(db, ct) && !ct.closed && ct.batch == []
    ensures ContainerInv(db, ct.(batch := FetchRows(db, ct.cursor, BATCH))) == true
  {
    FetchKeeps(db, ct);
  }

  lemma FetchStepKeeps(cfg: Config, st: State, c: nat)
    requires Inv(cfg, st) == true && Open(st, c) && st.containers[c].batch == []
    ensures Inv(cfg, FetchState(st, c)) == true
  {
    FetchKeepsContainer(st.db, st.containers[c]);
    ContainerChange(cfg, st, c, FetchState(st, c).containers[c]);
  }

  lemma RegistersInOrder(db: Db, ct: Container, c: nat, topic: string, last: Option<int>)
    requires DbInv(db) && ContainerInv(db, ct)
    ensures RegInv(db, Fresh(db, ct, c, topic, last))
  {
  }

  lemma FreshKeeps(cfg: Config, db: Db, ct: Container, c: nat, topic: string, last: Option<int>)
    requires DbInv(db) && ContainerInv(db, ct) == true
    ensures SubInv(cfg, db, ct, Fresh(db, ct, c, topic, last)) == true
  {
    RegistersInOrder(db, ct, c, topic, last);
    assert Dispatched(db, ct.pos, Fresh(db, ct, c, topic, last)) == [];
  }

  lemma SubscribeStepKeeps(cfg: Config, st: State, s: nat, c: nat, topic: string, last: Option<int>)
    requires Inv(cfg, st) == true && Open(st, c) && s !in st.subs
    ensures Inv(cfg, SubscribeState(st, s, c, topic, last)) == true
  {
    FreshKeeps(cfg, st.db, st.containers[c], c, topic, last);
    SubChange(cfg, st, s, Fresh(st.db, st.containers[c], c, topic, last));
  }

  lemma ActStepKeeps(cfg: Config, st: State, s: nat, action: Action)
    requires Inv(cfg, st) == true && s in st.subs && st.subs[s].container in st.containers && CanAct(st.subs[s], action)
    ensures Inv(cfg, ActState(cfg, st, s, action)) == true
  {
    var sub := st.subs[s];
    var ct := st.containers[sub.container];
    assert SubOk(cfg, st, s);
    ActionKeeps(cfg, st.db, ct, sub, action);
    SubChange(cfg, st, s, AfterAction(cfg, st.db, ct, sub, action));
  }

  lemma StepKeeps(cfg: Config, st: State, step: Step)
    requires Inv(cfg, st) && Enabled(st, step)
    ensures Inv(cfg, Next(cfg, st, step))
  {
    match step
    case Server(d) => ServerStepKeeps(cfg, st, d);
    case Start(c) => StartStepKeeps(cfg, st, c);
    case CloseBus(c) => CloseStepKeeps(cfg, st, c);
    case Fetch(c) => FetchStepKeeps(cfg, st, c);
    case DispatchRow(c) => DispatchStepKeeps(cfg, st, c);
    case Subscribe(s, c, topic, last) => SubscribeStepKeeps(cfg, st, s, c, topic, last);
    case Act(s, action) => ActStepKeeps(cfg, st, s, action);
  }

  /** Every reachable state satisfies the invariant. */
  lemma {:induction false} RunKeeps(cfg: Config, st: State, steps: seq<Step>)
    requires Inv(cfg, st) && Legal(cfg, st, steps)
    ensures Inv(cfg, Run(cfg, st, steps))
    decreases |steps|
  {
    if steps != [] {
      StepKeeps(cfg, st, steps[0]);
      RunKeeps(cfg, Next(cfg, st, steps[0]), steps[1..]);
    }
  }

  ghost predicate Reachable(cfg: Config, st: State) {
    exists steps :: Legal(cfg, Initial(), steps) && Run(cfg, Initial(), steps) == st
  }

  lemma ReachableInv(cfg: Config, st: State)
    requires Reachable(cfg, st)
    ensures Inv(cfg, st)
  {
    var steps :| Legal(cfg, Initial(), steps) && Run(cfg, Initial(), steps) == st;
    assert Inv(cfg, Initial());
    RunKeeps(cfg, Initial(), steps);
  }

  lemma {:induction false} RunAppend(cfg: Config, st: State, steps: seq<Step>, step: Step)
    requires Legal(cfg, st, steps) && Enabled(Run(cfg, st, steps), step)
    ensures Legal(cfg, st, steps + [step]) && Run(cfg, st, steps + [step]) == Next(cfg, Run(cfg, st, steps), step)
    decreases |steps|
  {
    if steps == [] {
      assert [] + [step] == [step] && [step][1..] == [];
    } else {
      RunAppend(cfg, Next(cfg, st, steps[0]), steps[1..], step);
      assert (steps + [step])[1..] == steps[1..] + [step];
    }
  }

  lemma ReachableStep(cfg: Config, st: State, step: Step)
    requires Reachable(cfg, st) && Enabled(st, step)
    ensures Reachable(cfg, Next(cfg, st, step))
  {
    var steps :| Legal(cfg, Initial(), steps) && Run(cfg, Initial(), steps) == st;
    RunAppend(cfg, Initial(), steps, step);
  }
}
