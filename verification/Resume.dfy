/** Reconnecting with Last-Event-ID: when does a session carry on exactly where the client stopped? */
module Resume {
  import opened Logs
  import opened Database
  import opened Queues
  import opened BusProtocol
  import opened Delivery

  // Below, `== true` makes the verifier pass a predicate on as one fact instead of taking it apart.

  /** What a client that has seen everything up to `last` is still owed. */
  ghost function Owed(db: Db, topic: string, last: int): seq<Row> {
    Keep(db.log, After(topic, last))
  }

  /** The part of it that only replay can deliver. */
  ghost function Missed(db: Db, sub: Sub): seq<Row>
    requires sub.last.Some?
  {
    Keep(db.log, Between(sub.topic, sub.last.value, sub.head))
  }

  function Max(a: int, b: int): int {
    if a > b then a else b
  }

  /** The replay reaches back far enough: the missed window fits and had survived pruning, or it
      is empty. */
  ghost predicate WindowServed(cfg: Config, db: Db, sub: Sub)
    requires sub.last.Some?
  {
    if sub.replay.Served? then
      |Missed(db, sub)| <= cfg.replaySize && forall r :: r in Missed(db, sub) ==> r.seqNo !in sub.replay.pruned
    else Missed(db, sub) == []
  }

  /** The live part starts at the right row: the pump has no topic row left to dispatch that the
      client has already seen, and it dispatched none before registration that the client needs. */
  ghost predicate LiveAligned(db: Db, sub: Sub)
    requires sub.last.Some? && sub.regPos <= |db.log|
  {
    && (forall i :: sub.regPos <= i < |db.log| && db.log[i].topic == sub.topic && sub.head < db.log[i].seqNo ==>
          db.log[i].seqNo > sub.last.value)
    && (forall i :: 0 <= i < sub.regPos && db.log[i].topic == sub.topic ==>
          db.log[i].seqNo <= Max(sub.last.value, sub.head))
  }

  lemma FirstPart(a: seq<Row>, b: seq<Row>, h: int)
    requires (forall r :: r in a ==> r.seqNo <= h) && forall r :: r in b ==> r.seqNo > h
    ensures Keep(a + b, SeqUpTo(h)) == a
  {
    KeepConcat(a, b, SeqUpTo(h));
    KeepAll(a, SeqUpTo(h));
    KeepNone(b, SeqUpTo(h));
  }

  lemma UniqueSplit(a: seq<Row>, b: seq<Row>, c: seq<Row>, d: seq<Row>, h: int)
    requires forall r :: r in a || r in c ==> r.seqNo <= h
    requires forall r :: r in b || r in d ==> r.seqNo > h
    requires a + b == c + d
    ensures a == c && b == d
  {
    FirstPart(a, b, h);
    FirstPart(c, d, h);
    assert b == (a + b)[|a|..] && d == (c + d)[|c|..];
  }

  lemma WindowExact(cfg: Config, db: Db, sub: Sub)
    requires sub.last.Some?
    ensures ReplayPart(cfg, db, sub) == Missed(db, sub) <==> WindowServed(cfg, db, sub)
  {
    if sub.replay.Served? {
      var all := Between(sub.topic, sub.last.value, sub.head);
      var alive := BetweenAlive(sub.topic, sub.last.value, sub.head, sub.replay.pruned);
      KeepMembers(db.log, all);
      KeepMembers(db.log, alive);
      if WindowServed(cfg, db, sub) {
        forall i | 0 <= i < |db.log| ensures all(db.log[i]) == alive(db.log[i]) {
          assert db.log[i] in db.log;
        }
        KeepSame(db.log, all, alive);
      } else if ReplayPart(cfg, db, sub) == Missed(db, sub) {
        assert forall r :: r in Missed(db, sub) ==> r in Keep(db.log, alive);
        assert false;
      }
    }
  }

  lemma LiveExact(db: Db, sub: Sub)
    requires DbInv(db) && sub.last.Some? && sub.regPos <= |db.log|
    ensures LivePart(db, sub) == Owed(db, sub.topic, Max(sub.last.value, sub.head)) <==> LiveAligned(db, sub)
  {
    var m := Max(sub.last.value, sub.head);
    OwedSplits(db, sub, m);
    if LiveAligned(db, sub) {
      LateMatches(db, sub);
    }
    if LivePart(db, sub) == Owed(db, sub.topic, m) {
      EarlyIsEmpty(db, sub, m);
      LateAboveLast(db, sub, m);
    }
  }

  lemma OwedSplits(db: Db, sub: Sub, m: int)
    requires sub.regPos <= |db.log|
    ensures Owed(db, sub.topic, m)
         == Keep(db.log[..sub.regPos], After(sub.topic, m)) + Keep(db.log[sub.regPos..], After(sub.topic, m))
    ensures Keep(db.log[..sub.regPos], After(sub.topic, m)) == [] <==>
            forall i :: 0 <= i < sub.regPos && db.log[i].topic == sub.topic ==> db.log[i].seqNo <= m
  {
    var early, late := db.log[..sub.regPos], db.log[sub.regPos..];
    assert db.log == early + late;
    KeepConcat(early, late, After(sub.topic, m));
    KeepNone(early, After(sub.topic, m));
    assert forall i :: 0 <= i < sub.regPos ==> early[i] == db.log[i];
  }

  lemma LateMatches(db: Db, sub: Sub)
    requires sub.last.Some? && sub.regPos <= |db.log| && LiveAligned(db, sub)
    ensures Keep(db.log[sub.regPos..], After(sub.topic, Max(sub.last.value, sub.head))) == LivePart(db, sub)
  {
    KeepSame(db.log[sub.regPos..], After(sub.topic, Max(sub.last.value, sub.head)), After(sub.topic, sub.head));
  }

  lemma LateAboveLast(db: Db, sub: Sub, m: int)
    requires sub.last.Some? && sub.regPos <= |db.log| && m >= sub.last.value
    requires LivePart(db, sub) == Keep(db.log[sub.regPos..], After(sub.topic, m))
    ensures forall i :: sub.regPos <= i < |db.log| && db.log[i].topic == sub.topic && sub.head < db.log[i].seqNo ==>
              db.log[i].seqNo > sub.last.value
  {
    var late := db.log[sub.regPos..];
    KeepMembers(late, After(sub.topic, sub.head));
    KeepMembers(late, After(sub.topic, m));
    forall i | sub.regPos <= i < |db.log| && db.log[i].topic == sub.topic && sub.head < db.log[i].seqNo
      ensures db.log[i].seqNo > sub.last.value
    {
      assert late[i - sub.regPos] in late;
      assert db.log[i] in LivePart(db, sub);
    }
  }

  lemma CutOrder(db: Db, n: nat)
    requires DbInv(db) && n <= |db.log|
    ensures forall r :: r in db.log[..n] ==> r.seqNo <= Top(db.log[..n])
    ensures forall r :: r in db.log[n..] ==> r.seqNo > Top(db.log[..n])
  {
    forall r | r in db.log[..n] ensures r.seqNo <= Top(db.log[..n]) {
      var i :| 0 <= i < n && db.log[i] == r;
    }
    forall r | r in db.log[n..] ensures r.seqNo > Top(db.log[..n]) {
      var i :| 0 <= i < |db.log| - n && db.log[n..][i] == r;
      assert db.log[n + i] == r;
    }
  }

  /** Rows before the registration point can not be among the live rows. */
  lemma EarlyIsEmpty(db: Db, sub: Sub, m: int)
    requires DbInv(db) && sub.regPos <= |db.log|
    requires LivePart(db, sub)
          == Keep(db.log[..sub.regPos], After(sub.topic, m)) + Keep(db.log[sub.regPos..], After(sub.topic, m))
    ensures Keep(db.log[..sub.regPos], After(sub.topic, m)) == []
  {
    var early, late := Keep(db.log[..sub.regPos], After(sub.topic, m)), Keep(db.log[sub.regPos..], After(sub.topic, m));
    var top := Top(db.log[..sub.regPos]);
    CutOrder(db, sub.regPos);
    KeepMembers(db.log[..sub.regPos], After(sub.topic, m));
    KeepMembers(db.log[sub.regPos..], After(sub.topic, sub.head));
    KeepConcat(early, late, SeqAbove(top));
    KeepLength(late, SeqAbove(top));
    forall i | 0 <= i < |early| ensures early[i].seqNo <= top { assert early[i] in early; }
    KeepNone(early, SeqAbove(top));
    forall i | 0 <= i < |LivePart(db, sub)| ensures LivePart(db, sub)[i].seqNo > top {
      assert LivePart(db, sub)[i] in LivePart(db, sub);
    }
    KeepAll(LivePart(db, sub), SeqAbove(top));
  }

  /** Exactly when a session is what its client is owed: nothing missing, nothing twice. */
  lemma SessionIsExact(cfg: Config, st: State, s: nat)
    requires Reachable(cfg, st) && s in st.subs && st.subs[s].last.Some?
    ensures st.subs[s].regPos <= |st.db.log|
    ensures Expected(cfg, st.db, st.subs[s]) == Owed(st.db, st.subs[s].topic, st.subs[s].last.value)
       <==> WindowServed(cfg, st.db, st.subs[s]) && LiveAligned(st.db, st.subs[s])
  {
    ReachableInv(cfg, st);
    assert SubOk(cfg, st, s);
    SplitsAtHead(cfg, st.db, st.subs[s]);
    WindowExact(cfg, st.db, st.subs[s]);
    LiveExact(st.db, st.subs[s]);
  }

  lemma SplitsAtHead(cfg: Config, db: Db, sub: Sub)
    requires DbInv(db) && sub.last.Some? && sub.regPos <= |db.log|
    ensures Expected(cfg, db, sub) == Owed(db, sub.topic, sub.last.value)
       <==> ReplayPart(cfg, db, sub) == Missed(db, sub)
            && LivePart(db, sub) == Owed(db, sub.topic, Max(sub.last.value, sub.head))
  {
    var m := Max(sub.last.value, sub.head);
    SplitAt(db.log, sub.topic, sub.last.value, sub.head);
    PartsSplitAtHead(cfg, db, sub);
    KeepMembers(db.log, Between(sub.topic, sub.last.value, sub.head));
    KeepMembers(db.log, After(sub.topic, m));
    if Expected(cfg, db, sub) == Owed(db, sub.topic, sub.last.value) {
      UniqueSplit(ReplayPart(cfg, db, sub), LivePart(db, sub), Missed(db, sub), Owed(db, sub.topic, m), sub.head);
    }
  }

  // ---- a test for the client's id -------------------------------------------

  /** Row `k` is the topic row whose id the client brings. */
  ghost predicate Names(db: Db, sub: Sub, k: nat)
    requires sub.last.Some?
  {
    k < sub.born <= |db.log| && db.log[k].topic == sub.topic && db.log[k].seqNo == sub.last.value
  }

  /** The id is none at all (zero or less) or that of a topic row committed before the client reconnected,
      whether or not that row is still in the table. */
  ghost predicate KnownId(db: Db, sub: Sub)
    requires sub.last.Some?
  {
    sub.last.value <= 0 || exists k: nat :: Names(db, sub, k)
  }

  /** The id's row was committed before the pump of this container started. */
  ghost predicate OlderThanPump(db: Db, sub: Sub)
    requires sub.last.Some?
  {
    exists k: nat :: Names(db, sub, k) && k < sub.regStart
  }

  /** The pump had dispatched the id's row when the session registered, or the head had reached it: a test
      of three numbers, which the code could make before it yields anything. It fails to tell the whole
      truth only for a row from before the pump's start. */
  ghost predicate NotAhead(db: Db, sub: Sub)
    requires sub.last.Some?
  {
    sub.last.value <= Max(sub.head, sub.regCursor) || OlderThanPump(db, sub)
  }

  /** No topic row the client still needs was above the head and already dispatched here. */
  ghost predicate NothingLost(db: Db, sub: Sub)
    requires sub.last.Some? && sub.regPos <= |db.log|
  {
    forall i :: 0 <= i < sub.regPos && db.log[i].topic == sub.topic ==> db.log[i].seqNo <= Max(sub.last.value, sub.head)
  }

  /** What pruning may have taken from a session: the rows gone by its replay query. */
  ghost function Gone(db: Db, sub: Sub): set<nat> {
    if sub.replay.Served? then sub.replay.pruned else db.pruned
  }

  /** The topic rows after the id were still there at the replay query. */
  ghost predicate Survived(db: Db, sub: Sub)
    requires sub.last.Some?
  {
    && sub.born <= |db.log|
    && forall i :: 0 <= i < sub.born && db.log[i].topic == sub.topic && db.log[i].seqNo > sub.last.value ==>
      db.log[i].seqNo !in Gone(db, sub)
  }

  lemma NotAheadMeansDispatched(db: Db, sub: Sub, k: nat)
    requires DbInv(db) && RegInv(db, sub) && sub.last.Some? && Names(db, sub, k)
    ensures NotAhead(db, sub) <==> sub.last.value <= sub.head || k < sub.regPos
  {
    if n: nat :| Names(db, sub, n) && n < sub.regStart {
      assert n == k;
    }
  }

  lemma AlignedIfDispatched(db: Db, sub: Sub, k: nat)
    requires DbInv(db) && RegInv(db, sub) && sub.last.Some? && Names(db, sub, k)
    ensures LiveAligned(db, sub) <==> NothingLost(db, sub) && (sub.last.value <= sub.head || k < sub.regPos)
  {
  }

  lemma AlignedExactly(db: Db, sub: Sub)
    requires DbInv(db) && RegInv(db, sub) && sub.last.Some? && KnownId(db, sub)
    ensures LiveAligned(db, sub) <==> NothingLost(db, sub) && NotAhead(db, sub)
  {
    if sub.last.value > 0 {
      var k: nat :| Names(db, sub, k);
      NotAheadMeansDispatched(db, sub, k);
      AlignedIfDispatched(db, sub, k);
    } else {
      assert forall i :: 0 <= i < |db.log| ==> db.log[i].seqNo > 0;
    }
  }

  lemma SurvivedMeansNothingLost(cfg: Config, db: Db, sub: Sub)
    requires HeadInv(cfg, db, sub) && sub.last.Some? && !sub.replay.NotYet? && Survived(db, sub)
    ensures NothingLost(db, sub)
  {
  }

  lemma SessionFacts(cfg: Config, st: State, s: nat)
    requires Reachable(cfg, st) && s in st.subs
    ensures DbInv(st.db) == true && HeadInv(cfg, st.db, st.subs[s]) == true && RegInv(st.db, st.subs[s]) == true
  {
    ReachableInv(cfg, st);
    assert SubOk(cfg, st, s);
  }

  /** For a client with a known id, and for both kinds of head: the session is exactly what the client is owed
      if and only if the replay reached back far enough, no row was lost to pruning, and the id is not ahead
      of this container. */
  lemma ResumeIsExact(cfg: Config, st: State, s: nat)
    requires Reachable(cfg, st) && s in st.subs && st.subs[s].last.Some? && KnownId(st.db, st.subs[s])
    ensures st.subs[s].regPos <= |st.db.log|
    ensures Expected(cfg, st.db, st.subs[s]) == Owed(st.db, st.subs[s].topic, st.subs[s].last.value)
       <==> WindowServed(cfg, st.db, st.subs[s]) && NothingLost(st.db, st.subs[s]) && NotAhead(st.db, st.subs[s])
    ensures !st.subs[s].replay.NotYet? && Survived(st.db, st.subs[s]) ==> NothingLost(st.db, st.subs[s])
  {
    SessionFacts(cfg, st, s);
    SessionIsExact(cfg, st, s);
    AlignedExactly(st.db, st.subs[s]);
    if !st.subs[s].replay.NotYet? && Survived(st.db, st.subs[s]) {
      SurvivedMeansNothingLost(cfg, st.db, st.subs[s]);
    }
  }

  /** A head from the database has reached every id whose own row was not pruned either. */
  lemma DatabaseHeadReaches(cfg: Config, st: State, s: nat)
    requires Reachable(cfg, st) && s in st.subs && st.subs[s].last.Some? && KnownId(st.db, st.subs[s])
    requires st.subs[s].headFromDb && st.subs[s].last.value !in Gone(st.db, st.subs[s])
    ensures st.subs[s].last.value <= st.subs[s].head && NotAhead(st.db, st.subs[s])
  {
    SessionFacts(cfg, st, s);
    HeadReaches(cfg, st.db, st.subs[s]);
  }

  lemma HeadReaches(cfg: Config, db: Db, sub: Sub)
    requires HeadInv(cfg, db, sub) && sub.last.Some? && KnownId(db, sub)
    requires sub.headFromDb && sub.last.value !in Gone(db, sub)
    ensures sub.last.value <= sub.head
  {
    if sub.last.value > 0 {
      var k: nat :| Names(db, sub, k);
      assert db.log[k].seqNo == sub.last.value;
    }
  }

  // ---- chains of sessions -------------------------------------------------

  /** The id a client holds after a session: the last one delivered, else the one it came with. */
  ghost function NextId(last: int, delivered: seq<Row>): int {
    if delivered == [] then last else delivered[|delivered| - 1].seqNo
  }

  /** One reconnect, to any container: the client brings `last`, a known id that is not ahead of the
      container, the missed rows survived until the replay query and fit it. */
  ghost predicate Link(cfg: Config, st: State, s: nat, topic: string, last: int) {
    && s in st.subs && st.subs[s].topic == topic && st.subs[s].last == Some(last)
    && KnownId(st.db, st.subs[s]) && NotAhead(st.db, st.subs[s])
    && !st.subs[s].replay.NotYet? && Survived(st.db, st.subs[s]) && WindowServed(cfg, st.db, st.subs[s])
  }

  /** Sessions on one topic, each opened with the id the previous one left. */
  ghost predicate Chain(cfg: Config, st: State, ids: seq<nat>, topic: string, last: int)
    decreases |ids|
  {
    ids == [] || (
      && Link(cfg, st, ids[0], topic, last)
      && Chain(cfg, st, ids[1..], topic, NextId(last, st.subs[ids[0]].delivered)))
  }

  ghost function AllDelivered(st: State, ids: seq<nat>): seq<Row>
    requires forall s :: s in ids ==> s in st.subs
    decreases |ids|
  {
    if ids == [] then [] else st.subs[ids[0]].delivered + AllDelivered(st, ids[1..])
  }

  lemma {:induction false} ChainSubs(cfg: Config, st: State, ids: seq<nat>, topic: string, last: int)
    requires Chain(cfg, st, ids, topic, last)
    ensures forall s :: s in ids ==> s in st.subs
    decreases |ids|
  {
    if ids != [] {
      ChainSubs(cfg, st, ids[1..], topic, NextId(last, st.subs[ids[0]].delivered));
      assert ids == [ids[0]] + ids[1..];
    }
  }

  /** After receiving the first rows it is owed, a client is owed exactly the others. */
  lemma OwedAfter(db: Db, topic: string, last: int, delivered: seq<Row>)
    requires DbInv(db) && delivered <= Owed(db, topic, last)
    ensures Owed(db, topic, last) == delivered + Owed(db, topic, NextId(last, delivered))
  {
    if delivered != [] {
      var rows := Keep(db.log, OnTopic(topic));
      var next := NextId(last, delivered);
      KeepOrder(db.log, OnTopic(topic));
      KeepKeep(db.log, OnTopic(topic), SeqAbove(last), After(topic, last));
      KeepKeep(db.log, OnTopic(topic), SeqAbove(next), After(topic, next));
      ResumePoint(rows, last, |delivered|);
    }
  }

  /** A chain of sessions across containers reads the topic as one stream: what all of them
      delivered, put end to end, is a contiguous part of the log, without gap or repetition. */
  lemma {:induction false} ChainIsContiguous(cfg: Config, st: State, ids: seq<nat>, topic: string, last: int)
    requires Reachable(cfg, st) && Chain(cfg, st, ids, topic, last)
    ensures forall s :: s in ids ==> s in st.subs
    ensures AllDelivered(st, ids) <= Owed(st.db, topic, last)
    decreases |ids|
  {
    ChainSubs(cfg, st, ids, topic, last);
    if ids != [] {
      var sub := st.subs[ids[0]];
      LogIsInOrder(cfg, st);
      ResumeIsExact(cfg, st, ids[0]);
      DeliveryIsPrefix(cfg, st, ids[0]);
      OwedAfter(st.db, topic, last, sub.delivered);
      ChainIsContiguous(cfg, st, ids[1..], topic, NextId(last, sub.delivered));
    }
  }

  /** Where a session without an id starts: at its head, or at the last row its pump was done with when it
      registered, if that row is newer because the table's newest rows had been pruned. */
  ghost function StartOf(db: Db, sub: Sub): int
    requires sub.regPos <= |db.log|
  {
    Max(sub.head, Top(db.log[..sub.regPos]))
  }

  lemma LiveFromStart(db: Db, sub: Sub)
    requires DbInv(db) && sub.regPos <= |db.log|
    ensures LivePart(db, sub) == Owed(db, sub.topic, StartOf(db, sub))
    ensures (forall i :: 0 <= i < sub.regPos && db.log[i].topic == sub.topic ==> db.log[i].seqNo <= sub.head) ==>
              Owed(db, sub.topic, StartOf(db, sub)) == Owed(db, sub.topic, sub.head)
  {
    var start := StartOf(db, sub);
    var late := db.log[sub.regPos..];
    CutOrder(db, sub.regPos);
    OwedSplits(db, sub, start);
    OwedSplits(db, sub, sub.head);
    forall i | 0 <= i < sub.regPos ensures db.log[i].seqNo <= start {
      assert db.log[..sub.regPos][i] == db.log[i];
    }
    forall i | 0 <= i < |late| ensures late[i].seqNo > start <==> late[i].seqNo > sub.head {
      assert late[i] in late;
    }
    KeepSame(late, After(sub.topic, start), After(sub.topic, sub.head));
    assert [] + LivePart(db, sub) == LivePart(db, sub);
  }

  /** A client's first session has no id: it is sent the topic rows after its start. */
  lemma FirstSessionIsExact(cfg: Config, st: State, first: nat)
    requires Reachable(cfg, st) && first in st.subs && st.subs[first].last.None?
    ensures st.subs[first].regPos <= |st.db.log|
    ensures Expected(cfg, st.db, st.subs[first]) == Owed(st.db, st.subs[first].topic, StartOf(st.db, st.subs[first]))
    ensures st.subs[first].delivered <= Owed(st.db, st.subs[first].topic, StartOf(st.db, st.subs[first]))
  {
    ReachableInv(cfg, st);
    DeliveryIsPrefix(cfg, st, first);
    LiveFromStart(st.db, st.subs[first]);
    assert [] + LivePart(st.db, st.subs[first]) == LivePart(st.db, st.subs[first]);
  }

  /** With the chain of reconnects that follows it, it delivers a contiguous, duplicate-free part of the
      topic log. */
  lemma FirstSessionStartsTheChain(cfg: Config, st: State, first: nat, ids: seq<nat>)
    requires Reachable(cfg, st) && first in st.subs && st.subs[first].last.None?
    requires st.subs[first].regPos <= |st.db.log|
    requires Chain(cfg, st, ids, st.subs[first].topic, NextId(StartOf(st.db, st.subs[first]), st.subs[first].delivered))
    ensures forall s :: s in ids ==> s in st.subs
    ensures st.subs[first].delivered + AllDelivered(st, ids)
         <= Owed(st.db, st.subs[first].topic, StartOf(st.db, st.subs[first]))
  {
    var topic, delivered := st.subs[first].topic, st.subs[first].delivered;
    var start := StartOf(st.db, st.subs[first]);
    FirstSessionIsExact(cfg, st, first);
    LogIsInOrder(cfg, st);
    OwedAfter(st.db, topic, start, delivered);
    ChainIsContiguous(cfg, st, ids, topic, NextId(start, delivered));
  }

  lemma LogIsInOrder(cfg: Config, st: State)
    requires Reachable(cfg, st)
    ensures DbInv(st.db)
  {
    ReachableInv(cfg, st);
  }

  // ---- the head read can fail ---------------------------------------------

  const R: Row := Row(1, "items", "item.created", "{}")
  const READ: Container := Container(1, [], false, 1, 0, 0, [R])
  const DEFAULTS: Config := Config(100, 256)

  /** One client, two sessions, the second resuming with the id of the row it was just given. */
  ghost predicate GotTheSameRowTwice(st: State) {
    && 0 in st.subs && 1 in st.subs
    && st.subs[0].delivered == [R]
    && st.subs[1].last == Some(NextId(0, st.subs[0].delivered))
    && st.subs[1].delivered == [R]
  }

  /** The fallback head is this container's cursor, which can lag behind the id the client brings
      from another container: the row is dispatched here later, above the head, and sent again. */
  lemma FallbackRepeatsARow()
    ensures exists st :: Reachable(DEFAULTS, st) && GotTheSameRowTwice(st)
  {
    var listening := FirstSessionOpens();
    var published := RowCommits(listening);
    var delivered := PumpDelivers(published, 0);
    var reconnected := SecondSessionOpens(delivered);
    var repeated := PumpDelivers(reconnected, 1);
    assert GotTheSameRowTwice(repeated);
  }

  function LiveSub(c: nat, last: Option<int>, born: nat, fromDb: bool, replay: Replay): Sub {
    Sub(c, "items", last, true, [], Live, 0, [], 0, born, 0, 0, 0, fromDb, replay, [], [])
  }

  /** Two containers are up and a client is live on the first. */
  lemma FirstSessionOpens() returns (st: State)
    ensures Reachable(DEFAULTS, st) && st.db == EmptyDb()
    ensures st.containers == map[0 := Started(EmptyDb()), 1 := Started(EmptyDb())]
    ensures st.subs == map[0 := LiveSub(0, None, 0, true, Skipped)]
  {
    assert Legal(DEFAULTS, Initial(), []) && Run(DEFAULTS, Initial(), []) == Initial();
    st := DoStart(Initial(), 0);
    st := DoStart(st, 1);
    st := DoSubscribe(st, 0, 0, None);
    st := DoAct(st, 0, ReadHead);
    st := DoAct(st, 0, ReadReplay);
    st := DoAct(st, 0, GoLive);
  }

  lemma RowCommits(st: State) returns (later: State)
    requires Reachable(DEFAULTS, st) && st.db == EmptyDb()
    ensures Reachable(DEFAULTS, later) && later.db.log == [R] && later.db.pruned == {}
    ensures later.containers == st.containers && later.subs == st.subs
  {
    later := DoServer(st, Lock(7));
    later := DoServer(later, Insert(7, "items", "item.created", "{}"));
    later := DoServer(later, Commit(7));
  }

  /** The pump of container `c` dispatches the row and its live subscriber takes it. */
  lemma PumpDelivers(st: State, c: nat) returns (later: State)
    requires Reachable(DEFAULTS, st) && st.db.log == [R] && st.db.pruned == {}
    requires c in st.containers && st.containers[c] == Started(EmptyDb())
    requires c in st.subs && st.subs[c] == LiveSub(c, st.subs[c].last, st.subs[c].born, st.subs[c].headFromDb,
             st.subs[c].replay)
    ensures Reachable(DEFAULTS, later) && later.db == st.db && c in later.subs && later.subs.Keys == st.subs.Keys
    ensures later.subs[c].delivered == [R] && later.subs[c].last == st.subs[c].last && later.subs[c].container == c
    ensures c in later.containers && later.containers[c] == READ && later.containers.Keys == st.containers.Keys
    ensures forall d :: d in st.containers && d != c ==>
              d in later.containers && later.containers[d] == st.containers[d]
    ensures forall s :: s in st.subs && st.subs[s].container != c ==> later.subs[s] == st.subs[s]
  {
    assert Keep([R], Alive({})) == [R] && Keep([R], SeqAbove(0)) == [R];
    var fetched := DoFetch(st, c);
    assert fetched.containers[c].batch == [R];
    var dispatched := DoDispatch(fetched, c);
    assert dispatched.subs[c].queue == [Item(R)];
    later := DoAct(dispatched, c, Take);
  }

  /** A head from the database does it too. The second container has fetched the row and not dispatched it
      when the row is pruned, so the table the head is read from no longer shows it. */
  lemma DatabaseHeadRepeatsARow()
    ensures exists st :: Reachable(DEFAULTS, st) && GotTheSameRowTwice(st) && st.subs[1].headFromDb
  {
    var listening := FirstSessionOpens();
    var published := RowCommits(listening);
    var delivered := PumpDelivers(published, 0);
    var fetched := RowIsFetchedHere(delivered);
    var pruned := RowIsPrunedBeforeDispatch(fetched);
    var reconnected := SessionOnEmptyTable(pruned);
    var repeated := FetchedRowIsDelivered(reconnected);
    assert GotTheSameRowTwice(repeated);
  }

  const FETCHED: Container := Container(0, [R], false, 0, 0, 0, [])

  lemma RowIsFetchedHere(st: State) returns (later: State)
    requires Reachable(DEFAULTS, st) && st.db.log == [R] && st.db.pruned == {}
    requires st.containers == map[0 := READ, 1 := Started(EmptyDb())]
    ensures Reachable(DEFAULTS, later) && later.db == st.db
    ensures later.containers == map[0 := READ, 1 := FETCHED] && later.subs == st.subs
  {
    assert Keep([R], Alive({})) == [R] && Keep([R], SeqAbove(0)) == [R];
    later := DoFetch(st, 1);
    assert later.containers[1] == FETCHED;
  }

  lemma RowIsPrunedBeforeDispatch(st: State) returns (later: State)
    requires Reachable(DEFAULTS, st) && st.db.log == [R] && st.db.pruned == {}
    requires st.containers == map[0 := READ, 1 := FETCHED]
    ensures Reachable(DEFAULTS, later) && later.db == st.db.(pruned := {1})
    ensures later.containers == st.containers && later.subs == st.subs
  {
    assert Top([R]) == 1;
    later := DoServer(st, Prune({1}));
  }

  lemma SessionOnEmptyTable(st: State) returns (later: State)
    requires Reachable(DEFAULTS, st) && st.db.log == [R] && st.db.pruned == {1}
    requires 1 in st.containers && st.containers[1] == FETCHED && 1 !in st.subs
    ensures Reachable(DEFAULTS, later) && later.db == st.db && later.containers == st.containers
    ensures later.subs == st.subs[1 := LiveSub(1, Some(1), 1, true, Served({1}))]
  {
    assert Keep([R], Alive({1})) == [];
    var s1 := DoSubscribe(st, 1, 1, Some(1));
    var s2 := DoAct(s1, 1, ReadHead);
    var s3 := DoAct(s2, 1, ReadReplay);
    later := DoAct(s3, 1, GoLive);
  }

  lemma FetchedRowIsDelivered(st: State) returns (later: State)
    requires Reachable(DEFAULTS, st) && 1 in st.containers && st.containers[1] == FETCHED
    requires 1 in st.subs && st.subs[1] == LiveSub(1, Some(1), 1, true, Served({1}))
    requires 0 in st.subs && st.subs[0].container == 0
    ensures Reachable(DEFAULTS, later) && 1 in later.subs && 0 in later.subs && later.subs[0] == st.subs[0]
    ensures later.subs[1].delivered == [R] && later.subs[1].last == Some(1) && later.subs[1].headFromDb
  {
    var dispatched := DoDispatch(st, 1);
    assert dispatched.subs[1].queue == [Item(R)];
    later := DoAct(dispatched, 1, Take);
  }

  /** The client moves to the second container, whose pump has not read the row yet, and the read
      of the log head fails there. */
  lemma SecondSessionOpens(st: State) returns (later: State)
    requires Reachable(DEFAULTS, st) && st.db.log == [R] && st.db.pruned == {}
    requires 1 in st.containers && st.containers[1] == Started(EmptyDb()) && 1 !in st.subs
    ensures Reachable(DEFAULTS, later) && later.db == st.db && later.containers == st.containers
    ensures later.subs == st.subs[1 := LiveSub(1, Some(1), 1, false, Served({}))]
  {
    var s1 := DoSubscribe(st, 1, 1, Some(1));
    var s2 := DoAct(s1, 1, HeadFailed);
    assert Keep([R], Alive({})) == [R] && Keep([R], Between("items", 1, 0)) == [];
    var s3 := DoAct(s2, 1, ReadReplay);
    later := DoAct(s3, 1, GoLive);
  }

  lemma RowIsFetched() returns (st: State)
    ensures Reachable(DEFAULTS, st) && st.db.log == [R] && st.db.pruned == {} && st.subs == map[]
    ensures st.containers == map[0 := Started(EmptyDb()).(batch := [R])]
  {
    assert Legal(DEFAULTS, Initial(), []) && Run(DEFAULTS, Initial(), []) == Initial();
    var started := DoStart(Initial(), 0);
    var published := RowCommits(started);
    assert Keep([R], Alive({})) == [R] && Keep([R], SeqAbove(0)) == [R];
    st := DoFetch(published, 0);
    assert st.containers[0].batch == [R];
  }

  /** One container, whose pump has dispatched the only row. */
  lemma RowIsRead() returns (st: State)
    ensures Reachable(DEFAULTS, st) && st.db.log == [R] && st.db.pruned == {}
    ensures st.containers == map[0 := READ] && st.subs == map[]
  {
    var fetched := RowIsFetched();
    st := DoDispatch(fetched, 0);
    assert AfterDispatch(fetched.containers[0]) == READ;
  }

  lemma RowIsPruned(st: State) returns (later: State)
    requires Reachable(DEFAULTS, st) && st.db.log == [R] && st.db.pruned == {} && st.containers == map[0 := READ]
    ensures Reachable(DEFAULTS, later) && later.db == st.db.(pruned := {1})
    ensures later.containers == st.containers && later.subs == st.subs
  {
    assert Top([R]) == 1;
    later := DoServer(st, Prune({1}));
  }

  /** A head from the database below the cursor of the pump that serves the session: the newest row was
      dispatched and then pruned. */
  lemma HeadFallsBelowACursor()
    ensures exists st :: Reachable(DEFAULTS, st) && HeadBelowCursor(st)
  {
    var read := RowIsRead();
    var pruned := RowIsPruned(read);
    var listening := DoSubscribe(pruned, 0, 0, None);
    assert Keep([R], Alive({1})) == [];
    var st := DoAct(listening, 0, ReadHead);
    assert HeadBelowCursor(st);
  }

  ghost predicate HeadBelowCursor(st: State) {
    && 0 in st.subs && 0 in st.containers && st.subs[0].container == 0
    && st.subs[0].headFromDb && st.subs[0].head < st.containers[0].cursor
  }

  lemma DoStart(st: State, c: nat) returns (next: State)
    requires Reachable(DEFAULTS, st) && c !in st.containers
    ensures Reachable(DEFAULTS, next) && next == st.(containers := st.containers[c := Started(st.db)])
  {
    next := Next(DEFAULTS, st, Start(c));
    ReachableStep(DEFAULTS, st, Start(c));
  }

  lemma DoServer(st: State, d: DbStep) returns (next: State)
    requires Reachable(DEFAULTS, st) && DbEnabled(st.db, d, true) && (d.Prune? ==> OnlyFetchedRows(st, d.dead))
    ensures Reachable(DEFAULTS, next) && next == st.(db := DbNext(st.db, d, true))
  {
    next := Next(DEFAULTS, st, Server(d));
    ReachableStep(DEFAULTS, st, Server(d));
  }

  lemma DoFetch(st: State, c: nat) returns (next: State)
    requires Reachable(DEFAULTS, st) && Open(st, c) && st.containers[c].batch == []
    ensures Reachable(DEFAULTS, next) && next == FetchState(st, c)
  {
    next := Next(DEFAULTS, st, Fetch(c));
    ReachableStep(DEFAULTS, st, Fetch(c));
  }

  lemma DoDispatch(st: State, c: nat) returns (next: State)
    requires Reachable(DEFAULTS, st) && Open(st, c) && st.containers[c].batch != []
    ensures Reachable(DEFAULTS, next) && next == DispatchState(DEFAULTS, st, c)
  {
    next := Next(DEFAULTS, st, DispatchRow(c));
    ReachableStep(DEFAULTS, st, DispatchRow(c));
  }

  lemma DoSubscribe(st: State, s: nat, c: nat, last: Option<int>) returns (next: State)
    requires Reachable(DEFAULTS, st) && Open(st, c) && s !in st.subs
    ensures Reachable(DEFAULTS, next) && next == SubscribeState(st, s, c, "items", last)
  {
    next := Next(DEFAULTS, st, Subscribe(s, c, "items", last));
    ReachableStep(DEFAULTS, st, Subscribe(s, c, "items", last));
  }

  lemma DoAct(st: State, s: nat, action: Action) returns (next: State)
    requires Reachable(DEFAULTS, st) && s in st.subs && st.subs[s].container in st.containers
             && CanAct(st.subs[s], action)
    ensures Reachable(DEFAULTS, next) && next == ActState(DEFAULTS, st, s, action)
  {
    next := Next(DEFAULTS, st, Act(s, action));
    ReachableStep(DEFAULTS, st, Act(s, action));
  }
}
