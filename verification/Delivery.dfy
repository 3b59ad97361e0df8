/** What the bus promises a subscriber and a pump, over every run of the protocol. */
module Delivery {
  import opened Logs
  import opened Database
  import opened Queues
  import opened BusProtocol

  /** The replay the subscriber was given: the newest rows in (last, head] that had survived. */
  ghost function ReplayPart(cfg: Config, db: Db, sub: Sub): seq<Row> {
    if sub.replay.Served? && sub.last.Some? then
      Newest(Keep(db.log, BetweenAlive(sub.topic, sub.last.value, sub.head, sub.replay.pruned)), cfg.replaySize)
    else []
  }

  /** Every topic row above the head that the pump had not dispatched before registration. */
  ghost function LivePart(db: Db, sub: Sub): seq<Row>
    requires sub.regPos <= |db.log|
  {
    Keep(db.log[sub.regPos..], After(sub.topic, sub.head))
  }

  ghost function Expected(cfg: Config, db: Db, sub: Sub): seq<Row>
    requires sub.regPos <= |db.log|
    ensures Expected(cfg, db, sub) == ReplayPart(cfg, db, sub) + LivePart(db, sub)
  {
    StreamSpec(cfg.replaySize, db.log, sub.topic, sub.last, sub.replay.Served?,
               if sub.replay.Served? then sub.replay.pruned else {}, sub.head, sub.regPos)
  }

  /** Nothing is waiting: the stream is open, its queue empty and the pump up to date. */
  ghost predicate CaughtUp(st: State, s: nat)
    requires s in st.subs
  {
    var sub := st.subs[s];
    && sub.phase.Live? && sub.registered && sub.queue == []
    && Open(st, sub.container) && st.containers[sub.container].pos == |st.db.log|
  }

  lemma KeepPrefix(rows: seq<Row>, more: seq<Row>, p: Row -> bool)
    requires rows <= more
    ensures Keep(rows, p) <= Keep(more, p)
  {
    assert more == rows + more[|rows|..];
    KeepConcat(rows, more[|rows|..], p);
  }

  lemma LiveTaken(db: Db, pos: nat, open: bool, sub: Sub)
    requires QueueInv(db, pos, open, sub)
    ensures Keep(sub.taken, SeqAbove(sub.head)) <= LivePart(db, sub)
    ensures open && sub.registered && sub.queue == [] && pos == |db.log| ==>
              Keep(sub.taken, SeqAbove(sub.head)) == LivePart(db, sub)
  {
    var rest := db.log[sub.regPos..];
    KeepKeep(rest, OnTopic(sub.topic), SeqAbove(sub.head), After(sub.topic, sub.head));
    assert db.log[sub.regPos..pos] <= rest;
    KeepPrefix(db.log[sub.regPos..pos], rest, OnTopic(sub.topic));
    assert sub.taken <= sub.taken + Rows(sub.queue);
    KeepPrefix(sub.taken, Keep(rest, OnTopic(sub.topic)), SeqAbove(sub.head));
    if open && sub.registered && sub.queue == [] && pos == |db.log| {
      assert db.log[sub.regPos..pos] == rest;
      assert sub.taken + [] == sub.taken;
    }
  }

  lemma PartsSplitAtHead(cfg: Config, db: Db, sub: Sub)
    requires sub.regPos <= |db.log|
    ensures forall r :: r in ReplayPart(cfg, db, sub) ==> r.seqNo <= sub.head
    ensures forall r :: r in LivePart(db, sub) ==> r.seqNo > sub.head
  {
    KeepMembers(db.log[sub.regPos..], After(sub.topic, sub.head));
    if sub.replay.Served? && sub.last.Some? {
      var alive := BetweenAlive(sub.topic, sub.last.value, sub.head, sub.replay.pruned);
      KeepMembers(db.log, alive);
      assert forall r :: r in ReplayPart(cfg, db, sub) ==> r in Keep(db.log, alive);
    }
  }

  /** The bus delivers, in order and without gap or repetition, a prefix of the replay followed by
      the live rows, whatever became of the stream; and all of it once nothing is waiting. */
  lemma DeliveryIsPrefix(cfg: Config, st: State, s: nat)
    requires Reachable(cfg, st) && s in st.subs
    ensures st.subs[s].regPos <= |st.db.log|
    ensures st.subs[s].delivered <= Expected(cfg, st.db, st.subs[s])
    ensures Ascending(Expected(cfg, st.db, st.subs[s]))
    ensures CaughtUp(st, s) ==> st.subs[s].delivered == Expected(cfg, st.db, st.subs[s])
  {
    ReachableInv(cfg, st);
    var sub := st.subs[s];
    var ct := st.containers[sub.container];
    StreamIsPrefix(cfg, st.db, ct, sub);
    SpecAscends(cfg.replaySize, st.db.log, sub.topic, sub.last, sub.replay.Served?,
                if sub.replay.Served? then sub.replay.pruned else {}, sub.head, sub.regPos);
  }

  lemma StreamIsPrefix(cfg: Config, db: Db, ct: Container, sub: Sub)
    requires SubInv(cfg, db, ct, sub)
    ensures sub.delivered <= Expected(cfg, db, sub)
    ensures sub.phase.Live? && sub.registered && sub.queue == [] && !ct.closed && ct.pos == |db.log| ==>
              sub.delivered == Expected(cfg, db, sub)
  {
    LiveTaken(db, ct.pos, !ct.closed, sub);
    assert sub.replayed == ReplayPart(cfg, db, sub);
    if sub.shown < |sub.replayed| {
      assert sub.delivered == sub.replayed[..sub.shown];
    } else {
      assert sub.replayed[..sub.shown] == sub.replayed;
    }
  }

  /** Where the live part starts: no topic row above the head is missing from it unless that row
      had already been pruned, whether the head came from the database or from the cursor. */
  lemma NothingAboveTheHeadIsMissed(cfg: Config, st: State, s: nat, r: Row)
    requires Reachable(cfg, st) && s in st.subs && !st.subs[s].replay.NotYet?
    requires r in st.db.log && r.topic == st.subs[s].topic && r.seqNo > st.subs[s].head
    ensures st.subs[s].regPos <= |st.db.log|
    ensures r in LivePart(st.db, st.subs[s]) || r.seqNo in st.db.pruned
  {
    ReachableInv(cfg, st);
    LiveFrom(cfg, st.db, st.subs[s], r);
  }

  lemma LiveFrom(cfg: Config, db: Db, sub: Sub, r: Row)
    requires HeadInv(cfg, db, sub) && !sub.replay.NotYet?
    requires r in db.log && r.topic == sub.topic && r.seqNo > sub.head
    ensures r in LivePart(db, sub) || r.seqNo in db.pruned
  {
    var i :| 0 <= i < |db.log| && db.log[i] == r;
    KeepMembers(db.log[sub.regPos..], After(sub.topic, sub.head));
    if i >= sub.regPos {
      assert db.log[sub.regPos..][i - sub.regPos] == r;
    }
  }

  /** A stream closed for being slow holds the close marker and nothing else. */
  lemma ClosedQueueIsMarker(cfg: Config, st: State, s: nat)
    requires Reachable(cfg, st) && s in st.subs && Close in st.subs[s].queue
    ensures st.subs[s].queue == [Close]
  {
    ReachableInv(cfg, st);
    assert SubInv(cfg, st.db, st.containers[st.subs[s].container], st.subs[s]);
  }

  /** A stream that has ended is off its topic: no dispatch reaches it any more. */
  lemma EndedStreamIsLeftAlone(cfg: Config, st: State, s: nat, c: nat)
    requires Reachable(cfg, st) && s in st.subs && st.subs[s].phase.Ended?
    requires c in st.containers && st.containers[c].batch != []
    ensures !st.subs[s].registered && DispatchState(cfg, st, c).subs[s] == st.subs[s]
  {
    ReachableInv(cfg, st);
    assert StreamInv(st.subs[s]);
  }

  /** An open bus can be closed at any time. That leaves every stream registered with it the marker and nothing
      else, on its topic as before, touches no other stream, and stops the pump for good. */
  lemma ClosedBusEndsItsStreams(cfg: Config, st: State, c: nat)
    requires c in st.containers && !st.containers[c].closed
    ensures Enabled(st, CloseBus(c))
    ensures var after := Next(cfg, st, CloseBus(c));
      && after.subs.Keys == st.subs.Keys
      && (forall s :: s in st.subs && st.subs[s].container == c && st.subs[s].registered ==>
            after.subs[s] == st.subs[s].(queue := [Close]))
      && (forall s :: s in st.subs && !(st.subs[s].container == c && st.subs[s].registered) ==>
            after.subs[s] == st.subs[s])
      && !Enabled(after, Fetch(c)) && !Enabled(after, DispatchRow(c)) && !Enabled(after, CloseBus(c))
      && forall s, topic, last :: !Enabled(after, Subscribe(s, c, topic, last))
  {
  }

  /** Every pump dispatches each surviving row above its start cursor exactly once and in order:
      `sent` is the contiguous part of the log since the start, and what is neither sent nor
      pruned is still ahead of the cursor. */
  lemma PumpIsExact(cfg: Config, st: State, c: nat)
    requires Reachable(cfg, st) && c in st.containers
    ensures var ct := st.containers[c];
      && ct.startPos <= ct.pos <= |st.db.log|
      && ct.sent == st.db.log[ct.startPos..ct.pos] && Ascending(ct.sent)
    ensures var ct := st.containers[c];
      forall r :: r in st.db.log && r.seqNo > ct.startCursor && r.seqNo !in st.db.pruned ==>
        (r in ct.sent <==> r.seqNo <= ct.cursor) && (r in st.db.log[ct.pos..] <==> r.seqNo > ct.cursor)
  {
    ReachableInv(cfg, st);
    PumpSent(st.db, st.containers[c]);
  }

  lemma PumpSent(db: Db, ct: Container)
    requires DbInv(db) && ContainerInv(db, ct)
    ensures Ascending(ct.sent)
    ensures forall r :: r in db.log && r.seqNo > ct.startCursor && r.seqNo !in db.pruned ==>
              (r in ct.sent <==> r.seqNo <= ct.cursor) && (r in db.log[ct.pos..] <==> r.seqNo > ct.cursor)
  {
    forall r | r in db.log && r.seqNo > ct.startCursor && r.seqNo !in db.pruned
      ensures (r in ct.sent <==> r.seqNo <= ct.cursor) && (r in db.log[ct.pos..] <==> r.seqNo > ct.cursor)
    {
      SentOrAhead(db, ct, r);
    }
  }

  lemma SentOrAhead(db: Db, ct: Container, r: Row)
    requires ContainerInv(db, ct) && r in db.log && r.seqNo > ct.startCursor && r.seqNo !in db.pruned
    ensures r in ct.sent || r in db.log[ct.pos..]
    ensures r in ct.sent <==> r.seqNo <= ct.cursor
    ensures r in db.log[ct.pos..] <==> r.seqNo > ct.cursor
  {
    var log := db.log;
    var i :| 0 <= i < |log| && log[i] == r;
    assert i >= ct.startPos;
    if i < ct.pos {
      assert ct.sent[i - ct.startPos] == r;
    } else {
      assert log[ct.pos..][i - ct.pos] == r;
    }
    if r in ct.sent {
      var k :| 0 <= k < |ct.sent| && ct.sent[k] == r;
      assert log[ct.startPos + k] == r;
    }
    if r in log[ct.pos..] {
      var k :| 0 <= k < |log[ct.pos..]| && log[ct.pos..][k] == r;
      assert log[ct.pos + k] == r;
    }
  }
}
