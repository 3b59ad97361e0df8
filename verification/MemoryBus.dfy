/** InMemoryEventBus: one process, bounded per-topic replay buffers, the same delivery contract. */
module MemoryBus {
  import opened Logs
  import opened Queues
  import opened Subscribers

  // Below, `== true` makes the verifier pass a predicate on as one fact instead of taking it apart.

  /** What one `__anext__` of the generator comes to. */
  datatype Pulled = Yielded(row: Row) | Waiting | Finished

  ghost predicate LogInv(log: seq<Row>) {
    forall i :: 0 <= i < |log| ==> log[i].seqNo == i + 1
  }

  function Buffer(history: map<string, seq<Row>>, topic: string): seq<Row> {
    if topic in history then history[topic] else []
  }

  /** Every buffer holds the newest rows of its topic. */
  ghost predicate HistoryInv(log: seq<Row>, history: map<string, seq<Row>>, n: nat) {
    forall topic :: Buffer(history, topic) == Newest(Keep(log, OnTopic(topic)), n)
  }

  /** The stream contract, with the head and the live part fixed at registration. */
  ghost function Due(log: seq<Row>, n: nat, topic: string, last: Option<int>, base: nat): seq<Row>
    requires base <= |log|
  {
    StreamSpec(n, log, topic, last, true, {}, base, base)
  }

  /** What a stream has yielded, still has to replay and has queued is what it is due: all of it
      while the stream is open, the beginning of it afterwards. */
  ghost predicate Keeps(port: Port, pending: seq<Row>, yielded: seq<Row>, due: seq<Row>) {
    && (port.queue == [Close] || AllItems(port.queue))
    && yielded + (pending + Rows(port.queue)) <= due
    && (port.open ==> AllItems(port.queue) && yielded + (pending + Rows(port.queue)) == due)
  }

  /** One `subscribe` generator: what it was asked for, its subscriber, the replay rows it still has
      to yield. History: the log length when it registered, what it has yielded, and what it is due
      as the log stands. */
  class Stream {
    const topic: string
    const last: Option<int>
    const base: nat
    const sub: Subscriber
    var pending: seq<Row>
    var yielded: seq<Row>
    ghost var due: seq<Row>

    constructor (topic: string, last: Option<int>, base: nat, sub: Subscriber, replay: seq<Row>)
      ensures this.topic == topic && this.last == last && this.base == base && this.sub == sub
      ensures pending == replay && yielded == [] && due == replay
    {
      this.topic, this.last, this.base, this.sub := topic, last, base, sub;
      pending, yielded, due := replay, [], replay;
    }
  }

  class InMemoryEventBus {
    const replaySize: nat
    const queueSize: int
    var lastSeq: nat
    var history: map<string, seq<Row>>
    var subscribers: map<string, set<Subscriber>>
    ghost var log: seq<Row>
    ghost var streams: set<Stream>

    constructor (replaySize: nat, queueSize: int)
      ensures Recorded() && Served() && log == [] && streams == {}
      ensures this.replaySize == replaySize && this.queueSize == queueSize
    {
      this.replaySize, this.queueSize := replaySize, queueSize;
      lastSeq, history, subscribers := 0, map[], map[];
      log, streams := [], {};
    }

    function On(topic: string): set<Subscriber>
      reads `subscribers
    {
      if topic in subscribers then subscribers[topic] else {}
    }

    ghost function PortOf(s: Stream): Port
      reads `subscribers, s.sub
    {
      Port(s.sub.queue, s.sub in On(s.topic))
    }

    /** A stream has its own subscriber, which is on the stream's topic only. */
    ghost predicate Wired()
      reads `subscribers, `streams
    {
      && (forall s, t :: s in streams && t in streams && s != t ==> s.sub != t.sub)
      && (forall s, topic :: s in streams && topic in subscribers && s.sub in subscribers[topic] ==> topic == s.topic)
      && (forall topic, sub :: topic in subscribers && sub in subscribers[topic] ==> sub.maxsize == queueSize)
    }

    /** The log as numbered and buffered, and what each stream is due of it. */
    ghost predicate Recorded()
      reads `lastSeq, `history, `log, `streams, streams`due
    {
      && LogInv(log) && lastSeq == |log|
      && HistoryInv(log, history, replaySize)
      && (forall s :: s in streams ==> s.base <= |log| && s.due == Due(log, replaySize, s.topic, s.last, s.base))
    }

    /** Every stream has what it is due. */
    ghost predicate Served()
      reads `subscribers, `streams, streams, set s | s in streams :: s.sub
    {
      && Wired()
      && (forall s :: s in streams ==> Keeps(PortOf(s), s.pending, s.yielded, s.due) == true)
    }

    /** `publish`: number the event, append it to its topic's buffer, offer it to every subscriber. */
    method Publish(topic: string, kind: string, data: string) returns (row: Row)
      requires Recorded() && Served()
      modifies `lastSeq, `history, `log, `subscribers, On(topic), streams`due
      ensures Recorded() && Served()
      ensures row == Row(old(lastSeq) + 1, topic, kind, data) && log == old(log) + [row]
      ensures forall s :: s in streams ==>
                PortOf(s) == if s.topic == topic then Receive(old(PortOf(s)), queueSize, row) else old(PortOf(s))
    {
      row := Remember(topic, kind, data);
      HandOut(row);
      forall s | s in streams ensures Keeps(PortOf(s), s.pending, s.yielded, s.due) == true {
        ReceiveKeeps(old(PortOf(s)), queueSize, s.pending, s.yielded, old(s.due), row);
      }
    }

    /** `self._seq += 1` and the append to the topic's `deque(maxlen=replay_size)`. */
    method Remember(topic: string, kind: string, data: string) returns (row: Row)
      requires Recorded()
      modifies `lastSeq, `history, `log, streams`due
      ensures Recorded()
      ensures row == Row(old(lastSeq) + 1, topic, kind, data) && log == old(log) + [row]
      ensures forall s :: s in streams ==> s.due == old(s.due) + if s.topic == topic then [row] else []
    {
      lastSeq := lastSeq + 1;
      row := Row(lastSeq, topic, kind, data);
      NewestOfTopics(log, row, history, replaySize);
      history := history[topic := Newest(Buffer(history, topic) + [row], replaySize)];
      NoteDue(row);
      log := log + [row];
    }

    /** The new row adds to what the streams on its topic are due. */
    ghost method NoteDue(row: Row)
      requires LogInv(log) && row.seqNo == |log| + 1
      requires forall s :: s in streams ==> s.base <= |log| && s.due == Due(log, replaySize, s.topic, s.last, s.base)
      modifies streams`due
      ensures forall s :: s in streams ==> s.due == Due(log + [row], replaySize, s.topic, s.last, s.base)
      ensures forall s :: s in streams ==> s.due == old(s.due) + if s.topic == row.topic then [row] else []
    {
      forall s | s in streams
        ensures Due(log + [row], replaySize, s.topic, s.last, s.base)
             == s.due + if s.topic == row.topic then [row] else []
      {
        DueGrows(log, row, replaySize, s.topic, s.last, s.base);
      }
      forall s | s in streams {
        s.due := s.due + if s.topic == row.topic then [row] else [];
      }
    }

    /** The dispatch loop of `publish`. */
    method HandOut(row: Row)
      requires Wired()
      modifies `subscribers, On(row.topic)
      ensures Wired()
      ensures forall s :: s in streams ==>
                PortOf(s) == if s.topic == row.topic then Receive(old(PortOf(s)), queueSize, row) else old(PortOf(s))
    {
      if row.topic in subscribers {
        var kept := OfferToAll(subscribers[row.topic], row);
        subscribers := subscribers[row.topic := kept];
      }
    }

    /** `subscribe`, up to its first yield: register and snapshot the buffer without an await. */
    method Subscribe(topic: string, last: Option<int>) returns (s: Stream)
      requires Recorded() && Served()
      modifies `subscribers, `streams
      ensures Recorded() && Served() && fresh(s) && fresh(s.sub) && streams == old(streams) + {s}
      ensures s.topic == topic && s.last == last && s.base == |log| && s.yielded == []
      ensures s.pending == if last.Some? then Newest(Keep(log, After(topic, last.value)), replaySize) else []
      ensures PortOf(s) == Port([], true)
      ensures forall other :: other in old(streams) ==> PortOf(other) == old(PortOf(other))
    {
      var replay := Snapshot(topic, last);
      s := Register(topic, last, replay);
    }

    method Register(topic: string, last: Option<int>, replay: seq<Row>) returns (s: Stream)
      requires Served()
      modifies `subscribers, `streams
      ensures Served() && fresh(s) && fresh(s.sub) && streams == old(streams) + {s}
      ensures s.topic == topic && s.last == last && s.base == lastSeq
      ensures s.yielded == [] && s.pending == s.due == replay && PortOf(s) == Port([], true)
      ensures forall other :: other in old(streams) ==> PortOf(other) == old(PortOf(other))
    {
      var sub := new Subscriber(queueSize);
      s := new Stream(topic, last, lastSeq, sub, replay);
      subscribers := subscribers[topic := On(topic) + {sub}];
      streams := streams + {s};
      NewStreamKeeps(replay);
    }

    /** `_replay_after`: the buffered rows with an id above `last`. */
    method Snapshot(topic: string, last: Option<int>) returns (replay: seq<Row>)
      requires Recorded()
      ensures replay == if last.Some? then Newest(Keep(log, After(topic, last.value)), replaySize) else []
      ensures lastSeq == |log| && replay == Due(log, replaySize, topic, last, |log|)
    {
      replay := [];
      if last.Some? {
        replay := Keep(Buffer(history, topic), SeqAbove(last.value));
        ReplayIsNewestAfter(log, topic, last.value, replaySize);
      }
      DueAtFirst(log, replaySize, topic, last);
    }

    /** One pull of the generator: replay first, then the queue; the marker ends the stream. */
    method Next(s: Stream) returns (r: Pulled)
      requires Served() && s in streams
      modifies `subscribers, s`pending, s`yielded, s.sub
      ensures Served()
      ensures s.yielded == old(s.yielded) + if r.Yielded? then [r.row] else []
      ensures r.Waiting? <==> old(s.pending) == [] && old(s.sub.queue) == []
      ensures r.Finished? <==> old(s.pending) == [] && old(s.sub.queue) == [Close]
      ensures r.Finished? ==> !PortOf(s).open
      ensures forall other :: other in streams && other != s ==> PortOf(other) == old(PortOf(other))
    {
      PullKeeps(PortOf(s), s.pending, s.yielded, s.due);
      if s.pending != [] {
        r := Yielded(s.pending[0]);
        s.pending, s.yielded := s.pending[1..], s.yielded + [s.pending[0]];
      } else if s.sub.queue == [] {
        r := Waiting;
      } else if s.sub.queue[0].Close? {
        r := Finished;
        s.sub.queue := s.sub.queue[1..];
        Unregister(s);
      } else {
        r := Yielded(s.sub.queue[0].row);
        s.yielded := s.yielded + [r.row];
        s.sub.queue := s.sub.queue[1..];
      }
    }

    /** A generator closed by its consumer. */
    method Leave(s: Stream)
      requires Served() && s in streams
      modifies `subscribers
      ensures Served() && !PortOf(s).open
      ensures forall other :: other in streams && other != s ==> PortOf(other) == old(PortOf(other))
    {
      PullKeeps(PortOf(s), s.pending, s.yielded, s.due);
      Unregister(s);
    }

    /** The `finally` of `subscribe`. */
    method Unregister(s: Stream)
      requires Wired() && s in streams
      modifies `subscribers
      ensures Wired() && PortOf(s) == old(PortOf(s)).(open := false)
      ensures forall other :: other in streams && other != s ==> PortOf(other) == old(PortOf(other))
    {
      if s.topic in subscribers {
        subscribers := subscribers[s.topic := subscribers[s.topic] - {s.sub}];
      }
    }
  }

  // ---- why it works -------------------------------------------------------

  lemma LogAscends(log: seq<Row>)
    requires LogInv(log)
    ensures Ascending(log)
  {}

  lemma NewestOfTopics(log: seq<Row>, row: Row, history: map<string, seq<Row>>, n: nat)
    requires HistoryInv(log, history, n)
    ensures HistoryInv(log + [row], history[row.topic := Newest(Buffer(history, row.topic) + [row], n)], n)
  {
    assert (log + [row])[..|log|] == log;
    NewestAppend(Keep(log, OnTopic(row.topic)), n, row);
  }

  /** The replay taken from the buffer is the newest rows after `last` of the whole log. */
  lemma ReplayIsNewestAfter(log: seq<Row>, topic: string, last: int, n: nat)
    requires LogInv(log)
    ensures Keep(Newest(Keep(log, OnTopic(topic)), n), SeqAbove(last)) == Newest(Keep(log, After(topic, last)), n)
  {
    LogAscends(log);
    KeepOrder(log, OnTopic(topic));
    BufferReplay(Keep(log, OnTopic(topic)), n, last);
    KeepKeep(log, OnTopic(topic), SeqAbove(last), After(topic, last));
  }

  /** At registration a stream is due exactly its replay. */
  lemma DueAtFirst(log: seq<Row>, n: nat, topic: string, last: Option<int>)
    requires LogInv(log)
    ensures Due(log, n, topic, last, |log|) == if last.Some? then Newest(Keep(log, After(topic, last.value)), n) else []
  {
    assert log[|log|..] == [];
    if last.Some? {
      KeepSame(log, BetweenAlive(topic, last.value, |log|, {}), After(topic, last.value));
    }
  }

  /** A new event extends the streams of its topic by itself, and no other. */
  lemma DueGrows(log: seq<Row>, row: Row, n: nat, topic: string, last: Option<int>, base: nat)
    requires LogInv(log) && row.seqNo == |log| + 1 && base <= |log|
    ensures Due(log + [row], n, topic, last, base)
         == Due(log, n, topic, last, base) + if topic == row.topic then [row] else []
  {
    var grown := (log + [row])[base..];
    assert grown[..|grown| - 1] == log[base..];
    assert (log + [row])[..|log|] == log;
  }

  lemma NewStreamKeeps(replay: seq<Row>)
    ensures Keeps(Port([], true), replay, [], replay) == true
  {
    assert [] + (replay + []) == replay;
  }

  lemma ReceiveKeeps(port: Port, maxsize: int, pending: seq<Row>, yielded: seq<Row>, due: seq<Row>, row: Row)
    requires Keeps(port, pending, yielded, due)
    ensures Keeps(Receive(port, maxsize, row), pending, yielded, due + [row]) == true
    ensures Keeps(port, pending, yielded, due + []) == true
  {
    assert due + [] == due;
    if port.open {
      if Full(port.queue, maxsize) {
        assert Rows([Close]) == [];
        assert yielded + (pending + Rows(port.queue)) == yielded + (pending + []) + Rows(port.queue);
      } else {
        RowsAppend(port.queue, row);
        assert yielded + (pending + (Rows(port.queue) + [row])) == due + [row];
      }
    }
  }

  lemma PullKeeps(port: Port, pending: seq<Row>, yielded: seq<Row>, due: seq<Row>)
    requires Keeps(port, pending, yielded, due) == true
    ensures pending != [] ==> Keeps(port, pending[1..], yielded + [pending[0]], due) == true
    ensures pending == [] && port.queue != [] && port.queue[0].Item? ==>
              Keeps(Port(port.queue[1..], port.open), [], yielded + [port.queue[0].row], due) == true
    ensures port.queue != [] && port.queue[0].Close? ==>
              port.queue == [Close] && Keeps(Port(port.queue[1..], false), pending, yielded, due) == true
    ensures Keeps(Port(port.queue, false), pending, yielded, due) == true
  {
    if pending != [] {
      var first, rest := pending[0], pending[1..];
      assert yielded + (pending + Rows(port.queue)) == (yielded + [first]) + (rest + Rows(port.queue));
    } else if port.queue != [] && port.queue[0].Item? {
      RowsHead(port.queue);
      assert yielded + (pending + Rows(port.queue))
          == (yielded + [port.queue[0].row]) + (pending + Rows(port.queue[1..]));
    }
    if port.queue != [] && port.queue[0].Close? {
      assert port.queue[1..] == [] && Rows([Close]) == Rows([]);
    }
  }

  /** The in-memory bus meets the contract in every state its methods can reach: what a stream has
      yielded is a prefix of the specified rows, which ascend, and all of them when an open stream
      has nothing left to replay or take. */
  lemma DeliveryIsPrefix(bus: InMemoryEventBus, s: Stream)
    requires bus.Recorded() && bus.Served() && s in bus.streams
    ensures s.base <= |bus.log|
    ensures s.yielded <= Due(bus.log, bus.replaySize, s.topic, s.last, s.base)
    ensures Ascending(Due(bus.log, bus.replaySize, s.topic, s.last, s.base))
    ensures bus.PortOf(s) == Port([], true) && s.pending == [] ==>
              s.yielded == Due(bus.log, bus.replaySize, s.topic, s.last, s.base)
  {
    assert Keeps(bus.PortOf(s), s.pending, s.yielded, s.due);
    assert s.yielded <= s.yielded + (s.pending + Rows(bus.PortOf(s).queue));
    LogAscends(bus.log);
    SpecAscends(bus.replaySize, bus.log, s.topic, s.last, true, {}, s.base, s.base);
  }
}
