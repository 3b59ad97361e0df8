/** The parts of PostgresEventBus that run between two awaits, as the class they belong to. */
module PostgresBus {
  import opened Logs
  import opened Queues
  import opened Subscribers

  /** `max(1, queue_size // 2)`; Python's `//` rounds down, as Dafny's `/` does for the divisor 2. */
  function Chunk(queueSize: int): (chunk: nat)
    ensures chunk >= 1
    ensures queueSize >= 2 ==> 2 * chunk <= queueSize < 2 * (chunk + 1)
    ensures queueSize < 2 ==> chunk == 1
  {
    if queueSize / 2 > 1 then queueSize / 2 else 1
  }

  class PostgresEventBus {
    const queueSize: int
    var subscribers: map<string, set<Subscriber>>
    var cursor: nat

    constructor (queueSize: int, head: nat)
      ensures Valid() && cursor == head && subscribers == map[] && this.queueSize == queueSize
    {
      this.queueSize := queueSize;
      subscribers := map[];
      cursor := head;
    }

    function On(topic: string): set<Subscriber>
      reads this
    {
      if topic in subscribers then subscribers[topic] else {}
    }

    ghost function All(): set<Subscriber>
      reads this
    {
      set topic, sub | topic in subscribers && sub in subscribers[topic] :: sub
    }

    /** A subscriber is on one topic only. */
    ghost predicate Valid()
      reads this
    {
      && (forall topic, sub :: topic in subscribers && sub in subscribers[topic] ==> sub.maxsize == queueSize)
      && (forall s, t :: s in subscribers && t in subscribers && s != t ==> subscribers[s] !! subscribers[t])
    }

    /** The port of a subscriber of `topic`. */
    ghost function PortOf(sub: Subscriber, topic: string): Port
      reads this, sub
    {
      Port(sub.queue, sub in On(topic))
    }

    /** The first thing `subscribe` does. */
    method Register(topic: string) returns (sub: Subscriber)
      requires Valid()
      modifies this
      ensures Valid() && fresh(sub) && sub.queue == [] && sub.maxsize == queueSize && cursor == old(cursor)
      ensures subscribers == old(subscribers)[topic := old(On(topic)) + {sub}]
    {
      sub := new Subscriber(queueSize);
      subscribers := subscribers[topic := On(topic) + {sub}];
    }

    /** The `finally` of `subscribe`. */
    method Discard(topic: string, sub: Subscriber)
      requires Valid()
      modifies this
      ensures Valid() && cursor == old(cursor)
      ensures forall t :: On(t) == if t == topic then old(On(t)) - {sub} else old(On(t))
    {
      if topic in subscribers {
        subscribers := subscribers[topic := subscribers[topic] - {sub}];
      }
    }

    /** `_dispatch`: every subscriber of the topic receives the row, every other is left alone. */
    method Dispatch(topic: string, row: Row)
      requires Valid()
      modifies this, All()
      ensures Valid() && cursor == old(cursor) && All() <= old(All())
      ensures forall t :: On(t) <= old(On(t))
      ensures forall t, sub :: t in old(subscribers) && sub in old(subscribers[t]) ==>
                PortOf(sub, t) == if t == topic then Receive(old(PortOf(sub, t)), queueSize, row)
                    else old(PortOf(sub, t))
    {
      if topic in subscribers {
        var kept := OfferToAll(subscribers[topic], row);
        subscribers := subscribers[topic := kept];
      }
    }

    /** The loop of `_drain` from one yield to the next: it dispatches rows, moving the cursor with
        each, and stops after a whole chunk of the batch or at its end. */
    method DrainUntilYield(rows: seq<Row>, start: nat) returns (next: nat)
      requires Valid() && start < |rows| && start % Chunk(queueSize) == 0
      modifies this, All()
      ensures Valid() && All() <= old(All()) && forall t :: On(t) <= old(On(t))
      ensures next == (if start + Chunk(queueSize) <= |rows| then start + Chunk(queueSize) else |rows|)
      ensures cursor == rows[next - 1].seqNo
      ensures forall t, sub :: t in old(subscribers) && sub in old(subscribers[t]) ==>
                PortOf(sub, t) == ReceiveAll(old(PortOf(sub, t)), queueSize, t, rows[start..next])
    {
      var chunk := Chunk(queueSize);
      next := start;
      while true
        invariant Valid() && All() <= old(All()) && forall t :: On(t) <= old(On(t))
        invariant start <= next < |rows| && next - start < chunk
        invariant next > start ==> cursor == rows[next - 1].seqNo
        invariant forall t, sub :: t in old(subscribers) && sub in old(subscribers[t]) ==>
                    PortOf(sub, t) == ReceiveAll(old(PortOf(sub, t)), queueSize, t, rows[start..next])
        decreases |rows| - next
      {
        label before:
        Dispatch(rows[next].topic, rows[next]);
        forall t, sub | t in old(subscribers) && sub in old(subscribers[t])
          ensures PortOf(sub, t) == ReceiveAll(old(PortOf(sub, t)), queueSize, t, rows[start..next + 1])
        {
          assert sub !in old@before(On(t)) ==> sub !in old@before(All());
          ReceiveNext(old(PortOf(sub, t)), queueSize, t, rows, start, next);
        }
        cursor := rows[next].seqNo;
        next := next + 1;
        var whole := IsWholeChunk(start, next, chunk);
        if whole || next == |rows| {
          break;
        }
      }
    }
  }

  lemma ReceiveNext(port: Port, maxsize: int, topic: string, rows: seq<Row>, start: nat, next: nat)
    requires start <= next < |rows|
    ensures ReceiveAll(port, maxsize, topic, rows[start..next + 1])
         == var before := ReceiveAll(port, maxsize, topic, rows[start..next]);
            if rows[next].topic == topic then Receive(before, maxsize, rows[next]) else before
  {
    assert rows[start..next + 1][..next - start] == rows[start..next];
  }

  /** The test `(i + 1) % chunk == 0` of the loop. */
  method IsWholeChunk(start: nat, next: nat, chunk: nat) returns (whole: bool)
    requires start < next <= start + chunk && start % chunk == 0
    ensures whole <==> next == start + chunk
  {
    ChunkEnd(start, next - start, chunk);
    whole := next % chunk == 0;
  }

  lemma ChunkEnd(start: nat, k: nat, chunk: nat)
    requires 0 < k <= chunk && start % chunk == 0
    ensures (start + k) % chunk == 0 <==> k == chunk
  {
    var q := start / chunk;
    if k == chunk {
      assert start + k == (q + 1) * chunk + 0;
      Remainder(start + k, q + 1, 0, chunk);
    } else {
      Remainder(start + k, q, k, chunk);
    }
  }

  lemma Remainder(n: nat, q: nat, r: nat, d: nat)
    requires r < d && n == q * d + r
    ensures n % d == r
  {
    var x := n / d - q;
    assert n == n / d * d + n % d;
    assert x * d == r - n % d;
    Multiple(x, d);
  }

  lemma Multiple(x: int, d: int)
    requires d >= 0
    ensures x >= 1 ==> x * d >= d
    ensures x <= -1 ==> x * d <= -d
  {
    assert x >= 1 ==> (x - 1) * d >= 0;
    assert x <= -1 ==> (-x - 1) * d >= 0;
  }
}
