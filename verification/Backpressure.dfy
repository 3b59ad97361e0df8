/** Chunked dispatch against the slow-consumer policy: who gets disconnected? */
module Backpressure {
  import opened Logs
  import opened Queues
  import opened PostgresBus

  /** The pump dispatches `rows`, yields, and the consumer gets to take up to `taken` items. */
  datatype Round = Round(rows: seq<Row>, taken: nat)

  function Consumed(port: Port, taken: nat): Port {
    if taken >= |port.queue| then Port([], port.open) else Port(port.queue[taken..], port.open)
  }

  function Play(port: Port, maxsize: int, topic: string, rounds: seq<Round>): Port
    decreases |rounds|
  {
    if rounds == [] then port
    else Play(Consumed(ReceiveAll(port, maxsize, topic, rounds[0].rows), rounds[0].taken), maxsize, topic, rounds[1..])
  }

  /** The consumer empties its queue at least once in every two consecutive yields; `owing` says
      that it did not at the previous one. */
  ghost predicate Healthy(port: Port, maxsize: int, topic: string, rounds: seq<Round>, owing: bool)
    decreases |rounds|
  {
    rounds == [] ||
    (var met := ReceiveAll(port, maxsize, topic, rounds[0].rows);
     var emptied := rounds[0].taken >= |met.queue|;
     (owing ==> emptied) && Healthy(Consumed(met, rounds[0].taken), maxsize, topic, rounds[1..], !emptied))
  }

  /** Between two yields the pump dispatches at most a chunk (PostgresEventBus.DrainUntilYield). */
  ghost predicate Chunked(rounds: seq<Round>, maxsize: int) {
    forall i :: 0 <= i < |rounds| ==> |rounds[i].rows| <= Chunk(maxsize)
  }

  lemma {:induction false} RoomForRows(port: Port, maxsize: int, topic: string, rows: seq<Row>)
    requires port.open && (maxsize <= 0 || |port.queue| + |rows| <= maxsize)
    ensures var after := ReceiveAll(port, maxsize, topic, rows);
      after.open && |after.queue| <= |port.queue| + |rows|
  {
    if rows != [] {
      RoomForRows(port, maxsize, topic, rows[..|rows| - 1]);
    }
  }

  /** A healthy consumer is never disconnected and its backlog never exceeds two chunks, which fit
      the queue: for every queue size but one (zero and less are unbounded). */
  lemma {:induction false} HealthyConsumerSurvives(port: Port, maxsize: int, topic: string, rounds: seq<Round>,
      owing: bool, next: seq<Row>)
    requires maxsize != 1 && Chunked(rounds, maxsize) && |next| <= Chunk(maxsize)
    requires port.open && |port.queue| <= (if owing then Chunk(maxsize) else 0)
    requires Healthy(port, maxsize, topic, rounds, owing)
    ensures var after := ReceiveAll(Play(port, maxsize, topic, rounds), maxsize, topic, next);
      after.open && |after.queue| <= 2 * Chunk(maxsize)
    ensures maxsize > 0 ==> 2 * Chunk(maxsize) <= maxsize
    decreases |rounds|
  {
    if rounds == [] {
      RoomForRows(port, maxsize, topic, next);
    } else {
      var met := ReceiveAll(port, maxsize, topic, rounds[0].rows);
      RoomForRows(port, maxsize, topic, rounds[0].rows);
      HealthyConsumerSurvives(Consumed(met, rounds[0].taken), maxsize, topic, rounds[1..],
                              rounds[0].taken < |met.queue|, next);
    }
  }

  lemma ReceiveOne(port: Port, maxsize: int, row: Row)
    ensures ReceiveAll(port, maxsize, row.topic, [row]) == Receive(port, maxsize, row)
  {
    assert [row][..0] == [];
  }

  /** A queue of one cannot keep the promise: two rows, one yield between them, and the stream is
      closed although the consumer was due to empty its queue at the next yield. */
  lemma QueueOfOneDropsHealthyConsumer(topic: string)
    ensures exists rounds, next ::
      && Chunked(rounds, 1) && |next| <= Chunk(1)
      && Healthy(Port([], true), 1, topic, rounds, false)
      && !ReceiveAll(Play(Port([], true), 1, topic, rounds), 1, topic, next).open
  {
    var a, b := Row(1, topic, "a", "{}"), Row(2, topic, "b", "{}");
    var rounds := [Round([a], 0)];
    var met := ReceiveAll(Port([], true), 1, topic, [a]);
    ReceiveOne(Port([], true), 1, a);
    ReceiveOne(Port([Item(a)], true), 1, b);
    assert rounds[1..] == [];
    assert Healthy(Port([], true), 1, topic, rounds, false);
    assert Play(Port([], true), 1, topic, rounds) == Port([Item(a)], true);
    assert Chunked(rounds, 1) && |[b]| <= Chunk(1);
  }
}
