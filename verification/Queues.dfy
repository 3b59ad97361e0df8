/** A subscriber's bounded queue: the rows waiting for it, or the close marker alone. */
module Queues {
  import opened Logs

  datatype Slot = Item(row: Row) | Close

  /** `asyncio.Queue.full()`: a size of zero or less is no bound. */
  predicate Full(queue: seq<Slot>, maxsize: int) {
    0 < maxsize <= |queue|
  }

  /** `put_nowait`, and on `QueueFull` the slow-consumer policy: drop the backlog, leave the marker. */
  function Offer(queue: seq<Slot>, maxsize: int, row: Row): seq<Slot> {
    if Full(queue, maxsize) then [Close] else queue + [Item(row)]
  }

  function Rows(queue: seq<Slot>): seq<Row> {
    if queue == [] then []
    else
      var rest := Rows(queue[..|queue| - 1]);
      match queue[|queue| - 1]
      case Item(row) => rest + [row]
      case Close => rest
  }

  ghost predicate AllItems(queue: seq<Slot>) {
    forall i :: 0 <= i < |queue| ==> queue[i].Item?
  }

  lemma {:induction false} RowsHead(queue: seq<Slot>)
    requires queue != [] && queue[0].Item?
    ensures Rows(queue) == [queue[0].row] + Rows(queue[1..])
  {
    if |queue| > 1 {
      RowsHead(queue[..|queue| - 1]);
      assert queue[..|queue| - 1][1..] == queue[1..][..|queue| - 2];
    }
  }

  lemma RowsAppend(queue: seq<Slot>, row: Row)
    ensures Rows(queue + [Item(row)]) == Rows(queue) + [row]
  {
    assert (queue + [Item(row)])[..|queue|] == queue;
  }

  /** A queue together with whether its subscriber is still on the topic. */
  datatype Port = Port(queue: seq<Slot>, open: bool)

  function Receive(port: Port, maxsize: int, row: Row): Port {
    if port.open then Port(Offer(port.queue, maxsize, row), !Full(port.queue, maxsize)) else port
  }

  /** The overflow policy in numbers: an open port takes the row exactly if it is unbounded or holds fewer than
      `maxsize` slots, and otherwise is left with the marker alone; so a bounded queue never grows beyond it. */
  lemma OverflowIsExact(port: Port, maxsize: int, row: Row)
    requires port.open
    ensures Receive(port, maxsize, row).open <==> maxsize <= 0 || |port.queue| < maxsize
    ensures Receive(port, maxsize, row).queue
         == if maxsize <= 0 || |port.queue| < maxsize then port.queue + [Item(row)] else [Close]
    ensures maxsize > 0 ==> |Receive(port, maxsize, row).queue| <= maxsize
  {
  }

  /** What the rows of one topic do to a port, in order. */
  function ReceiveAll(port: Port, maxsize: int, topic: string, rows: seq<Row>): Port {
    if rows == [] then port
    else
      var before := ReceiveAll(port, maxsize, topic, rows[..|rows| - 1]);
      var last := rows[|rows| - 1];
      if last.topic == topic then Receive(before, maxsize, last) else before
  }

  /** A port that was not closed has queued exactly the topic's rows, behind what it held. */
  lemma {:induction false} OpenPortHoldsAll(port: Port, maxsize: int, topic: string, rows: seq<Row>)
    ensures var after := ReceiveAll(port, maxsize, topic, rows);
      && (after.open ==> port.open && Rows(after.queue) == Rows(port.queue) + Keep(rows, OnTopic(topic)))
      && (port.open && !after.open ==> after.queue == [Close])
      && (!port.open ==> after == port)
  {
    if rows != [] {
      var last := rows[|rows| - 1];
      OpenPortHoldsAll(port, maxsize, topic, rows[..|rows| - 1]);
      RowsAppend(ReceiveAll(port, maxsize, topic, rows[..|rows| - 1]).queue, last);
    }
  }
}
