/** The subscriber objects both buses hand rows to, and the loop that hands them out. */
module Subscribers {
  import opened Logs
  import opened Queues

  class Subscriber {
    const maxsize: int
    var queue: seq<Slot>

    constructor (maxsize: int)
      ensures this.maxsize == maxsize && queue == []
    {
      this.maxsize := maxsize;
      queue := [];
    }

    /** `_close_subscriber`: drop the backlog, then leave the marker. */
    method CloseStream()
      modifies this
      ensures queue == [Close]
    {
      while queue != []
        decreases |queue|
      {
        queue := queue[1..];
      }
      queue := queue + [Close];
    }
  }

  /** Offer one row to every subscriber of a topic, whatever the order they come in. A full one is
      closed and not kept. */
  method OfferToAll(subs: set<Subscriber>, row: Row) returns (kept: set<Subscriber>)
    modifies subs
    ensures forall sub :: sub in subs ==> sub.queue == Offer(old(sub.queue), sub.maxsize, row)
    ensures kept == set sub | sub in subs && !old(Full(sub.queue, sub.maxsize))
  {
    kept := subs;
    var todo := subs;
    while todo != {}
      invariant todo <= subs
      invariant forall sub :: sub in todo ==> sub.queue == old(sub.queue)
      invariant forall sub :: sub in subs - todo ==> sub.queue == Offer(old(sub.queue), sub.maxsize, row)
      invariant kept == set sub | sub in subs && (sub in todo || !old(Full(sub.queue, sub.maxsize)))
    {
      var sub :| sub in todo;
      todo := todo - {sub};
      if Full(sub.queue, sub.maxsize) {
        kept := kept - {sub};
        sub.CloseStream();
      } else {
        sub.queue := sub.queue + [Item(row)];
      }
    }
  }
}
