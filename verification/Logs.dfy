/** The event log: committed rows in seq order, and the queries both buses run over it. */
module Logs {
  datatype Option<+T> = None | Some(value: T)

  /** One row of the `events` table; `kind` is the column the source calls `type`. */
  datatype Row = Row(seqNo: nat, topic: string, kind: string, data: string)

  ghost predicate Ascending(rows: seq<Row>) {
    forall i, j :: 0 <= i < j < |rows| ==> rows[i].seqNo < rows[j].seqNo
  }

  /** The largest seq of an ascending log, `coalesce(max(seq), 0)`. */
  function Top(rows: seq<Row>): nat {
    if rows == [] then 0 else rows[|rows| - 1].seqNo
  }

  // ---- WHERE clauses ------------------------------------------------------

  function Keep(rows: seq<Row>, p: Row -> bool): seq<Row> {
    if rows == [] then []
    else
      var rest := Keep(rows[..|rows| - 1], p);
      if p(rows[|rows| - 1]) then rest + [rows[|rows| - 1]] else rest
  }

  /** `topic = t AND seq > lo` */
  function After(topic: string, lo: int): Row -> bool {
    (r: Row) => r.topic == topic && r.seqNo > lo
  }

  /** `topic = t AND seq > lo AND seq <= hi` */
  function Between(topic: string, lo: int, hi: int): Row -> bool {
    (r: Row) => r.topic == topic && lo < r.seqNo <= hi
  }

  /** The same, over the rows that pruning has left in the table. */
  function BetweenAlive(topic: string, lo: int, hi: int, pruned: set<nat>): Row -> bool {
    (r: Row) => r.topic == topic && lo < r.seqNo <= hi && r.seqNo !in pruned
  }

  function OnTopic(topic: string): Row -> bool {
    (r: Row) => r.topic == topic
  }

  function SeqAbove(lo: int): Row -> bool {
    (r: Row) => r.seqNo > lo
  }

  function SeqUpTo(hi: int): Row -> bool {
    (r: Row) => r.seqNo <= hi
  }

  function Alive(pruned: set<nat>): Row -> bool {
    (r: Row) => r.seqNo !in pruned
  }

  function AliveAbove(pruned: set<nat>, lo: int): Row -> bool {
    (r: Row) => r.seqNo !in pruned && r.seqNo > lo
  }

  lemma {:induction false} KeepConcat(a: seq<Row>, b: seq<Row>, p: Row -> bool)
    ensures Keep(a + b, p) == Keep(a, p) + Keep(b, p)
  {
    if b == [] {
      assert a + b == a;
    } else {
      KeepConcat(a, b[..|b| - 1], p);
      assert (a + b)[..|a + b| - 1] == a + b[..|b| - 1];
    }
  }

  lemma {:induction false} KeepSame(rows: seq<Row>, p: Row -> bool, q: Row -> bool)
    requires forall i :: 0 <= i < |rows| ==> p(rows[i]) == q(rows[i])
    ensures Keep(rows, p) == Keep(rows, q)
  {
    if rows != [] {
      KeepSame(rows[..|rows| - 1], p, q);
    }
  }

  lemma {:induction false} KeepNone(rows: seq<Row>, p: Row -> bool)
    ensures Keep(rows, p) == [] <==> forall i :: 0 <= i < |rows| ==> !p(rows[i])
  {
    if rows != [] {
      KeepNone(rows[..|rows| - 1], p);
      assert forall i :: 0 <= i < |rows| - 1 ==> rows[..|rows| - 1][i] == rows[i];
    }
  }

  lemma {:induction false} KeepAll(rows: seq<Row>, p: Row -> bool)
    requires forall i :: 0 <= i < |rows| ==> p(rows[i])
    ensures Keep(rows, p) == rows
  {
    if rows != [] {
      KeepAll(rows[..|rows| - 1], p);
    }
  }

  /** A predicate that fails on the first `cut` rows and holds on the others keeps the others. */
  lemma KeepTail(rows: seq<Row>, cut: nat, p: Row -> bool)
    requires cut <= |rows|
    requires forall i :: 0 <= i < cut ==> !p(rows[i])
    requires forall i :: cut <= i < |rows| ==> p(rows[i])
    ensures Keep(rows, p) == rows[cut..]
  {
    var front, tail := rows[..cut], rows[cut..];
    assert rows == front + tail;
    KeepConcat(front, tail, p);
    KeepNone(front, p);
    KeepAll(tail, p);
  }

  /** Filtering twice is filtering by the conjunction `both`. */
  lemma {:induction false} KeepKeep(rows: seq<Row>, p: Row -> bool, q: Row -> bool, both: Row -> bool)
    requires forall i :: 0 <= i < |rows| ==> both(rows[i]) == (p(rows[i]) && q(rows[i]))
    ensures Keep(Keep(rows, p), q) == Keep(rows, both)
  {
    if rows != [] {
      KeepKeep(rows[..|rows| - 1], p, q, both);
      KeepConcat(Keep(rows[..|rows| - 1], p), [rows[|rows| - 1]], q);
    }
  }

  lemma {:induction false} KeepMembers(rows: seq<Row>, p: Row -> bool)
    ensures forall r :: r in Keep(rows, p) <==> r in rows && p(r)
  {
    if rows != [] {
      var front, last := rows[..|rows| - 1], rows[|rows| - 1];
      KeepMembers(front, p);
      assert rows == front + [last];
    }
  }

  lemma {:induction false} KeepOrder(rows: seq<Row>, p: Row -> bool)
    requires Ascending(rows)
    ensures Ascending(Keep(rows, p))
  {
    if rows != [] {
      var front, last := rows[..|rows| - 1], rows[|rows| - 1];
      KeepOrder(front, p);
      KeepMembers(front, p);
      forall i | 0 <= i < |Keep(front, p)| ensures Keep(front, p)[i].seqNo < last.seqNo {
        assert Keep(front, p)[i] in front;
      }
    }
  }

  /** In an ascending log the rows up to a bound come first. */
  lemma {:induction false} SplitAt(rows: seq<Row>, topic: string, lo: int, hi: int)
    requires Ascending(rows)
    ensures Keep(rows, After(topic, lo))
         == Keep(rows, Between(topic, lo, hi)) + Keep(rows, After(topic, if lo > hi then lo else hi))
  {
    var top := if lo > hi then lo else hi;
    if rows != [] {
      var front, last := rows[..|rows| - 1], rows[|rows| - 1];
      SplitAt(front, topic, lo, hi);
      if last.seqNo <= top {
        KeepNone(front, After(topic, top));
        assert forall i :: 0 <= i < |front| ==> front[i] == rows[i];
      }
    }
  }

  // ---- ORDER BY seq DESC LIMIT n, ORDER BY seq ---------------------------

  /** The `n` rows with the largest seq, oldest first. */
  function Newest(rows: seq<Row>, n: nat): seq<Row> {
    if |rows| <= n then rows else rows[|rows| - n..]
  }

  function Limit(rows: seq<Row>, n: nat): seq<Row> {
    if |rows| <= n then rows else rows[..n]
  }

  function Reversed(rows: seq<Row>): (r: seq<Row>)
    ensures |r| == |rows|
    ensures forall i :: 0 <= i < |rows| ==> r[i] == rows[|rows| - 1 - i]
  {
    if rows == [] then [] else [rows[|rows| - 1]] + Reversed(rows[..|rows| - 1])
  }

  /** The nested query of `_replay` reads newest-first, limits, and turns the result round again. */
  function NewestByQuery(rows: seq<Row>, n: nat): seq<Row> {
    Reversed(Limit(Reversed(rows), n))
  }

  lemma NewestQuery(rows: seq<Row>, n: nat)
    ensures NewestByQuery(rows, n) == Newest(rows, n)
  {
    var limited := Limit(Reversed(rows), n);
    assert |Reversed(limited)| == |Newest(rows, n)|;
    forall i | 0 <= i < |limited| ensures Reversed(limited)[i] == Newest(rows, n)[i] {}
  }

  // ---- what a subscription is specified to yield --------------------------

  /** The contract both buses are held to. A subscriber whose starting point is `head` gets the
      newest `n` surviving topic rows in (last, head], if it asked for a replay and got one, and
      then every topic row above `head` from position `from` of the log on. */
  ghost function StreamSpec(n: nat, log: seq<Row>, topic: string, last: Option<int>, served: bool,
                            pruned: set<nat>, head: nat, from: nat): seq<Row>
    requires from <= |log|
  {
    (if served && last.Some? then Newest(Keep(log, BetweenAlive(topic, last.value, head, pruned)), n) else [])
    + Keep(log[from..], After(topic, head))
  }

  /** The contract never repeats or reorders a row. */
  lemma SpecAscends(n: nat, log: seq<Row>, topic: string, last: Option<int>, served: bool,
                    pruned: set<nat>, head: nat, from: nat)
    requires Ascending(log) && from <= |log|
    ensures Ascending(StreamSpec(n, log, topic, last, served, pruned, head, from))
  {
    var live := Keep(log[from..], After(topic, head));
    KeepOrder(log[from..], After(topic, head));
    KeepMembers(log[from..], After(topic, head));
    if served && last.Some? {
      var window := Keep(log, BetweenAlive(topic, last.value, head, pruned));
      KeepOrder(log, BetweenAlive(topic, last.value, head, pruned));
      KeepMembers(log, BetweenAlive(topic, last.value, head, pruned));
      JoinAscends(window, live, n, head);
    } else {
      assert [] + live == live;
    }
  }

  lemma JoinAscends(window: seq<Row>, live: seq<Row>, n: nat, head: nat)
    requires Ascending(window) && Ascending(live)
    requires forall r :: r in window ==> r.seqNo <= head
    requires forall r :: r in live ==> r.seqNo > head
    ensures Ascending(Newest(window, n) + live)
  {
    var replay := Newest(window, n);
    forall i, j | 0 <= i < |replay| && 0 <= j < |live| ensures replay[i].seqNo < live[j].seqNo {
      assert replay[i] in window && live[j] in live;
    }
  }

  // ---- the in-memory replay buffer ---------------------------------------

  /** `deque(maxlen=n).append(x)` keeps exactly the newest n. */
  lemma NewestAppend(rows: seq<Row>, n: nat, r: Row)
    ensures Newest(Newest(rows, n) + [r], n) == Newest(rows + [r], n)
  {
    if |rows| > n {
      var tail := rows[|rows| - n..];
      assert Newest(rows + [r], n) == (rows + [r])[|rows| + 1 - n..];
    }
  }

  /** Filtering a buffer of the newest n by `id > last` is the newest n of the rows after `last`. */
  lemma BufferReplay(rows: seq<Row>, n: nat, last: int)
    requires Ascending(rows)
    ensures Keep(Newest(rows, n), SeqAbove(last)) == Newest(Keep(rows, SeqAbove(last)), n)
  {
    if |rows| <= n {
      KeepLength(rows, SeqAbove(last));
    } else if n > 0 {
      var front, tail := rows[..|rows| - n], rows[|rows| - n..];
      assert rows == front + tail;
      FrontOrTail(front, tail, last);
      NewestOfTail(front, tail, SeqAbove(last));
    }
  }

  lemma FrontOrTail(front: seq<Row>, tail: seq<Row>, last: int)
    requires Ascending(front + tail) && tail != []
    ensures Keep(front, SeqAbove(last)) == [] || Keep(tail, SeqAbove(last)) == tail
  {
    var rows := front + tail;
    assert forall i :: 0 <= i < |front| ==> front[i] == rows[i];
    assert forall i :: 0 <= i < |tail| ==> tail[i] == rows[|front| + i];
    if tail[0].seqNo > last {
      KeepAll(tail, SeqAbove(last));
    } else {
      KeepNone(front, SeqAbove(last));
    }
  }

  lemma NewestOfTail(front: seq<Row>, tail: seq<Row>, p: Row -> bool)
    requires Keep(front, p) == [] || Keep(tail, p) == tail
    ensures Newest(Keep(front + tail, p), |tail|) == Keep(tail, p)
  {
    KeepConcat(front, tail, p);
    KeepLength(tail, p);
  }

  lemma {:induction false} KeepLength(rows: seq<Row>, p: Row -> bool)
    ensures |Keep(rows, p)| <= |rows|
  {
    if rows != [] {
      KeepLength(rows[..|rows| - 1], p);
    }
  }

  /** Once the front part of an ascending log has been read, what follows its last id is the rest. */
  lemma ResumePoint(rows: seq<Row>, lo: int, n: nat)
    requires Ascending(rows) && 0 < n <= |Keep(rows, SeqAbove(lo))|
    ensures Keep(rows, SeqAbove(Keep(rows, SeqAbove(lo))[n - 1].seqNo)) == Keep(rows, SeqAbove(lo))[n..]
  {
    var all := Keep(rows, SeqAbove(lo));
    var mid := all[n - 1].seqNo;
    KeepOrder(rows, SeqAbove(lo));
    KeepMembers(rows, SeqAbove(lo));
    assert all[n - 1] in all;
    KeepKeep(rows, SeqAbove(lo), SeqAbove(mid), SeqAbove(mid));
    CutAbove(all, n);
  }

  lemma CutAbove(rows: seq<Row>, n: nat)
    requires Ascending(rows) && 0 < n <= |rows|
    ensures Keep(rows, SeqAbove(rows[n - 1].seqNo)) == rows[n..]
  {
    KeepTail(rows, n, SeqAbove(rows[n - 1].seqNo));
  }
}
