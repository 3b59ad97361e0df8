/** The shared database as the event bus sees it: publishers that lock, insert, commit and
    unlock, and pruning. Every step is one atomic action of the server. */
module Database {
  import opened Logs

  /** Where a publisher is inside the `publish_event` transaction. A publisher that is not in
      `Db.pubs` is idle or still waiting for the lock. */
  datatype Publisher = Holding | Inserted(row: Row) | Committed

  /** `nextSeq` is the identity counter. `log` is the history of every row ever committed, in
      commit order; the table holds the rows of `log` whose seq is not in `pruned`. */
  datatype Db = Db(nextSeq: nat, lock: Option<nat>, pubs: map<nat, Publisher>, log: seq<Row>, pruned: set<nat>)

  datatype DbStep =
    | Lock(p: nat)
    | Insert(p: nat, topic: string, kind: string, data: string)
    | Commit(p: nat)
    | Unlock(p: nat)
    | Abort(p: nat)
    | Prune(dead: set<nat>)

  function EmptyDb(): Db {
    Db(1, None, map[], [], {})
  }

  /** With `locking` false, `pg_advisory_xact_lock` is left out of the function. */
  predicate DbEnabled(db: Db, step: DbStep, locking: bool) {
    match step
    case Lock(p) => p !in db.pubs && (locking ==> db.lock.None?)
    case Insert(p, _, _, _) => p in db.pubs && db.pubs[p].Holding?
    case Commit(p) => p in db.pubs && db.pubs[p].Inserted?
    case Unlock(p) => p in db.pubs && db.pubs[p].Committed?
    case Abort(p) => p in db.pubs && !db.pubs[p].Committed?
    case Prune(dead) => forall d :: d in dead ==> d <= Top(db.log)
  }

  /** An insert takes a number from the identity counter that an abort does not give back; a
      commit is visible before the lock is released. */
  function DbNext(db: Db, step: DbStep, locking: bool): Db
    requires DbEnabled(db, step, locking)
  {
    match step
    case Lock(p) => db.(lock := Some(p), pubs := db.pubs[p := Holding])
    case Insert(p, topic, kind, data) =>
      db.(nextSeq := db.nextSeq + 1, pubs := db.pubs[p := Inserted(Row(db.nextSeq, topic, kind, data))])
    case Commit(p) => db.(log := db.log + [db.pubs[p].row], pubs := db.pubs[p := Committed])
    case Unlock(p) => db.(lock := None, pubs := db.pubs - {p})
    case Abort(p) => db.(lock := None, pubs := db.pubs - {p})
    case Prune(dead) => db.(pruned := db.pruned + dead)
  }

  ghost predicate DbLegal(db: Db, steps: seq<DbStep>, locking: bool)
    decreases |steps|
  {
    steps == [] || (DbEnabled(db, steps[0], locking) && DbLegal(DbNext(db, steps[0], locking), steps[1..], locking))
  }

  ghost function DbRun(db: Db, steps: seq<DbStep>, locking: bool): Db
    requires DbLegal(db, steps, locking)
    decreases |steps|
  {
    if steps == [] then db else DbRun(DbNext(db, steps[0], locking), steps[1..], locking)
  }

  /** The lock admits one publisher; the row it has inserted is newer than everything committed. */
  ghost predicate DbInv(db: Db) {
    && Ascending(db.log)
    && Top(db.log) < db.nextSeq
    && (forall i :: 0 <= i < |db.log| ==> 0 < db.log[i].seqNo <= Top(db.log))
    && (forall d :: d in db.pruned ==> d <= Top(db.log))
    && (forall p :: p in db.pubs ==> db.lock == Some(p))
    && (db.lock.Some? ==> db.lock.value in db.pubs)
    && (forall p :: p in db.pubs && db.pubs[p].Inserted? ==> Top(db.log) < db.pubs[p].row.seqNo < db.nextSeq)
  }

  /** What one step may do to the committed log and to the table. */
  ghost predicate Extends(db: Db, later: Db) {
    && db.log <= later.log
    && (forall i :: |db.log| <= i < |later.log| ==> later.log[i].seqNo > Top(db.log))
    && db.pruned <= later.pruned
  }

  lemma DbStepKeeps(db: Db, step: DbStep)
    requires DbInv(db) && DbEnabled(db, step, true)
    ensures DbInv(DbNext(db, step, true)) && Extends(db, DbNext(db, step, true))
  {}

  lemma ExtendsTransitive(a: Db, b: Db, c: Db)
    requires DbInv(a) && DbInv(b) && DbInv(c) && Extends(a, b) && Extends(b, c)
    ensures Extends(a, c)
  {
    assert Top(a.log) <= Top(b.log) by {
      if a.log != [] { assert b.log[|a.log| - 1] == a.log[|a.log| - 1]; }
    }
    forall i | |a.log| <= i < |c.log| ensures c.log[i].seqNo > Top(a.log) {
      if i < |b.log| { assert c.log[i] == b.log[i]; }
    }
  }

  /** Seq order is commit order, over every run of any number of publishers: whatever commits
      after a snapshot has a larger seq than every row the snapshot could show. */
  lemma {:induction false} SeqOrderIsCommitOrder(db: Db, steps: seq<DbStep>)
    requires DbInv(db) && DbLegal(db, steps, true)
    ensures DbInv(DbRun(db, steps, true)) && Extends(db, DbRun(db, steps, true))
    decreases |steps|
  {
    if steps != [] {
      var next := DbNext(db, steps[0], true);
      DbStepKeeps(db, steps[0]);
      SeqOrderIsCommitOrder(next, steps[1..]);
      ExtendsTransitive(db, next, DbRun(next, steps[1..], true));
    }
  }

  // ---- what a publisher can do ----------------------------------------------

  lemma OneDbStep(db: Db, step: DbStep, rest: seq<DbStep>, locking: bool)
    requires DbEnabled(db, step, locking) && DbLegal(DbNext(db, step, locking), rest, locking)
    ensures DbLegal(db, [step] + rest, locking)
    ensures DbRun(db, [step] + rest, locking) == DbRun(DbNext(db, step, locking), rest, locking)
  {
    assert ([step] + rest)[1..] == rest;
  }

  /** Whoever holds the lock can give it back: a row it has inserted is then committed, and one it has not
      inserted is not. */
  lemma HolderCanFinish(db: Db, p: nat) returns (steps: seq<DbStep>)
    requires DbInv(db) && p in db.pubs && !db.pubs[p].Holding?
    ensures DbLegal(db, steps, true)
    ensures DbRun(db, steps, true)
         == db.(lock := None, pubs := map[], log := db.log + if db.pubs[p].Inserted? then [db.pubs[p].row] else [])
  {
    assert db.pubs.Keys == {p};
    if db.pubs[p].Inserted? {
      var next := DbNext(db, Commit(p), true);
      assert next.pubs - {p} == map[];
      OneDbStep(next, Unlock(p), [], true);
      OneDbStep(db, Commit(p), [Unlock(p)], true);
      steps := [Commit(p)] + [Unlock(p)];
      assert [Unlock(p)] + [] == [Unlock(p)];
    } else {
      assert db.pubs - {p} == map[];
      OneDbStep(db, Unlock(p), [], true);
      steps := [Unlock(p)] + [];
      assert db.log + [] == db.log;
    }
  }

  /** And until its commit it can be aborted, which leaves nothing behind but a number that was taken. */
  lemma AbortLeavesNoRow(db: Db, p: nat)
    requires DbInv(db) && p in db.pubs && !db.pubs[p].Committed?
    ensures DbEnabled(db, Abort(p), true)
    ensures DbNext(db, Abort(p), true) == db.(lock := None, pubs := map[])
  {
    assert db.pubs.Keys == {p};
    assert db.pubs - {p} == map[];
  }

  /** When the lock is free any publisher can publish: its row, with the next number, is then the log's last. */
  lemma PublishCompletes(db: Db, p: nat, topic: string, kind: string, data: string) returns (steps: seq<DbStep>)
    requires DbInv(db) && db.lock == None
    ensures DbLegal(db, steps, true)
    ensures DbRun(db, steps, true)
         == db.(log := db.log + [Row(db.nextSeq, topic, kind, data)], nextSeq := db.nextSeq + 1)
  {
    var held := DbNext(db, Lock(p), true);
    var inserted := DbNext(held, Insert(p, topic, kind, data), true);
    assert db.pubs.Keys == {} && db.pubs == map[];
    DbStepKeeps(db, Lock(p));
    DbStepKeeps(held, Insert(p, topic, kind, data));
    var rest := HolderCanFinish(inserted, p);
    OneDbStep(held, Insert(p, topic, kind, data), rest, true);
    OneDbStep(db, Lock(p), [Insert(p, topic, kind, data)] + rest, true);
    steps := [Lock(p)] + ([Insert(p, topic, kind, data)] + rest);
  }

  /** Leaving the lock out breaks it: two publishers insert, and the later number commits first. */
  lemma LockIsNeeded()
    ensures exists steps :: DbLegal(EmptyDb(), steps, false) && !Ascending(DbRun(EmptyDb(), steps, false).log)
  {
    var d0 := EmptyDb();
    var s1, s2 := Lock(1), Lock(2);
    var s3, s4 := Insert(1, "items", "a", "{}"), Insert(2, "items", "b", "{}");
    var s5, s6 := Commit(2), Commit(1);
    var d1 := DbNext(d0, s1, false);
    var d2 := DbNext(d1, s2, false);
    var d3 := DbNext(d2, s3, false);
    var d4 := DbNext(d3, s4, false);
    var d5 := DbNext(d4, s5, false);
    var d6 := DbNext(d5, s6, false);
    assert d6.log == [Row(2, "items", "b", "{}"), Row(1, "items", "a", "{}")];
    var steps := [s1, s2, s3, s4, s5, s6];
    OneDbStep(d5, s6, [], false);
    OneDbStep(d4, s5, [s6], false);
    OneDbStep(d3, s4, [s5, s6], false);
    OneDbStep(d2, s3, [s4, s5, s6], false);
    OneDbStep(d1, s2, [s3, s4, s5, s6], false);
    OneDbStep(d0, s1, [s2, s3, s4, s5, s6], false);
    assert d6.log[0].seqNo > d6.log[1].seqNo;
  }

  // ---- queries ------------------------------------------------------------

  /** The rows still in the table, ordered by seq. */
  function Table(db: Db): seq<Row> {
    Keep(db.log, Alive(db.pruned))
  }

  /** `SELECT coalesce(max(seq), 0) FROM events` */
  function MaxSeq(db: Db): nat {
    Top(Table(db))
  }

  /** `SELECT … WHERE seq > cursor ORDER BY seq LIMIT n` */
  function FetchRows(db: Db, cursor: nat, n: nat): seq<Row> {
    Limit(Keep(Table(db), SeqAbove(cursor)), n)
  }

  /** The nested query of `_replay`. */
  function ReplayRows(db: Db, topic: string, last: int, upTo: nat, n: nat): seq<Row> {
    NewestByQuery(Keep(Table(db), Between(topic, last, upTo)), n)
  }

  /** Committed rows can be pruned at any time, and then exactly those are gone from the table. */
  lemma PruneRemoves(db: Db, dead: set<nat>)
    requires DbInv(db) && forall d :: d in dead ==> exists i :: 0 <= i < |db.log| && db.log[i].seqNo == d
    ensures DbEnabled(db, Prune(dead), true)
    ensures forall r :: r in Table(DbNext(db, Prune(dead), true)) <==> r in Table(db) && r.seqNo !in dead
    ensures DbNext(db, Prune(dead), true) == db.(pruned := db.pruned + dead)
  {
    KeepMembers(db.log, Alive(db.pruned));
    KeepMembers(db.log, Alive(db.pruned + dead));
  }

  /** The log head covers every committed row that has not been pruned. */
  lemma HeadCoversTable(db: Db)
    requires DbInv(db)
    ensures MaxSeq(db) <= Top(db.log)
    ensures forall i :: 0 <= i < |db.log| && db.log[i].seqNo > MaxSeq(db) ==> db.log[i].seqNo in db.pruned
  {
    var table := Table(db);
    KeepMembers(db.log, Alive(db.pruned));
    KeepOrder(db.log, Alive(db.pruned));
    if table != [] {
      assert table[|table| - 1] in db.log;
    }
    forall i | 0 <= i < |db.log| && db.log[i].seqNo !in db.pruned ensures db.log[i].seqNo <= MaxSeq(db) {
      assert db.log[i] in table;
      var k :| 0 <= k < |table| && table[k] == db.log[i];
    }
  }

  /** A pump whose cursor separates the read part of the log from the unread part fetches exactly
      the next unread rows, whatever was pruned from the read part. */
  lemma FetchIsNextRows(db: Db, cursor: nat, pos: nat, n: nat)
    requires DbInv(db) && pos <= |db.log|
    requires forall i :: 0 <= i < pos ==> db.log[i].seqNo in db.pruned || db.log[i].seqNo <= cursor
    requires forall i :: pos <= i < |db.log| ==> db.log[i].seqNo !in db.pruned && db.log[i].seqNo > cursor
    ensures FetchRows(db, cursor, n) == Limit(db.log[pos..], n)
  {
    var wanted := AliveAbove(db.pruned, cursor);
    KeepKeep(db.log, Alive(db.pruned), SeqAbove(cursor), wanted);
    KeepTail(db.log, pos, wanted);
  }

  /** The replay query over the table is the newest n of the surviving rows of the whole log. */
  lemma ReplayIsNewest(db: Db, topic: string, last: int, upTo: nat, n: nat)
    ensures ReplayRows(db, topic, last, upTo, n)
         == Newest(Keep(db.log, BetweenAlive(topic, last, upTo, db.pruned)), n)
  {
    NewestQuery(Keep(Table(db), Between(topic, last, upTo)), n);
    KeepKeep(db.log, Alive(db.pruned), Between(topic, last, upTo), BetweenAlive(topic, last, upTo, db.pruned));
  }
}
