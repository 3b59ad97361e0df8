/** From a publisher's call to a subscriber's stream: a committed row is what was handed in. */
module Publishing {
  import opened Logs
  import opened Database
  import opened Queues
  import opened BusProtocol
  import opened Delivery

  // ---- the log of a run of the database ----------------------------------------

  /** How many of the steps take a number from the identity counter, committed or not. */
  function Inserts(steps: seq<DbStep>): nat {
    if steps == [] then 0
    else Inserts(steps[..|steps| - 1]) + if steps[|steps| - 1].Insert? then 1 else 0
  }

  function Commits(steps: seq<DbStep>): nat {
    if steps == [] then 0
    else Commits(steps[..|steps| - 1]) + if steps[|steps| - 1].Commit? then 1 else 0
  }

  /** Step `i` is the last insert of publisher `p` among the steps. */
  ghost predicate LastInsert(steps: seq<DbStep>, p: nat, i: nat) {
    && i < |steps| && steps[i].Insert? && steps[i].p == p
    && forall m :: i < m < |steps| ==> !(steps[m].Insert? && steps[m].p == p)
  }

  /** `row` is what step `i` handed in, with the next number. */
  ghost predicate HandedIn(steps: seq<DbStep>, i: nat, row: Row) {
    && i < |steps| && steps[i].Insert?
    && row.topic == steps[i].topic && row.kind == steps[i].kind && row.data == steps[i].data
    && row.seqNo == Inserts(steps[..i]) + 1
  }

  /** Step `j` commits `row`, which its publisher's last insert handed in. */
  ghost predicate CommittedBy(steps: seq<DbStep>, j: nat, row: Row) {
    && j < |steps| && steps[j].Commit?
    && exists i: nat :: LastInsert(steps[..j], steps[j].p, i) && HandedIn(steps, i, row)
  }

  /** What the steps so far say about the database. */
  ghost predicate Told(steps: seq<DbStep>, db: Db) {
    && db.nextSeq == Inserts(steps) + 1 && |db.log| == Commits(steps)
    && (forall p :: p in db.pubs && db.pubs[p].Inserted? ==>
          exists i: nat :: LastInsert(steps, p, i) && HandedIn(steps, i, db.pubs[p].row))
    && (forall j: nat :: j < |steps| && steps[j].Commit? ==>
          Commits(steps[..j]) < |db.log| && CommittedBy(steps, j, db.log[Commits(steps[..j])]))
  }

  lemma InsertsOf(steps: seq<DbStep>, d: DbStep)
    ensures Inserts(steps + [d]) == Inserts(steps) + if d.Insert? then 1 else 0
    ensures Commits(steps + [d]) == Commits(steps) + if d.Commit? then 1 else 0
  {
    assert (steps + [d])[..|steps|] == steps;
  }

  lemma {:induction false} CommitsGrow(steps: seq<DbStep>, j: nat)
    requires j < |steps| && steps[j].Commit?
    ensures Commits(steps[..j]) < Commits(steps)
  {
    var front := steps[..|steps| - 1];
    if j < |front| {
      assert front[..j] == steps[..j] && front[j] == steps[j];
      CommitsGrow(front, j);
    } else {
      assert steps[..j] == front;
    }
  }

  lemma StillHandedIn(steps: seq<DbStep>, d: DbStep, i: nat, row: Row)
    requires HandedIn(steps, i, row)
    ensures HandedIn(steps + [d], i, row)
  {
    assert (steps + [d])[..i] == steps[..i];
  }

  lemma StillCommitted(steps: seq<DbStep>, d: DbStep, j: nat, row: Row)
    requires CommittedBy(steps, j, row)
    ensures CommittedBy(steps + [d], j, row)
  {
    var i: nat :| LastInsert(steps[..j], steps[j].p, i) && HandedIn(steps, i, row);
    assert (steps + [d])[..j] == steps[..j];
    StillHandedIn(steps, d, i, row);
  }

  /** A publisher that is not inserting has still handed in the same row. */
  lemma PendingIsTold(db: Db, steps: seq<DbStep>, d: DbStep, p: nat)
    requires Told(steps, db) && p in db.pubs && db.pubs[p].Inserted? && !(d.Insert? && d.p == p)
    ensures exists i: nat :: LastInsert(steps + [d], p, i) && HandedIn(steps + [d], i, db.pubs[p].row)
  {
    var i: nat :| LastInsert(steps, p, i) && HandedIn(steps, i, db.pubs[p].row);
    StillHandedIn(steps, d, i, db.pubs[p].row);
    assert LastInsert(steps + [d], p, i);
  }

  lemma InsertIsTold(db: Db, steps: seq<DbStep>, d: DbStep)
    requires Told(steps, db) && d.Insert? && DbEnabled(db, d, true)
    ensures var after := DbNext(db, d, true);
            && d.p in after.pubs && after.pubs[d.p].Inserted?
            && LastInsert(steps + [d], d.p, |steps|) && HandedIn(steps + [d], |steps|, after.pubs[d.p].row)
  {
    assert (steps + [d])[..|steps|] == steps;
  }

  /** The commits so far keep their places in the log. */
  lemma CommitsStayTold(db: Db, steps: seq<DbStep>, d: DbStep, j: nat)
    requires Told(steps, db) && DbEnabled(db, d, true) && j < |steps| && steps[j].Commit?
    ensures Commits((steps + [d])[..j]) < |DbNext(db, d, true).log|
    ensures CommittedBy(steps + [d], j, DbNext(db, d, true).log[Commits((steps + [d])[..j])])
  {
    assert (steps + [d])[..j] == steps[..j];
    StillCommitted(steps, d, j, db.log[Commits(steps[..j])]);
  }

  lemma NewCommitIsTold(db: Db, steps: seq<DbStep>, d: DbStep)
    requires Told(steps, db) && d.Commit? && DbEnabled(db, d, true)
    ensures Commits((steps + [d])[..|steps|]) < |DbNext(db, d, true).log|
    ensures CommittedBy(steps + [d], |steps|, DbNext(db, d, true).log[Commits((steps + [d])[..|steps|])])
  {
    assert (steps + [d])[..|steps|] == steps;
    var row := db.pubs[d.p].row;
    var i: nat :| LastInsert(steps, d.p, i) && HandedIn(steps, i, row);
    StillHandedIn(steps, d, i, row);
  }

  lemma StepIsTold(db: Db, steps: seq<DbStep>, d: DbStep)
    requires Told(steps, db) && DbEnabled(db, d, true)
    ensures Told(steps + [d], DbNext(db, d, true))
  {
    var all, after := steps + [d], DbNext(db, d, true);
    InsertsOf(steps, d);
    forall p | p in after.pubs && after.pubs[p].Inserted?
      ensures exists i: nat :: LastInsert(all, p, i) && HandedIn(all, i, after.pubs[p].row)
    {
      if d.Insert? && d.p == p {
        InsertIsTold(db, steps, d);
      } else {
        PendingIsTold(db, steps, d, p);
      }
    }
    forall j: nat | j < |all| && all[j].Commit?
      ensures Commits(all[..j]) < |after.log| && CommittedBy(all, j, after.log[Commits(all[..j])])
    {
      if j < |steps| {
        CommitsStayTold(db, steps, d, j);
      } else {
        NewCommitIsTold(db, steps, d);
      }
    }
  }

  lemma {:induction false} RunIsTold(done: seq<DbStep>, db: Db, steps: seq<DbStep>)
    requires Told(done, db) && DbLegal(db, steps, true)
    ensures Told(done + steps, DbRun(db, steps, true))
    decreases |steps|
  {
    if steps == [] {
      assert done + steps == done;
    } else {
      StepIsTold(db, done, steps[0]);
      RunIsTold(done + [steps[0]], DbNext(db, steps[0], true), steps[1..]);
      assert done + [steps[0]] + steps[1..] == done + steps;
    }
  }

  lemma NothingIsTold()
    ensures Told([], EmptyDb())
  {
  }

  /** What a run from the empty database is told by all its steps. */
  lemma WholeRunIsTold(steps: seq<DbStep>)
    requires DbLegal(EmptyDb(), steps, true)
    ensures Told(steps, DbRun(EmptyDb(), steps, true)) == true
  {
    NothingIsTold();
    RunIsTold([], EmptyDb(), steps);
    assert [] + steps == steps;
  }

  lemma ToldMeans(steps: seq<DbStep>, db: Db)
    requires Told(steps, db)
    ensures |db.log| == Commits(steps)
    ensures forall j: nat :: j < |steps| && steps[j].Commit? ==>
              Commits(steps[..j]) < |db.log| && CommittedBy(steps, j, db.log[Commits(steps[..j])])
  {
  }

  /** Over every run of any number of publishers, with aborts and pruning: the log has one row for each commit,
      in commit order, and each row carries exactly the topic, kind and data that its publisher's insert handed
      in, and the number of inserts up to then, aborted ones included. */
  lemma LogIsWhatWasHandedIn(steps: seq<DbStep>)
    requires DbLegal(EmptyDb(), steps, true)
    ensures var log := DbRun(EmptyDb(), steps, true).log;
            && |log| == Commits(steps)
            && forall j: nat :: j < |steps| && steps[j].Commit? ==>
                 Commits(steps[..j]) < |log| && CommittedBy(steps, j, log[Commits(steps[..j])])
  {
    WholeRunIsTold(steps);
    ToldMeans(steps, DbRun(EmptyDb(), steps, true));
  }

  // ---- to the subscriber -----------------------------------------------------------

  function ServerStep(step: Step): seq<DbStep> {
    if step.Server? then [step.step] else []
  }

  /** What a run of the bus does to the database. */
  function ServerSteps(steps: seq<Step>): seq<DbStep> {
    if steps == [] then [] else ServerStep(steps[0]) + ServerSteps(steps[1..])
  }

  lemma OnlyServerSteps(cfg: Config, st: State, step: Step)
    requires Enabled(st, step)
    ensures Next(cfg, st, step).db == if step.Server? then DbNext(st.db, step.step, true) else st.db
    ensures step.Server? ==> DbEnabled(st.db, step.step, true)
  {
  }

  /** A run of the bus is a run of its database. */
  lemma {:induction false} BusRunsDatabase(cfg: Config, st: State, steps: seq<Step>)
    requires Legal(cfg, st, steps)
    ensures DbLegal(st.db, ServerSteps(steps), true)
    ensures Run(cfg, st, steps).db == DbRun(st.db, ServerSteps(steps), true)
    decreases |steps|
  {
    if steps != [] {
      var rest := ServerSteps(steps[1..]);
      OnlyServerSteps(cfg, st, steps[0]);
      BusRunsDatabase(cfg, Next(cfg, st, steps[0]), steps[1..]);
      if steps[0].Server? {
        OneDbStep(st.db, steps[0].step, rest, true);
      } else {
        assert [] + rest == rest;
      }
    }
  }

  /** The row of the commit at step `j`. */
  lemma CommittedRow(steps: seq<DbStep>, db: Db, i: nat, j: nat)
    requires Told(steps, db) && i < j < |steps| && steps[j].Commit? && LastInsert(steps[..j], steps[j].p, i)
    ensures Commits(steps[..j]) < |db.log| && HandedIn(steps, i, db.log[Commits(steps[..j])])
  {
    var row := db.log[Commits(steps[..j])];
    var n: nat :| LastInsert(steps[..j], steps[j].p, n) && HandedIn(steps, n, row);
    assert n == i;
  }

  /** The live part holds every topic row above the head from the registration on, and any other that is
      still in the table. */
  lemma RowIsLive(cfg: Config, db: Db, sub: Sub, k: nat)
    requires HeadInv(cfg, db, sub) && !sub.replay.NotYet? && k < |db.log|
    requires db.log[k].topic == sub.topic && db.log[k].seqNo > sub.head
    requires k >= sub.born || db.log[k].seqNo !in db.pruned
    ensures db.log[k] in LivePart(db, sub)
  {
    var row := db.log[k];
    if k >= sub.regPos {
      KeepMembers(db.log[sub.regPos..], After(sub.topic, sub.head));
      assert db.log[sub.regPos..][k - sub.regPos] == row;
    } else {
      LiveFrom(cfg, db, sub, row);
    }
  }

  lemma LiveFacts(cfg: Config, st: State, s: nat)
    requires Reachable(cfg, st) && s in st.subs && CaughtUp(st, s)
    ensures HeadInv(cfg, st.db, st.subs[s]) && !st.subs[s].replay.NotYet?
    ensures st.subs[s].delivered == ReplayPart(cfg, st.db, st.subs[s]) + LivePart(st.db, st.subs[s])
  {
    ReachableInv(cfg, st);
    assert SubOk(cfg, st, s);
    DeliveryIsPrefix(cfg, st, s);
  }

  lemma RowIsDelivered(cfg: Config, st: State, s: nat, k: nat)
    requires Reachable(cfg, st) && s in st.subs && CaughtUp(st, s) && k < |st.db.log|
    requires st.db.log[k].topic == st.subs[s].topic && st.db.log[k].seqNo > st.subs[s].head
    requires k >= st.subs[s].born || st.db.log[k].seqNo !in st.db.pruned
    ensures st.db.log[k] in st.subs[s].delivered
  {
    LiveFacts(cfg, st, s);
    RowIsLive(cfg, st.db, st.subs[s], k);
  }

  /** In every run of the whole bus, an event that was published reaches a live subscriber of its topic that has
      nothing waiting: a row with exactly that topic, kind and data is among those delivered, if its number is
      above the subscriber's head and it was committed after the subscriber registered or was not pruned. */
  lemma PublishedIsDelivered(cfg: Config, steps: seq<Step>, st: State, i: nat, j: nat, s: nat)
    requires Legal(cfg, Initial(), steps) && st == Run(cfg, Initial(), steps) && s in st.subs && CaughtUp(st, s)
    requires i < j < |ServerSteps(steps)| && ServerSteps(steps)[j].Commit?
    requires LastInsert(ServerSteps(steps)[..j], ServerSteps(steps)[j].p, i)
    requires ServerSteps(steps)[i].topic == st.subs[s].topic
    ensures var server := ServerSteps(steps);
            var k := Commits(server[..j]);
            && k < |st.db.log| && st.db.log[k].seqNo == Inserts(server[..i]) + 1
            && st.db.log[k].topic == server[i].topic && st.db.log[k].kind == server[i].kind
            && st.db.log[k].data == server[i].data
            && (st.db.log[k].seqNo > st.subs[s].head
                && (k >= st.subs[s].born || st.db.log[k].seqNo !in st.db.pruned) ==>
                  st.db.log[k] in st.subs[s].delivered)
  {
    var server := ServerSteps(steps);
    BusRunsDatabase(cfg, Initial(), steps);
    WholeRunIsTold(server);
    CommittedRow(server, st.db, i, j);
    var k := Commits(server[..j]);
    if st.db.log[k].seqNo > st.subs[s].head && (k >= st.subs[s].born || st.db.log[k].seqNo !in st.db.pruned) {
      RowIsDelivered(cfg, st, s, k);
    }
  }
}
