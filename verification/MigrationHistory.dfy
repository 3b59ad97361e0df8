/** Many containers, each with its own version of the code, migrating one database: every run is one
    transaction under the advisory lock, and its steps interleave with the others' in any way. */
module MigrationHistory {
  import opened Logs
  import opened Migrations

  // Below, `== true` makes the verifier pass a predicate on as one fact instead of taking it apart.

  /** The committed state: the recorded versions, and every migration whose SQL was committed, in order. */
  datatype Db = Db(applied: Applied, effects: seq<Migration>)

  /** A container between starting a run and ending it; its transaction `began` at some time. `table` is
      schema_migrations as that open transaction sees it, `ran` what it has executed there and `late` whether
      it found work out of order. */
  datatype Runner = Waiting(code: Layout, began: int)
                  | Holding(code: Layout, began: int)
                  | Applying(code: Layout, began: int, table: Applied, ran: seq<Migration>,
                             todo: seq<Migration>, late: bool)

  /** `warned`: some run that committed had warned "out of order". */
  datatype State = State(db: Db, lock: Option<nat>, runners: map<nat, Runner>, warned: bool)

  datatype Step =
    | Start(id: nat, code: Layout, now: int)
    | Acquire(id: nat)
    | Read(id: nat)
    | Execute(id: nat)
    | Commit(id: nat)
    | Fail(id: nat)

  function Files(applied: Applied, code: Layout): seq<Migration> {
    Pending(applied, code.versioned) + code.repeatable
  }

  ghost predicate NoDrift(applied: Applied, code: Layout) {
    forall v :: !Drifts(applied, code.versioned, v)
  }

  /** Something pending is older than something applied. */
  ghost predicate OutOfOrder(applied: Applied, code: Layout) {
    exists m, u :: m in Pending(applied, code.versioned) && u in applied && m.version.Some? && m.version.value < u
  }

  ghost predicate Enabled(hash: string -> string, st: State, step: Step) {
    match step
    case Start(id, code, _) => id !in st.runners && WellFormed(hash, code)
    case Acquire(id) => id in st.runners && st.runners[id].Waiting? && st.lock == None
    case Read(id) => id in st.runners && st.runners[id].Holding?
    case Execute(id) => id in st.runners && st.runners[id].Applying? && st.runners[id].todo != []
    case Commit(id) => id in st.runners && st.runners[id].Applying? && st.runners[id].todo == []
    case Fail(id) => id in st.runners
  }

  /** The transaction of a runner ends; the lock goes with it. */
  function Ended(st: State, id: nat): State {
    st.(runners := st.runners - {id}, lock := if st.lock == Some(id) then None else st.lock)
  }

  /** The read under the lock and the drift check, which ends the run if it fails. */
  ghost function AfterRead(st: State, id: nat, code: Layout, began: int): State {
    if NoDrift(st.db.applied, code) then
      st.(runners := st.runners[id := Applying(code, began, st.db.applied, [], Files(st.db.applied, code),
          OutOfOrder(st.db.applied, code))])
    else Ended(st, id)
  }

  function AfterExecute(st: State, id: nat, r: Runner): State
    requires r.Applying? && r.todo != []
  {
    st.(runners := st.runners[id := r.(table := RecordOne(r.table, r.todo[0], r.began), ran := r.ran + [r.todo[0]],
        todo := r.todo[1..])])
  }

  function AfterCommit(st: State, id: nat, r: Runner): State
    requires r.Applying?
  {
    Ended(st, id).(db := Db(r.table, st.db.effects + r.ran), warned := st.warned || r.late)
  }

  /** `Fail` is any end without a commit: a lock or statement timeout, SQL that raises, a lost connection. */
  ghost function Next(hash: string -> string, st: State, step: Step): State
    requires Enabled(hash, st, step)
  {
    match step
    case Start(id, code, now) => st.(runners := st.runners[id := Waiting(code, now)])
    case Acquire(id) => st.(runners := st.runners[id := Holding(st.runners[id].code, st.runners[id].began)],
        lock := Some(id))
    case Read(id) => AfterRead(st, id, st.runners[id].code, st.runners[id].began)
    case Execute(id) => AfterExecute(st, id, st.runners[id])
    case Commit(id) => AfterCommit(st, id, st.runners[id])
    case Fail(id) => Ended(st, id)
  }

  const EMPTY: State := State(Db(map[], []), None, map[], false)

  ghost predicate Legal(hash: string -> string, st: State, steps: seq<Step>)
    decreases |steps|
  {
    steps == [] || (Enabled(hash, st, steps[0]) && Legal(hash, Next(hash, st, steps[0]), steps[1..]))
  }

  ghost function Run(hash: string -> string, st: State, steps: seq<Step>): State
    requires Legal(hash, st, steps)
    decreases |steps|
  {
    if steps == [] then st else Run(hash, Next(hash, st, steps[0]), steps[1..])
  }

  // ---- what the database always satisfies ----------------------------------------------------

  /** No version is committed twice. */
  ghost predicate Once(effects: seq<Migration>) {
    forall j, k :: 0 <= j < k < |effects| && effects[j].version.Some? ==> effects[j].version != effects[k].version
  }

  /** Each record holds the name, and the checksum of the text, that was executed. */
  ghost predicate Truthful(hash: string -> string, applied: Applied, ms: seq<Migration>) {
    forall m :: m in ms && m.version.Some? ==>
      m.version.value in applied && applied[m.version.value].name == m.name
      && applied[m.version.value].checksum == Checksum(hash, m.sql)
  }

  /** The effects and the table agree: one committed execution, of the recorded text, per recorded version. */
  ghost predicate Ledger(hash: string -> string, db: Db) {
    && Once(db.effects)
    && Truthful(hash, db.applied, db.effects)
    && (forall v :: v in db.applied ==> Known(db.effects, v))
  }

  /** Versions were committed in ascending order. */
  ghost predicate Rises(effects: seq<Migration>) {
    forall j, k :: 0 <= j < k < |effects| && effects[j].version.Some? && effects[k].version.Some? ==>
      effects[j].version.value < effects[k].version.value
  }

  // ---- a run is atomic -------------------------------------------------------------------------

  /** Where a run that has executed `ran` of its files stands, against the committed state. */
  ghost predicate InStep(hash: string -> string, db: Db, r: Runner) {
    && WellFormed(hash, r.code)
    && (r.Applying? ==>
          && NoDrift(db.applied, r.code) && r.late == OutOfOrder(db.applied, r.code)
          && r.ran + r.todo == Files(db.applied, r.code)
          && r.table == RecordAll(db.applied, r.ran, r.began))
  }

  /** Only the lock's holder is past waiting, and the committed state is still the one it read. */
  ghost predicate Serial(hash: string -> string, st: State) {
    && (forall id :: id in st.runners ==> InStep(hash, st.db, st.runners[id]))
    && (forall id :: id in st.runners && !st.runners[id].Waiting? ==> st.lock == Some(id))
  }

  lemma ExecuteKeepsInStep(hash: string -> string, st: State, id: nat, r: Runner)
    requires InStep(hash, st.db, r) && r.Applying? && r.todo != []
    ensures InStep(hash, st.db, AfterExecute(st, id, r).runners[id]) == true
  {
    var next := AfterExecute(st, id, r).runners[id];
    assert next.ran[..|r.ran|] == r.ran;
    assert next.ran + next.todo == r.ran + r.todo;
  }

  lemma ReadKeepsInStep(hash: string -> string, db: Db, code: Layout, began: int)
    requires WellFormed(hash, code) && NoDrift(db.applied, code)
    ensures InStep(hash, db, Applying(code, began, db.applied, [], Files(db.applied, code),
                                      OutOfOrder(db.applied, code))) == true
  {
    assert [] + Files(db.applied, code) == Files(db.applied, code);
  }

  lemma StepKeepsSerial(hash: string -> string, st: State, step: Step)
    requires Serial(hash, st) && Enabled(hash, st, step)
    ensures Serial(hash, Next(hash, st, step))
  {
    match step
    case Read(id) =>
      if NoDrift(st.db.applied, st.runners[id].code) {
        ReadKeepsInStep(hash, st.db, st.runners[id].code, st.runners[id].began);
      }
    case Execute(id) => ExecuteKeepsInStep(hash, st, id, st.runners[id]);
    case _ =>
  }

  /** A whole run at once, as one transaction. */
  ghost predicate RanWhole(before: Db, after: Db, code: Layout, began: int) {
    && NoDrift(before.applied, code)
    && after == Db(RecordAll(before.applied, Files(before.applied, code), began),
        before.effects + Files(before.applied, code))
  }

  /** However runs interleave, a step leaves the committed state alone or is the commit of a run that has
      the effect of the whole run done at once on that state. */
  lemma RunsAreAtomic(hash: string -> string, st: State, step: Step)
    requires Serial(hash, st) && Enabled(hash, st, step)
    ensures var after := Next(hash, st, step);
            if step.Commit? then
              var r := st.runners[step.id];
              && RanWhole(st.db, after.db, r.code, r.began)
              && after.db.effects == st.db.effects + Pending(st.db.applied, r.code.versioned) + r.code.repeatable
              && after.db.applied == RecordAll(st.db.applied, Pending(st.db.applied, r.code.versioned), r.began)
              && after.warned == (st.warned || OutOfOrder(st.db.applied, r.code))
            else after.db == st.db && after.warned == st.warned
  {
    if step.Commit? {
      var r := st.runners[step.id];
      assert r.ran + [] == r.ran;
      RepeatablesAreNotRecorded(st.db.applied, Pending(st.db.applied, r.code.versioned), r.code.repeatable, r.began);
    }
  }

  /** The drift check lets a run go on exactly if no recorded file was changed; otherwise the run is over and
      the lock free. */
  lemma ReadDecides(hash: string -> string, st: State, id: nat)
    requires Serial(hash, st) && Enabled(hash, st, Read(id))
    ensures var after := Next(hash, st, Read(id));
            var code := st.runners[id].code;
            if exists v :: Drifts(st.db.applied, code.versioned, v) then id !in after.runners && after.lock == None
            else id in after.runners && after.runners[id].Applying? && after.runners[id].ran == []
                 && after.runners[id].todo == Pending(st.db.applied, code.versioned) + code.repeatable
  {
  }

  /** A run can start at any time, other runs or not; it then waits, and the database is as it was. */
  lemma RunsCanStart(hash: string -> string, st: State, id: nat, code: Layout, now: int)
    requires id !in st.runners && WellFormed(hash, code)
    ensures Enabled(hash, st, Start(id, code, now))
    ensures var after := Next(hash, st, Start(id, code, now));
            && after.runners == st.runners[id := Waiting(code, now)]
            && after.db == st.db && after.lock == st.lock && after.warned == st.warned
  {
  }

  /** A run can end without a commit wherever it stands: what it executed leaves no trace, its lock is free again
      if it held it, and no other run notices. */
  lemma FailureLeavesNoTrace(hash: string -> string, st: State, id: nat)
    requires Serial(hash, st) && id in st.runners
    ensures Enabled(hash, st, Fail(id))
    ensures var after := Next(hash, st, Fail(id));
            && after.db == st.db && after.warned == st.warned
            && (!st.runners[id].Waiting? ==> after.lock == None)
            && (st.runners[id].Waiting? && st.lock != Some(id) ==> after.lock == st.lock)
            && id !in after.runners
            && forall other :: other != id ==>
                 && (other in after.runners <==> other in st.runners)
                 && (other in st.runners ==> after.runners[other] == st.runners[other])
  {
  }

  // ---- a run that nothing stops ------------------------------------------------------------------

  lemma OneMore(hash: string -> string, st: State, step: Step, rest: seq<Step>)
    requires Enabled(hash, st, step) && Legal(hash, Next(hash, st, step), rest)
    ensures Legal(hash, st, [step] + rest)
    ensures Run(hash, st, [step] + rest) == Run(hash, Next(hash, st, step), rest)
  {
    assert ([step] + rest)[1..] == rest;
  }

  /** From its read on, a runner that is left alone executes its files and commits. */
  lemma {:induction false} RunsToItsEnd(hash: string -> string, st: State, id: nat) returns (steps: seq<Step>)
    requires id in st.runners && st.runners[id].Applying? && st.lock == Some(id)
    ensures Legal(hash, st, steps) && Run(hash, st, steps).lock == None
    ensures var r := st.runners[id];
            Run(hash, st, steps).db == Db(RecordEach(r.table, r.todo, r.began), st.db.effects + (r.ran + r.todo))
    ensures Run(hash, st, steps).runners == st.runners - {id}
    decreases |st.runners[id].todo|
  {
    var r := st.runners[id];
    if r.todo == [] {
      var after := Next(hash, st, Commit(id));
      assert Legal(hash, after, []) && Run(hash, after, []) == after;
      OneMore(hash, st, Commit(id), []);
      steps := [Commit(id)] + [];
      assert r.ran + [] == r.ran;
    } else {
      var after := Next(hash, st, Execute(id));
      var rest := RunsToItsEnd(hash, after, id);
      OneMore(hash, st, Execute(id), rest);
      steps := [Execute(id)] + rest;
      assert after.runners[id].ran + after.runners[id].todo == r.ran + r.todo;
      assert after.runners - {id} == st.runners - {id};
    }
  }

  /** The table after `ms`, first file first. */
  function RecordEach(table: Applied, ms: seq<Migration>, now: int): Applied
    decreases |ms|
  {
    if ms == [] then table else RecordEach(RecordOne(table, ms[0], now), ms[1..], now)
  }

  lemma {:induction false} RecordEachIsAll(table: Applied, done: seq<Migration>, ms: seq<Migration>, now: int)
    ensures RecordEach(RecordAll(table, done, now), ms, now) == RecordAll(table, done + ms, now)
    decreases |ms|
  {
    if ms == [] {
      assert done + ms == done;
    } else {
      assert (done + [ms[0]])[..|done|] == done;
      RecordEachIsAll(table, done + [ms[0]], ms[1..], now);
      assert done + [ms[0]] + ms[1..] == done + ms;
    }
  }

  /** The state in which a new runner has the lock and has read what is to be done. */
  ghost function Begun(st: State, id: nat, code: Layout, now: int): State {
    st.(lock := Some(id),
        runners := st.runners[id := Applying(code, now, st.db.applied, [], Files(st.db.applied, code),
                                             OutOfOrder(st.db.applied, code))])
  }

  lemma StepsToBegin(hash: string -> string, st: State, id: nat, code: Layout, now: int)
    requires st.lock == None && id !in st.runners && WellFormed(hash, code) && NoDrift(st.db.applied, code)
    ensures Enabled(hash, st, Start(id, code, now))
    ensures var s1 := Next(hash, st, Start(id, code, now));
            && Enabled(hash, s1, Acquire(id))
            && var s2 := Next(hash, s1, Acquire(id));
               Enabled(hash, s2, Read(id)) && Next(hash, s2, Read(id)) == Begun(st, id, code, now)
  {
    var s1 := Next(hash, st, Start(id, code, now));
    var s2 := Next(hash, s1, Acquire(id));
    assert s2.runners == st.runners[id := Holding(code, now)];
    assert s2.runners[id := Begun(st, id, code, now).runners[id]] == Begun(st, id, code, now).runners;
  }

  lemma BeginsWith(hash: string -> string, st: State, id: nat, code: Layout, now: int, rest: seq<Step>)
    requires st.lock == None && id !in st.runners && WellFormed(hash, code) && NoDrift(st.db.applied, code)
    requires Legal(hash, Begun(st, id, code, now), rest)
    ensures var steps := [Start(id, code, now)] + ([Acquire(id)] + ([Read(id)] + rest));
            Legal(hash, st, steps) && Run(hash, st, steps) == Run(hash, Begun(st, id, code, now), rest)
  {
    StepsToBegin(hash, st, id, code, now);
    var s1 := Next(hash, st, Start(id, code, now));
    var s2 := Next(hash, s1, Acquire(id));
    OneMore(hash, s2, Read(id), rest);
    OneMore(hash, s1, Acquire(id), [Read(id)] + rest);
    OneMore(hash, st, Start(id, code, now), [Acquire(id)] + ([Read(id)] + rest));
  }

  lemma BegunRunsToItsEnd(hash: string -> string, st: State, id: nat, code: Layout, now: int)
    returns (steps: seq<Step>)
    requires id !in st.runners && WellFormed(hash, code)
    ensures var begun := Begun(st, id, code, now);
            && Legal(hash, begun, steps) && Run(hash, begun, steps).lock == None
            && Run(hash, begun, steps).runners == st.runners
            && Run(hash, begun, steps).db
               == Db(RecordAll(st.db.applied, Files(st.db.applied, code), now),
                     st.db.effects + Files(st.db.applied, code))
  {
    var begun := Begun(st, id, code, now);
    var files := Files(st.db.applied, code);
    steps := RunsToItsEnd(hash, begun, id);
    assert begun.runners - {id} == st.runners;
    assert [] + files == files;
    RecordEachIsAll(st.db.applied, [], files, now);
  }

  /** A container that finds the lock free and no drift, and whose SQL succeeds, gets through: there is a run
      that starts, applies everything pending and then the repeatable files, records them and commits. */
  lemma LoneRunCompletes(hash: string -> string, st: State, id: nat, code: Layout, now: int)
    returns (steps: seq<Step>)
    requires st.lock == None && id !in st.runners && WellFormed(hash, code)
    requires forall v :: !Drifts(st.db.applied, code.versioned, v)
    ensures Legal(hash, st, steps) && Run(hash, st, steps).lock == None
    ensures var pending := Pending(st.db.applied, code.versioned);
            Run(hash, st, steps).db
            == Db(RecordAll(st.db.applied, pending, now), st.db.effects + pending + code.repeatable)
    ensures Run(hash, st, steps).runners == st.runners
  {
    var pending := Pending(st.db.applied, code.versioned);
    var rest := BegunRunsToItsEnd(hash, st, id, code, now);
    BeginsWith(hash, st, id, code, now, rest);
    steps := [Start(id, code, now)] + ([Acquire(id)] + ([Read(id)] + rest));
    RepeatablesAreNotRecorded(st.db.applied, pending, code.repeatable, now);
    assert st.db.effects + (pending + code.repeatable) == st.db.effects + pending + code.repeatable;
  }

  // ---- the history of commits ------------------------------------------------------------------

  lemma {:induction false} RepeatablesAreNotRecorded(applied: Applied, ms: seq<Migration>, rs: seq<Migration>, now: int)
    requires forall k :: 0 <= k < |rs| ==> rs[k].version.None?
    ensures RecordAll(applied, ms + rs, now) == RecordAll(applied, ms, now)
  {
    if rs == [] {
      assert ms + rs == ms;
    } else {
      var n := |rs| - 1;
      assert (ms + rs)[..|ms| + n] == ms + rs[..n];
      RepeatablesAreNotRecorded(applied, ms, rs[..n], now);
    }
  }

  lemma PendingIsTruthful(hash: string -> string, applied: Applied, versioned: seq<Migration>, now: int)
    requires InOrder(versioned) && forall k :: 0 <= k < |versioned| ==>
             versioned[k].checksum == Checksum(hash, versioned[k].sql)
    ensures Truthful(hash, RecordAll(applied, Pending(applied, versioned), now), Pending(applied, versioned))
  {
    var pending := Pending(applied, versioned);
    PendingIs(applied, versioned);
    RecordAllIs(applied, pending, now);
    forall m | m in pending ensures m.checksum == Checksum(hash, m.sql) {
      var k :| 0 <= k < |versioned| && versioned[k] == m;
    }
  }

  /** What was recorded before the run is still there, and nothing but it and the pending versions. */
  lemma RunAddsPending(applied: Applied, versioned: seq<Migration>, now: int)
    requires InOrder(versioned)
    ensures Extends(RecordAll(applied, Pending(applied, versioned), now), applied)
    ensures forall v :: v in RecordAll(applied, Pending(applied, versioned), now) ==>
            v in applied || Known(Pending(applied, versioned), v)
  {
    PendingIs(applied, versioned);
    RecordAllIs(applied, Pending(applied, versioned), now);
  }

  /** Pending versions are not among the committed ones, so no version is committed twice. */
  lemma OnlyNewVersions(effects: seq<Migration>, applied: Applied, pending: seq<Migration>, repeatable: seq<Migration>)
    requires Once(effects) && InOrder(pending)
    requires forall m :: m in effects && m.version.Some? ==> m.version.value in applied
    requires forall m :: m in pending ==> m.version.value !in applied
    requires forall k :: 0 <= k < |repeatable| ==> repeatable[k].version.None?
    ensures Once(effects + pending + repeatable)
  {
    var all, n := effects + pending + repeatable, |effects|;
    forall j, k | 0 <= j < k < |all| && all[j].version.Some? ensures all[j].version != all[k].version {
      if j < n {
        assert all[j] in effects;
        if n <= k < n + |pending| {
          assert all[k] in pending;
        }
      }
    }
  }

  lemma TruthfulLater(hash: string -> string, earlier: Applied, later: Applied, ms: seq<Migration>)
    requires Truthful(hash, earlier, ms) && Extends(later, earlier)
    ensures Truthful(hash, later, ms) == true
  {
  }

  lemma TruthfulConcat(hash: string -> string, applied: Applied, first: seq<Migration>, second: seq<Migration>)
    requires Truthful(hash, applied, first)
    requires Truthful(hash, applied, second) || forall k :: 0 <= k < |second| ==> second[k].version.None?
    ensures Truthful(hash, applied, first + second) == true
  {
  }

  lemma KnownGrows(ms: seq<Migration>, all: seq<Migration>, v: nat)
    requires Known(ms, v) && forall m :: m in ms ==> m in all
    ensures Known(all, v)
  {
    var m :| m in ms && m.version == Some(v);
    assert m in all;
  }

  lemma RunKeepsLedger(hash: string -> string, before: Db, after: Db, code: Layout, began: int)
    requires Ledger(hash, before) && WellFormed(hash, code) && RanWhole(before, after, code, began)
    ensures Ledger(hash, after)
  {
    var pending := Pending(before.applied, code.versioned);
    PendingIs(before.applied, code.versioned);
    RepeatablesAreNotRecorded(before.applied, pending, code.repeatable, began);
    RunAddsPending(before.applied, code.versioned, began);
    PendingIsTruthful(hash, before.applied, code.versioned, began);
    OnlyNewVersions(before.effects, before.applied, pending, code.repeatable);
    assert after.effects == before.effects + pending + code.repeatable;
    TruthfulLater(hash, before.applied, after.applied, before.effects);
    TruthfulConcat(hash, after.applied, before.effects, pending);
    TruthfulConcat(hash, after.applied, before.effects + pending, code.repeatable);
    EveryRecordWasExecuted(before, after, pending);
  }

  lemma EveryRecordWasExecuted(before: Db, after: Db, pending: seq<Migration>)
    requires forall v :: v in before.applied ==> Known(before.effects, v)
    requires forall v :: v in after.applied ==> v in before.applied || Known(pending, v)
    requires forall m :: m in before.effects || m in pending ==> m in after.effects
    ensures forall v :: v in after.applied ==> Known(after.effects, v)
  {
    forall v | v in after.applied ensures Known(after.effects, v) {
      KnownGrows(if v in before.applied then before.effects else pending, after.effects, v);
    }
  }

  lemma LateBreaksOrder(effects: seq<Migration>, pending: seq<Migration>, repeatable: seq<Migration>, m: Migration,
      u: nat)
    requires m in pending && Known(effects, u) && m.version.Some? && m.version.value < u
    ensures !Rises(effects + pending + repeatable)
  {
    var older :| older in effects && older.version == Some(u);
    var all := effects + pending + repeatable;
    var j :| 0 <= j < |effects| && effects[j] == older;
    var k :| 0 <= k < |pending| && pending[k] == m;
    assert all[j] == older && all[|effects| + k] == m;
  }

  lemma OnTimeKeepsOrder(effects: seq<Migration>, pending: seq<Migration>, repeatable: seq<Migration>)
    requires Rises(effects) && InOrder(pending)
    requires forall m, e :: m in pending && e in effects && e.version.Some? ==> e.version.value < m.version.value
    requires forall k :: 0 <= k < |repeatable| ==> repeatable[k].version.None?
    ensures Rises(effects + pending + repeatable)
  {
    var all, n := effects + pending + repeatable, |effects|;
    assert forall k :: n + |pending| <= k < |all| ==> all[k] == repeatable[k - n - |pending|];
    forall j, k | 0 <= j < k < |all| && all[j].version.Some? && all[k].version.Some?
      ensures all[j].version.value < all[k].version.value
    {
      if j < n <= k {
        assert all[j] in effects && all[k] in pending;
      }
    }
  }

  lemma PrefixRises(effects: seq<Migration>, more: seq<Migration>)
    requires Rises(effects + more)
    ensures Rises(effects)
  {
    assert forall k :: 0 <= k < |effects| ==> effects[k] == (effects + more)[k];
  }

  /** Order is kept exactly by the runs that do not warn. */
  lemma OrderIffNotLate(hash: string -> string, before: Db, after: Db, code: Layout, began: int)
    requires Ledger(hash, before) && WellFormed(hash, code) && RanWhole(before, after, code, began)
    ensures Rises(after.effects) <==> Rises(before.effects) && !OutOfOrder(before.applied, code)
  {
    var pending := Pending(before.applied, code.versioned);
    PendingIs(before.applied, code.versioned);
    assert after.effects == before.effects + pending + code.repeatable;
    if OutOfOrder(before.applied, code) {
      var m, u :| m in pending && u in before.applied && m.version.Some? && m.version.value < u;
      LateBreaksOrder(before.effects, pending, code.repeatable, m, u);
    } else if Rises(before.effects) {
      forall m, e | m in pending && e in before.effects && e.version.Some? ensures e.version.value < m.version.value {
        assert e.version.value in before.applied;
      }
      OnTimeKeepsOrder(before.effects, pending, code.repeatable);
    } else if Rises(after.effects) {
      PrefixRises(before.effects, Files(before.applied, code));
    }
  }

  ghost predicate Inv(hash: string -> string, st: State) {
    Serial(hash, st) && Ledger(hash, st.db) && (Rises(st.db.effects) <==> !st.warned)
  }

  lemma StepKeeps(hash: string -> string, st: State, step: Step)
    requires Inv(hash, st) && Enabled(hash, st, step)
    ensures Inv(hash, Next(hash, st, step))
    ensures Extends(Next(hash, st, step).db.applied, st.db.applied) && st.db.effects <= Next(hash, st, step).db.effects
    ensures step.Commit? ==> UpToDate(Next(hash, st, step).db.applied, st.runners[step.id].code.versioned)
  {
    var after := Next(hash, st, step);
    StepKeepsSerial(hash, st, step);
    RunsAreAtomic(hash, st, step);
    if step.Commit? {
      var code, began := st.runners[step.id].code, st.runners[step.id].began;
      RunKeepsLedger(hash, st.db, after.db, code, began);
      OrderIffNotLate(hash, st.db, after.db, code, began);
      RunMakesUpToDate(st.db.applied, code.versioned, began);
      RepeatablesAreNotRecorded(st.db.applied, Pending(st.db.applied, code.versioned), code.repeatable, began);
    }
  }

  /** Over any interleaving of any code versions no record is ever removed or changed and no effect undone. */
  lemma {:induction false} RunKeeps(hash: string -> string, st: State, steps: seq<Step>)
    requires Inv(hash, st) && Legal(hash, st, steps)
    ensures Inv(hash, Run(hash, st, steps))
    ensures Extends(Run(hash, st, steps).db.applied, st.db.applied)
    ensures st.db.effects <= Run(hash, st, steps).db.effects
    decreases |steps|
  {
    if steps != [] {
      StepKeeps(hash, st, steps[0]);
      RunKeeps(hash, Next(hash, st, steps[0]), steps[1..]);
    }
  }

  /** From an empty database: each version's SQL commits at most once, each record is that of the text
      executed, and the committed order is ascending exactly as long as no committed run warned "out of
      order". */
  lemma EveryHistory(hash: string -> string, steps: seq<Step>)
    requires Legal(hash, EMPTY, steps)
    ensures var end := Run(hash, EMPTY, steps);
            Ledger(hash, end.db) && (Rises(end.db.effects) <==> !end.warned)
  {
    RunKeeps(hash, EMPTY, steps);
  }

  /** Once verify accepts a directory, nothing any container does later makes it refuse. */
  lemma VerifyStaysAccepted(hash: string -> string, st: State, steps: seq<Step>, code: Layout)
    requires Inv(hash, st) && Legal(hash, st, steps) && UpToDate(st.db.applied, code.versioned)
    ensures UpToDate(Run(hash, st, steps).db.applied, code.versioned)
  {
    RunKeeps(hash, st, steps);
    UpToDateStays(st.db.applied, Run(hash, st, steps).db.applied, code.versioned);
  }

  /** And a committed run makes verify accept its own directory, from then on. */
  lemma RunMakesVerifyAccept(hash: string -> string, st: State, id: nat, steps: seq<Step>)
    requires Inv(hash, st) && Enabled(hash, st, Commit(id)) && Legal(hash, Next(hash, st, Commit(id)), steps)
    ensures UpToDate(Run(hash, Next(hash, st, Commit(id)), steps).db.applied, st.runners[id].code.versioned)
  {
    StepKeeps(hash, st, Commit(id));
    VerifyStaysAccepted(hash, Next(hash, st, Commit(id)), steps, st.runners[id].code);
  }

  /** Over any history: a directory's file drifts exactly if its text is not the one that was executed under its
      number, line ends aside; then the next run of that directory answers drift and verify refuses it. */
  lemma DriftIffTextChanged(hash: string -> string, steps: seq<Step>, code: Layout, m: Migration, e: Migration)
    requires Legal(hash, EMPTY, steps) && WellFormed(hash, code) && m in code.versioned
    requires e in Run(hash, EMPTY, steps).db.effects && e.version == m.version
    requires Distinguishes(hash, m.sql, e.sql)
    ensures var applied := Run(hash, EMPTY, steps).db.applied;
            && (Drifts(applied, code.versioned, m.version.value) <==> Unix(m.sql) != Unix(e.sql))
            && (Unix(m.sql) != Unix(e.sql) ==> !NoDrift(applied, code) && !UpToDate(applied, code.versioned))
  {
    EveryHistory(hash, steps);
    var k :| 0 <= k < |code.versioned| && code.versioned[k] == m;
    ChangedFileIsRefused(hash, Run(hash, EMPTY, steps).db.applied, code.versioned, m, e.sql);
  }
}
