/** status, run_migrations and verify_up_to_date against one database. */
module Migrator {
  import opened Logs
  import opened Migrations

  // Below, `== true` makes the verifier pass a predicate on as one fact instead of taking it apart.

  datatype Standing = Pending | Changed | InForce | Unknown | Rerun

  datatype StatusRow = StatusRow(version: Option<nat>, name: string, file: Option<string>, state: Standing,
      appliedAt: Option<int>)

  datatype Report = Report(applied: seq<string>, repeatable: seq<string>, unknown: seq<nat>, outOfOrder: seq<nat>,
      alreadyApplied: nat)

  /** `Done`, or the error that rolled the whole transaction back. */
  datatype Outcome = Done(report: Report) | LockBusy | Drift(version: nat) | Failed(filename: string)

  function Standings(applied: Applied, m: Migration): Standing
    requires m.version.Some?
  {
    if m.version.value !in applied then Pending
    else if applied[m.version.value].checksum != m.checksum then Changed else InForce
  }

  /** `names` are the files of `ms`, in order. */
  ghost predicate Names(ms: seq<Migration>, names: seq<string>) {
    |names| == |ms| && forall k :: 0 <= k < |ms| ==> names[k] == ms[k].filename
  }

  function Filenames(ms: seq<Migration>): seq<string> {
    seq(|ms|, k requires 0 <= k < |ms| => ms[k].filename)
  }

  /** The pending versions below some applied one. */
  function Late(newest: nat, pending: seq<Migration>): seq<nat> {
    if pending == [] then []
    else
      var last := pending[|pending| - 1];
      Late(newest, pending[..|pending| - 1])
      + if last.version.Some? && last.version.value < newest then [last.version.value] else []
  }

  lemma {:induction false} LateIs(newest: nat, pending: seq<Migration>)
    ensures forall v: nat :: v in Late(newest, pending) <==> Known(pending, v) && v < newest
  {
    if pending != [] {
      var rest, last := pending[..|pending| - 1], pending[|pending| - 1];
      LateIs(newest, rest);
      assert pending == rest + [last];
      forall v: nat ensures Known(pending, v) <==> Known(rest, v) || last.version == Some(v) {
        if Known(rest, v) {
          var m :| m in rest && m.version == Some(v);
          assert m in pending;
        }
        if last.version == Some(v) {
          assert last in pending;
        }
      }
    }
  }

  lemma {:induction false} LateRises(newest: nat, pending: seq<Migration>)
    requires InOrder(pending)
    ensures Rising(Late(newest, pending))
  {
    if pending != [] {
      var rest, last := pending[..|pending| - 1], pending[|pending| - 1];
      InOrderLast(pending);
      LateRises(newest, rest);
      LateIs(newest, rest);
      forall i | 0 <= i < |Late(newest, rest)| ensures Late(newest, rest)[i] < last.version.value {
        assert Late(newest, rest)[i] in Late(newest, rest);
      }
    }
  }

  /** `max(applied, default=0)` */
  method NewestVersion(applied: Applied) returns (newest: nat)
    ensures forall v :: v in applied ==> v <= newest
    ensures newest in applied || newest == 0
  {
    newest := 0;
    var left := applied.Keys;
    while left != {}
      invariant left <= applied.Keys && (newest in applied || newest == 0)
      invariant forall v :: v in applied && v !in left ==> v <= newest
      decreases |left|
    {
      var v :| v in left;
      left := left - {v};
      if v > newest {
        newest := v;
      }
    }
  }

  function Find(versioned: seq<Migration>, v: nat): (m: Option<Migration>)
    ensures m.Some? <==> Known(versioned, v)
    ensures m.Some? ==> m.value in versioned && m.value.version == Some(v)
  {
    if versioned == [] then None
    else if versioned[0].version == Some(v) then
      assert versioned[0] in versioned;
      Some(versioned[0])
    else
      assert versioned == [versioned[0]] + versioned[1..];
      Find(versioned[1..], v)
  }

  function AppliedAt(applied: Applied, v: nat): Option<int> {
    if v in applied then Some(applied[v].appliedAt) else None
  }

  function VersionRows(applied: Applied, ms: seq<Migration>): seq<StatusRow>
    requires forall k :: 0 <= k < |ms| ==> ms[k].version.Some?
  {
    seq(|ms|, k requires 0 <= k < |ms| => 
      StatusRow(ms[k].version, ms[k].name, Some(ms[k].filename), Standings(applied, ms[k]),
                AppliedAt(applied, ms[k].version.value)))
  }

  function UnknownRows(applied: Applied, vs: seq<nat>): seq<StatusRow>
    requires forall k :: 0 <= k < |vs| ==> vs[k] in applied
  {
    seq(|vs|, k requires 0 <= k < |vs| => StatusRow(Some(vs[k]), applied[vs[k]].name, None, Unknown,
        AppliedAt(applied, vs[k])))
  }

  function RepeatableRows(ms: seq<Migration>): seq<StatusRow> {
    seq(|ms|, k requires 0 <= k < |ms| => StatusRow(None, ms[k].name, Some(ms[k].filename), Rerun, None))
  }

  /** The rows that make verify refuse. */
  predicate Stops(row: StatusRow) {
    row.state.Pending? || row.state.Changed?
  }

  /** One row per versioned file, then the unknown versions ascending, then the repeatable files. */
  ghost predicate IsStatus(applied: Applied, layout: Layout, rows: seq<StatusRow>) {
    InOrder(layout.versioned) && exists unknown: seq<nat> :: IsStatusWith(applied, layout, unknown, rows)
  }

  ghost predicate IsStatusWith(applied: Applied, layout: Layout, unknown: seq<nat>, rows: seq<StatusRow>)
    requires InOrder(layout.versioned)
  {
    && (forall k :: 0 <= k < |unknown| ==> unknown[k] in applied)
    && rows == VersionRows(applied, layout.versioned) + UnknownRows(applied, unknown)
               + RepeatableRows(layout.repeatable)
    && Rising(unknown) && forall v: nat :: v in unknown <==> v in applied && !Known(layout.versioned, v)
  }

  /** The first rows are the versioned files: pending if not recorded, changed if recorded with another checksum. */
  lemma VersionedRowsTell(applied: Applied, layout: Layout, rows: seq<StatusRow>, k: nat)
    requires IsStatus(applied, layout, rows) && k < |layout.versioned|
    ensures |rows| >= |layout.versioned| + |layout.repeatable|
    ensures var m, v := layout.versioned[k], layout.versioned[k].version.value;
            && rows[k].version == Some(v) && rows[k].name == m.name && rows[k].file == Some(m.filename)
            && (rows[k].state.Pending? <==> v !in applied)
            && (rows[k].state.Changed? <==> v in applied && applied[v].checksum != m.checksum)
            && (rows[k].state.InForce? <==> v in applied && applied[v].checksum == m.checksum)
            && (v in applied ==> rows[k].appliedAt == Some(applied[v].appliedAt))
            && (v !in applied ==> rows[k].appliedAt == None)
  {
    var unknown: seq<nat> :| IsStatusWith(applied, layout, unknown, rows);
    assert rows[k] == VersionRows(applied, layout.versioned)[k];
  }

  /** The next rows are the recorded versions that the directory lacks, each as recorded. */
  lemma UnknownRowsTell(applied: Applied, layout: Layout, rows: seq<StatusRow>, k: nat)
    requires IsStatus(applied, layout, rows) && |layout.versioned| <= k < |rows| - |layout.repeatable|
    ensures rows[k].version.Some? && rows[k].state.Unknown? && rows[k].file == None
    ensures var v := rows[k].version.value;
            && v in applied && !Known(layout.versioned, v)
            && rows[k].name == applied[v].name && rows[k].appliedAt == Some(applied[v].appliedAt)
  {
    var unknown: seq<nat> :| IsStatusWith(applied, layout, unknown, rows);
    var i := k - |layout.versioned|;
    assert rows[k] == UnknownRows(applied, unknown)[i];
    assert unknown[i] in unknown;
  }

  /** All of them, in ascending order. */
  lemma UnknownAreListed(applied: Applied, layout: Layout, rows: seq<StatusRow>)
    requires IsStatus(applied, layout, rows)
    ensures exists unknown: seq<nat> ::
              && Rising(unknown) && |rows| == |layout.versioned| + |unknown| + |layout.repeatable|
              && (forall v: nat :: v in unknown <==> v in applied && !Known(layout.versioned, v))
              && forall i :: 0 <= i < |unknown| ==> rows[|layout.versioned| + i].version == Some(unknown[i])
  {
    var unknown: seq<nat> :| IsStatusWith(applied, layout, unknown, rows);
    forall i | 0 <= i < |unknown| ensures rows[|layout.versioned| + i].version == Some(unknown[i]) {
      assert rows[|layout.versioned| + i] == UnknownRows(applied, unknown)[i];
    }
  }

  /** The last rows are the repeatable files. */
  lemma RepeatableRowsTell(applied: Applied, layout: Layout, rows: seq<StatusRow>, k: nat)
    requires IsStatus(applied, layout, rows) && k < |layout.repeatable|
    ensures |rows| >= |layout.repeatable|
    ensures rows[|rows| - |layout.repeatable| + k]
         == StatusRow(None, layout.repeatable[k].name, Some(layout.repeatable[k].filename), Rerun, None)
  {
    var unknown: seq<nat> :| IsStatusWith(applied, layout, unknown, rows);
    assert rows[|layout.versioned| + |unknown| + k] == RepeatableRows(layout.repeatable)[k];
  }

  lemma StoppingRows(applied: Applied, layout: Layout, unknown: seq<nat>, rows: seq<StatusRow>)
    requires InOrder(layout.versioned) && IsStatusWith(applied, layout, unknown, rows)
    ensures |rows| >= |layout.versioned|
    ensures forall k :: 0 <= k < |rows| ==>
              (Stops(rows[k]) <==> k < |layout.versioned| && !Standings(applied, layout.versioned[k]).InForce?)
  {
    var n := |layout.versioned|;
    forall k | 0 <= k < |rows| ensures Stops(rows[k]) <==> k < n && !Standings(applied, layout.versioned[k]).InForce? {
      if n <= k < n + |unknown| {
        assert rows[k] == UnknownRows(applied, unknown)[k - n];
      } else if k >= n {
        assert rows[k] == RepeatableRows(layout.repeatable)[k - n - |unknown|];
      }
    }
  }

  lemma InForceIffUpToDate(applied: Applied, ms: seq<Migration>)
    requires InOrder(ms)
    ensures (forall k :: 0 <= k < |ms| ==> Standings(applied, ms[k]).InForce?) <==> UpToDate(applied, ms)
  {
    if UpToDate(applied, ms) {
      forall k | 0 <= k < |ms| ensures Standings(applied, ms[k]).InForce? {
        assert ms[k] in ms;
      }
    }
  }

  lemma StopsUnlessUpToDate(applied: Applied, layout: Layout, rows: seq<StatusRow>)
    requires IsStatus(applied, layout, rows) == true
    ensures (forall k :: 0 <= k < |rows| ==> !Stops(rows[k])) <==> UpToDate(applied, layout.versioned)
  {
    var unknown: seq<nat> :| IsStatusWith(applied, layout, unknown, rows);
    StoppingRows(applied, layout, unknown, rows);
    InForceIffUpToDate(applied, layout.versioned);
    if forall k :: 0 <= k < |rows| ==> !Stops(rows[k]) {
      forall k | 0 <= k < |layout.versioned| ensures Standings(applied, layout.versioned[k]).InForce? {
        assert !Stops(rows[k]);
      }
    }
  }

  class SchemaDatabase {
    var applied: Applied
    /** Every migration whose SQL was committed, in commit order. */
    ghost var effects: seq<Migration>

    constructor ()
      ensures applied == map[] && effects == []
    {
      applied := map[];
      effects := [];
    }

    /** The versions the directory lacks, `sorted(set(applied) - known)`. */
    method UnknownVersions(versioned: seq<Migration>) returns (vs: seq<nat>)
      ensures Rising(vs) && forall v: nat :: v in vs <==> v in applied && !Known(versioned, v)
    {
      vs := SortedVersions(set v | v in applied.Keys && Find(versioned, v).None?);
    }

    method Status(layout: Layout) returns (rows: seq<StatusRow>)
      requires InOrder(layout.versioned)
      ensures IsStatus(applied, layout, rows) == true
    {
      var unknown := UnknownVersions(layout.versioned);
      assert forall k :: 0 <= k < |unknown| ==> unknown[k] in unknown;
      rows := VersionRows(applied, layout.versioned) + UnknownRows(applied, unknown)
              + RepeatableRows(layout.repeatable);
      assert IsStatusWith(applied, layout, unknown, rows);
    }

    /** Refuses while a file is pending or changed. */
    method VerifyUpToDate(layout: Layout) returns (ok: bool)
      requires InOrder(layout.versioned)
      ensures ok <==> UpToDate(applied, layout.versioned)
    {
      var rows := Status(layout);
      ok := true;
      var i := 0;
      while i < |rows|
        invariant 0 <= i <= |rows|
        invariant ok <==> forall k :: 0 <= k < i ==> !Stops(rows[k])
      {
        if Stops(rows[i]) {
          ok := false;
        }
        i := i + 1;
      }
      StopsUnlessUpToDate(applied, layout, rows);
    }

    /** The drift loop, over the applied versions in ascending order. */
    method FirstDrift(versioned: seq<Migration>) returns (r: Option<nat>)
      requires InOrder(versioned)
      ensures r.None? <==> forall v :: !Drifts(applied, versioned, v)
      ensures r.Some? ==> Drifts(applied, versioned, r.value) && forall v: nat :: v < r.value ==>
              !Drifts(applied, versioned, v)
    {
      var versions := SortedVersions(applied.Keys);
      r := None;
      var i := 0;
      while i < |versions|
        invariant 0 <= i <= |versions| && r == None
        invariant forall k :: 0 <= k < i ==> !Drifts(applied, versioned, versions[k])
      {
        var v := versions[i];
        assert v in versions;
        var m := Find(versioned, v);
        if m.Some? && applied[v].checksum != m.value.checksum {
          assert m.value in versioned && m.value.version == Some(v);
          assert Drifts(applied, versioned, v);
          forall u: nat | u < v ensures !Drifts(applied, versioned, u) {
            if u in applied {
              assert u in versions;
              var k :| 0 <= k < |versions| && versions[k] == u;
              assert k < i;
            }
          }
          return Some(v);
        }
        if x :| x in versioned && x.version == Some(v) {
          OnePerVersion(versioned, x, m.value);
        }
        i := i + 1;
      }
      forall v: nat ensures !Drifts(applied, versioned, v) {
        if v in applied {
          assert v in versions;
        }
      }
    }

    /** Execute `files` in order inside the open transaction; the file at `failAt` raises. */
    method Execute(start: Applied, files: seq<Migration>, failAt: Option<nat>, now: int)
      returns (failed: Option<string>, table: Applied)
      ensures failed == if failAt.Some? && failAt.value < |files| then Some(files[failAt.value].filename) else None
      ensures failed.None? ==> table == RecordAll(start, files, now)
    {
      table := start;
      var i := 0;
      while i < |files|
        invariant 0 <= i <= |files| && table == RecordAll(start, files[..i], now)
        invariant failAt.Some? ==> i <= failAt.value || |files| <= failAt.value
      {
        if failAt == Some(i) {
          return Some(files[i].filename), table;
        }
        assert files[..i + 1][..i] == files[..i];
        table := RecordOne(table, files[i], now);
        i := i + 1;
      }
      assert files[..i] == files;
      failed := None;
    }

    /** One run: everything pending and then every repeatable file, or nothing at all. `lockFree` is false
        when the advisory lock times out; `failAt` names the executed file that raises, if any,
        and `now` is when its transaction began. */
    method RunMigrations(layout: Layout, lockFree: bool, failAt: Option<nat>, now: int) returns (r: Outcome)
      requires InOrder(layout.versioned)
      modifies this
      ensures r.LockBusy? <==> !lockFree
      ensures r.Drift? <==> lockFree && exists v :: Drifts(old(applied), layout.versioned, v)
      ensures r.Drift? ==> Drifts(old(applied), layout.versioned, r.version)
                           && forall v: nat :: v < r.version ==> !Drifts(old(applied), layout.versioned, v)
      ensures var files := Migrations.Pending(old(applied), layout.versioned) + layout.repeatable;
              && (r.Failed? <==>
                    && lockFree && failAt.Some? && failAt.value < |files|
                    && forall v :: !Drifts(old(applied), layout.versioned, v))
              && (r.Failed? ==> r.filename == files[failAt.value].filename)
              && (r.Done? ==> applied == RecordAll(old(applied), files, now) && effects == old(effects) + files)
      ensures !r.Done? ==> applied == old(applied) && effects == old(effects)
      ensures r.Done? ==>
                && Names(Migrations.Pending(old(applied), layout.versioned), r.report.applied)
                && Names(layout.repeatable, r.report.repeatable) && r.report.alreadyApplied == |old(applied)|
                && Rising(r.report.unknown)
                && (forall v: nat :: v in r.report.unknown <==> v in old(applied) && !Known(layout.versioned, v))
                && Rising(r.report.outOfOrder)
                && (forall v: nat :: v in r.report.outOfOrder <==>
                      && Known(layout.versioned, v) && v !in old(applied)
                      && exists u: nat :: u in old(applied) && v < u)
    {
      if !lockFree {
        return LockBusy;
      }
      var drift := FirstDrift(layout.versioned);
      if drift.Some? {
        return Drift(drift.value);
      }
      var unknown := UnknownVersions(layout.versioned);
      var pending := Migrations.Pending(applied, layout.versioned);
      var newest := NewestVersion(applied);
      LateIsOutOfOrder(applied, layout.versioned, newest);
      var report := Report(Filenames(pending), Filenames(layout.repeatable), unknown, Late(newest, pending), |applied|);
      var failed, table := Execute(applied, pending + layout.repeatable, failAt, now);
      if failed.Some? {
        return Failed(failed.value);
      }
      applied, effects := table, effects + pending + layout.repeatable;
      r := Done(report);
    }
  }

  lemma LateIsOutOfOrder(applied: Applied, versioned: seq<Migration>, newest: nat)
    requires InOrder(versioned) && (forall v :: v in applied ==> v <= newest) && (newest in applied || newest == 0)
    ensures Rising(Late(newest, Migrations.Pending(applied, versioned)))
    ensures forall v: nat :: v in Late(newest, Migrations.Pending(applied, versioned))
                        <==> Known(versioned, v) && v !in applied && exists u: nat :: u in applied && v < u
  {
    var pending := Migrations.Pending(applied, versioned);
    PendingIs(applied, versioned);
    LateIs(newest, pending);
    LateRises(newest, pending);
    forall v: nat ensures Known(pending, v) <==> Known(versioned, v) && v !in applied {
      if Known(pending, v) {
        var m :| m in pending && m.version == Some(v);
        assert m in versioned;
      }
      if Known(versioned, v) && v !in applied {
        var m :| m in versioned && m.version == Some(v);
        assert m in pending;
      }
    }
  }
}
