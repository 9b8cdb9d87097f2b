/** The migration runner over all tenants: repeated runs, arbitrary statement failures, at most one record per migration. */
module TenantMigration {
  import opened Wrappers
  import opened Text
  import SplitterAgreement

  /** A directory under tenant_migrations, in sorted order; `sql` is absent when it holds no migration.sql. */
  datatype File = File(name: string, sql: Option<string>)

  datatype Status = Applied | FailedStatus | AlreadyApplied

  datatype Result = Result(tenant: string, migration: string, status: Status)

  datatype Executed = Executed(tenant: string, migration: string, index: nat)

  /** The names recorded in each tenant database. */
  type Records = map<string, seq<string>>

  /**
   What the store does in one run: `fails` says whether statement `index` of a migration fails for a tenant (the
   record's INSERT comes after the last statement). Outside the `try` an error ends the run: `aborts` is the SELECT
   before a migration, `refuses` the connection or the records table, `drops` the disconnection.
   */
  datatype Store = Store(fails: (string, string, nat) -> bool, aborts: (string, string) -> bool,
                         refuses: string -> bool, drops: string -> bool)

  /** A run's inputs and what it has done so far. */
  datatype Run = Run(tenants: seq<string>, files: seq<File>, store: Store)

  datatype Pass = Pass(records: Records, results: seq<Result>, executed: seq<Executed>, aborted: bool)

  /** Two spellings of a tenant code share one database. */
  function Database(tenant: string): string {
    Lower(tenant)
  }

  function RecordsOf(records: Records, tenant: string): seq<string> {
    if Database(tenant) in records then records[Database(tenant)] else []
  }

  function StatementCount(sql: string): nat {
    |SplitterAgreement.SimpleStatements(sql)|
  }

  /** Statements tried: all of them, or up to and including the first that fails. */
  function Tried(store: Store, tenant: string, name: string, count: nat): (n: nat)
    ensures n <= count
  {
    if count == 0 then 0
    else
      var n := Tried(store, tenant, name, count - 1);
      if n < count - 1 || (n > 0 && store.fails(tenant, name, n - 1)) then n else n + 1
  }

  /** Every statement and the record's INSERT succeed. */
  predicate GotThrough(store: Store, tenant: string, name: string, count: nat) {
    forall i :: 0 <= i <= count ==> !store.fails(tenant, name, i)
  }

  function Trace(tenant: string, name: string, count: nat): seq<Executed> {
    seq(count, i requires 0 <= i < count => Executed(tenant, name, i))
  }

  function MigrateOne(p: Pass, tenant: string, file: File, store: Store): Pass {
    if p.aborted || file.sql.None? then p
    else if store.aborts(tenant, file.name) then p.(aborted := true)
    else if file.name in RecordsOf(p.records, tenant) then
      p.(results := p.results + [Result(tenant, file.name, AlreadyApplied)])
    else
      var count := StatementCount(file.sql.value);
      var executed := p.executed + Trace(tenant, file.name, Tried(store, tenant, file.name, count));
      if GotThrough(store, tenant, file.name, count) then
        Pass(p.records[Database(tenant) := RecordsOf(p.records, tenant) + [file.name]],
             p.results + [Result(tenant, file.name, Applied)], executed, false)
      else
        Pass(p.records, p.results + [Result(tenant, file.name, FailedStatus)], executed, false)
  }

  function MigrateTenant(p: Pass, tenant: string, files: seq<File>, store: Store): Pass {
    if files == [] then p
    else
      var n := |files| - 1;
      MigrateOne(MigrateTenant(p, tenant, files[..n], store), tenant, files[n], store)
  }

  function MigrateTenants(p: Pass, tenants: seq<string>, files: seq<File>, store: Store): Pass {
    if tenants == [] then p
    else
      var n := |tenants| - 1;
      var started := AbortIf(MigrateTenants(p, tenants[..n], files, store), store.refuses(tenants[n]));
      AbortIf(MigrateTenant(started, tenants[n], files, store), store.drops(tenants[n]))
  }

  function AbortIf(p: Pass, failed: bool): Pass {
    if failed then p.(aborted := true) else p
  }

  function MigrateAll(records: Records, r: Run): Pass {
    MigrateTenants(Pass(records, [], [], false), r.tenants, r.files, r.store)
  }

  // ----- the loops -----

  class Runner {
    var records: Records

    constructor (initial: Records)
      ensures records == initial
    {
      records := initial;
    }

    /** The statement loop inside the `try`: how many were tried, and whether statements and INSERT all succeeded. */
    method Apply(tenant: string, file: File, store: Store) returns (tried: nat, ok: bool)
      requires file.sql.Some?
      ensures var count := StatementCount(file.sql.value);
              tried == Tried(store, tenant, file.name, count) && ok == GotThrough(store, tenant, file.name, count)
    {
      var statements := SplitterAgreement.SimpleStatements(file.sql.value);
      tried := 0;
      var i := 0;
      while i < |statements|
        invariant 0 <= i <= |statements|
        invariant tried == i == Tried(store, tenant, file.name, i)
        invariant forall j :: 0 <= j < i ==> !store.fails(tenant, file.name, j)
      {
        tried := i + 1;
        i := i + 1;
        if store.fails(tenant, file.name, i - 1) {
          TriedStops(store, tenant, file.name, i, |statements|);
          ok := false;
          return;
        }
      }
      ok := !store.fails(tenant, file.name, |statements|);
    }

    /** One existing file: the SELECT, and what it leads to. `results` and `executed` grow from what is passed in. */
    method MigrateFile(tenant: string, file: File, store: Store, results0: seq<Result>, executed0: seq<Executed>)
      returns (results: seq<Result>, executed: seq<Executed>, aborted: bool)
      requires file.sql.Some?
      modifies this
      ensures Pass(records, results, executed, aborted)
           == MigrateOne(Pass(old(records), results0, executed0, false), tenant, file, store)
    {
      results, executed, aborted := results0, executed0, false;
      if store.aborts(tenant, file.name) { aborted := true; return; }
      if file.name in RecordsOf(records, tenant) {
        results := results + [Result(tenant, file.name, AlreadyApplied)];
        return;
      }
      var tried, ok := Apply(tenant, file, store);
      executed := executed + Trace(tenant, file.name, tried);
      if ok { records := records[Database(tenant) := RecordsOf(records, tenant) + [file.name]]; }
      results := results + [Result(tenant, file.name, if ok then Applied else FailedStatus)];
    }

    /** The loop over the migration files of one tenant; an error outside the `try` ends it. */
    method MigrateFiles(tenant: string, files: seq<File>, store: Store, results0: seq<Result>, executed0: seq<Executed>)
      returns (results: seq<Result>, executed: seq<Executed>, aborted: bool)
      modifies this
      ensures Pass(records, results, executed, aborted)
           == MigrateTenant(Pass(old(records), results0, executed0, false), tenant, files, store)
    {
      results, executed, aborted := results0, executed0, false;
      ghost var start := Pass(records, results0, executed0, false);
      var f := 0;
      while f < |files|
        invariant 0 <= f <= |files|
        invariant Pass(records, results, executed, aborted) == MigrateTenant(start, tenant, files[..f], store)
      {
        assert files[..f + 1][..f] == files[..f];
        f := f + 1;
        if !aborted && files[f - 1].sql.Some? {
          results, executed, aborted := MigrateFile(tenant, files[f - 1], store, results, executed);
        }
      }
      assert files[..f] == files;
    }

    method MigrateAllTenants(tenants: seq<string>, files: seq<File>, store: Store)
      returns (results: seq<Result>, executed: seq<Executed>, aborted: bool)
      modifies this
      ensures Pass(records, results, executed, aborted) == MigrateAll(old(records), Run(tenants, files, store))
    {
      results, executed, aborted := [], [], false;
      ghost var start := Pass(records, [], [], false);
      var t := 0;
      while t < |tenants| && !aborted
        invariant 0 <= t <= |tenants|
        invariant Pass(records, results, executed, aborted) == MigrateTenants(start, tenants[..t], files, store)
      {
        assert tenants[..t + 1][..t] == tenants[..t];
        t := t + 1;
        if store.refuses(tenants[t - 1]) {
          aborted := true;
          AbortedStays(Pass(records, results, executed, true), tenants[t - 1], files, store);
        } else {
          results, executed, aborted := MigrateFiles(tenants[t - 1], files, store, results, executed);
          aborted := aborted || store.drops(tenants[t - 1]);
        }
      }
      EndsHere(start, tenants, t, files, store);
    }
  }

  /** An error outside the `try` ends the run: nothing more is done. */
  lemma {:induction false} AbortedStays(p: Pass, tenant: string, files: seq<File>, store: Store)
    requires p.aborted
    ensures MigrateTenant(p, tenant, files, store) == p
  {
    if files != [] { AbortedStays(p, tenant, files[..|files| - 1], store); }
  }

  lemma {:induction false} EndsHere(p: Pass, tenants: seq<string>, t: nat, files: seq<File>, store: Store)
    requires t <= |tenants| && (t < |tenants| ==> MigrateTenants(p, tenants[..t], files, store).aborted)
    ensures MigrateTenants(p, tenants, files, store) == MigrateTenants(p, tenants[..t], files, store)
  {
    if t == |tenants| {
      assert tenants[..t] == tenants;
    } else {
      var n := |tenants| - 1;
      assert tenants[..n][..t] == tenants[..t];
      EndsHere(p, tenants[..n], t, files, store);
      AbortedStays(MigrateTenants(p, tenants[..n], files, store), tenants[n], files, store);
    }
  }

  lemma {:induction false} TriedStops(store: Store, tenant: string, name: string, n: nat, count: nat)
    requires 1 <= n <= count && Tried(store, tenant, name, n) == n && store.fails(tenant, name, n - 1)
    ensures Tried(store, tenant, name, count) == n
  {
    if n < count { TriedStops(store, tenant, name, n, count - 1); }
  }

  /** The statements tried are those before the first failure and the one that failed; all of them if none did. */
  lemma {:induction false} TriedExactly(store: Store, tenant: string, name: string, count: nat)
    ensures var n := Tried(store, tenant, name, count);
            && (count > 0 ==> n > 0)
            && (forall i :: 0 <= i < n - 1 ==> !store.fails(tenant, name, i))
            && (n < count ==> store.fails(tenant, name, n - 1))
            && (GotThrough(store, tenant, name, count) ==> n == count)
  {
    if count > 0 {
      TriedExactly(store, tenant, name, count - 1);
    }
  }

  // ----- what every step keeps -----

  predicate NoDuplicates(names: seq<string>) {
    forall i, j :: 0 <= i < j < |names| ==> names[i] != names[j]
  }

  ghost predicate Once(records: Records) {
    forall d :: d in records ==> NoDuplicates(records[d])
  }

  /** Was the migration applied to this database in these results? */
  predicate AppliedIn(results: seq<Result>, db: string, name: string) {
    exists i :: 0 <= i < |results| && Database(results[i].tenant) == db
             && results[i].migration == name && results[i].status == Applied
  }

  function NamesIn(records: Records, db: string): seq<string> {
    if db in records then records[db] else []
  }

  /** The records of a database are those it had before plus those applied to it since. */
  ghost predicate Explained(before: Records, p: Pass) {
    && (Once(before) ==> Once(p.records))
    && forall db, name :: name in NamesIn(p.records, db) <==> name in NamesIn(before, db) || AppliedIn(p.results, db, name)
  }

  lemma AppliedSnoc(results: seq<Result>, r: Result, db: string, name: string)
    ensures AppliedIn(results + [r], db, name) <==>
            AppliedIn(results, db, name) || (Database(r.tenant) == db && r.migration == name && r.status == Applied)
  {
    var all := results + [r];
    if AppliedIn(results, db, name) {
      var i :| 0 <= i < |results| && Database(results[i].tenant) == db
            && results[i].migration == name && results[i].status == Applied;
      assert all[i] == results[i];
    }
    if Database(r.tenant) == db && r.migration == name && r.status == Applied {
      assert all[|results|] == r;
    }
  }

  lemma MigrateOneExplained(before: Records, p: Pass, tenant: string, file: File, store: Store)
    requires Explained(before, p)
    ensures Explained(before, MigrateOne(p, tenant, file, store))
  {
    var p' := MigrateOne(p, tenant, file, store);
    if |p'.results| > |p.results| {
      var r := p'.results[|p.results|];
      assert p'.results == p.results + [r];
      forall db, name
        ensures name in NamesIn(p'.records, db) <==> name in NamesIn(before, db) || AppliedIn(p'.results, db, name)
      {
        AppliedSnoc(p.results, r, db, name);
        assert name in NamesIn(p.records, db) <==> name in NamesIn(before, db) || AppliedIn(p.results, db, name);
      }
    }
  }

  lemma {:induction false} MigrateTenantExplained(before: Records, p: Pass, tenant: string, files: seq<File>, store: Store)
    requires Explained(before, p)
    ensures Explained(before, MigrateTenant(p, tenant, files, store))
  {
    if files != [] {
      var n := |files| - 1;
      MigrateTenantExplained(before, p, tenant, files[..n], store);
      MigrateOneExplained(before, MigrateTenant(p, tenant, files[..n], store), tenant, files[n], store);
    }
  }

  lemma {:induction false} MigrateTenantsExplained(before: Records, p: Pass, tenants: seq<string>, files: seq<File>, store: Store)
    requires Explained(before, p)
    ensures Explained(before, MigrateTenants(p, tenants, files, store))
  {
    if tenants != [] {
      var n := |tenants| - 1;
      MigrateTenantsExplained(before, p, tenants[..n], files, store);
      var started := AbortIf(MigrateTenants(p, tenants[..n], files, store), store.refuses(tenants[n]));
      assert Explained(before, started);
      MigrateTenantExplained(before, started, tenants[n], files, store);
    }
  }

  // ----- many runs -----

  /** The records after a sequence of runs, and the results of all of them. */
  function RunAll(records: Records, runs: seq<Run>): (Records, seq<Result>) {
    if runs == [] then (records, [])
    else
      var n := |runs| - 1;
      var (before, results) := RunAll(records, runs[..n]);
      var p := MigrateAll(before, runs[n]);
      (p.records, results + p.results)
  }

  lemma AppliedConcat(a: seq<Result>, b: seq<Result>, db: string, name: string)
    ensures AppliedIn(a + b, db, name) <==> AppliedIn(a, db, name) || AppliedIn(b, db, name)
  {
    var all := a + b;
    assert forall i :: 0 <= i < |a| ==> all[i] == a[i];
    assert forall i :: 0 <= i < |b| ==> all[|a| + i] == b[i];
  }

  /**
   Over any number of runs with arbitrary failures, a migration is recorded at most once per database, and it is
   recorded exactly when it was before or some run applied it to that database.
   */
  lemma {:induction false} RecordedOnceAndExactlyWhenApplied(records: Records, runs: seq<Run>)
    requires Once(records)
    ensures var (after, results) := RunAll(records, runs);
            && Once(after)
            && forall db, name :: name in NamesIn(after, db) <==> name in NamesIn(records, db) || AppliedIn(results, db, name)
  {
    if runs != [] {
      var n := |runs| - 1;
      RecordedOnceAndExactlyWhenApplied(records, runs[..n]);
      var (before, results) := RunAll(records, runs[..n]);
      var p := MigrateAll(before, runs[n]);
      var r := runs[n];
      assert Explained(before, Pass(before, [], [], false));
      MigrateTenantsExplained(before, Pass(before, [], [], false), r.tenants, r.files, r.store);
      forall db, name
        ensures name in NamesIn(p.records, db) <==> name in NamesIn(records, db) || AppliedIn(results + p.results, db, name)
      {
        AppliedConcat(results, p.results, db, name);
        assert name in NamesIn(before, db) <==> name in NamesIn(records, db) || AppliedIn(results, db, name);
      }
    }
  }

  // ----- one result per tenant and file -----

  /** The (tenant, migration) pairs a run over one tenant has to report. */
  function TenantWork(tenant: string, files: seq<File>): seq<(string, string)> {
    if files == [] then []
    else
      var n := |files| - 1;
      TenantWork(tenant, files[..n]) + if files[n].sql.Some? then [(tenant, files[n].name)] else []
  }

  function Work(tenants: seq<string>, files: seq<File>): seq<(string, string)> {
    if tenants == [] then []
    else
      var n := |tenants| - 1;
      Work(tenants[..n], files) + TenantWork(tenants[n], files)
  }

  function Reported(results: seq<Result>): seq<(string, string)> {
    seq(|results|, i requires 0 <= i < |results| => (results[i].tenant, results[i].migration))
  }

  /** `p` reports `work` after what was reported before, cut short only by an abort. */
  predicate Reports(p: Pass, before: seq<(string, string)>, work: seq<(string, string)>) {
    && Reported(p.results) <= before + work
    && (!p.aborted ==> Reported(p.results) == before + work)
  }

  lemma ReportedSnoc(p: Pass, tenant: string, file: File, store: Store)
    requires !p.aborted && file.sql.Some?
    ensures var p' := MigrateOne(p, tenant, file, store);
            if p'.aborted then p'.results == p.results else Reported(p'.results) == Reported(p.results) + [(tenant, file.name)]
  {
  }

  lemma {:induction false} TenantReports(p: Pass, tenant: string, files: seq<File>, store: Store,
                                         before: seq<(string, string)>, work: seq<(string, string)>)
    requires Reports(p, before, work)
    ensures Reports(MigrateTenant(p, tenant, files, store), before, work + TenantWork(tenant, files))
  {
    if files != [] {
      var n := |files| - 1;
      var q := MigrateTenant(p, tenant, files[..n], store);
      TenantReports(p, tenant, files[..n], store, before, work);
      var done := work + TenantWork(tenant, files[..n]);
      var all := work + TenantWork(tenant, files);
      assert before + all == (before + done) + all[|done|..];
      if !q.aborted && files[n].sql.Some? {
        assert all == done + [(tenant, files[n].name)];
        ReportedSnoc(q, tenant, files[n], store);
      }
    } else {
      assert work + [] == work;
    }
  }

  lemma {:induction false} TenantsReport(p: Pass, tenants: seq<string>, files: seq<File>, store: Store)
    requires p.results == []
    ensures Reports(MigrateTenants(p, tenants, files, store), [], Work(tenants, files))
  {
    if tenants != [] {
      var n := |tenants| - 1;
      TenantsReport(p, tenants[..n], files, store);
      var started := AbortIf(MigrateTenants(p, tenants[..n], files, store), store.refuses(tenants[n]));
      TenantReports(started, tenants[n], files, store, [], Work(tenants[..n], files));
    }
  }

  /** A run reports one result per tenant and existing file, in order; one that throws has reported the first of them. */
  lemma OneResultEach(records: Records, r: Run)
    ensures var p := MigrateAll(records, r);
            && Reported(p.results) <= Work(r.tenants, r.files)
            && (!p.aborted ==> Reported(p.results) == Work(r.tenants, r.files))
  {
    TenantsReport(Pass(records, [], [], false), r.tenants, r.files, r.store);
    assert [] + Work(r.tenants, r.files) == Work(r.tenants, r.files);
  }

  // ----- what a reported status means -----

  /**
   Result `k` is the truth about its file: "applied" and "failed" about the statements and the INSERT, "already applied"
   about the records before the run and the results before this one.
   */
  ghost predicate Truthful(before: Records, results: seq<Result>, k: nat, files: seq<File>, store: Store)
    requires k < |results|
  {
    var r := results[k];
    && (r.status == AlreadyApplied ==>
          r.migration in NamesIn(before, Database(r.tenant)) || AppliedIn(results[..k], Database(r.tenant), r.migration))
    && exists i :: 0 <= i < |files| && files[i].name == r.migration && files[i].sql.Some?
                && (r.status == Applied ==> GotThrough(store, r.tenant, r.migration, StatementCount(files[i].sql.value)))
                && (r.status == FailedStatus ==> !GotThrough(store, r.tenant, r.migration, StatementCount(files[i].sql.value)))
  }

  ghost predicate AllTruthful(before: Records, p: Pass, files: seq<File>, store: Store) {
    forall k :: 0 <= k < |p.results| ==> Truthful(before, p.results, k, files, store)
  }

  lemma TruthfulStays(before: Records, results: seq<Result>, r: Result, k: nat, files: seq<File>, store: Store)
    requires k < |results| && Truthful(before, results, k, files, store)
    ensures Truthful(before, results + [r], k, files, store)
  {
    assert (results + [r])[..k] == results[..k];
  }

  lemma OneTruthful(before: Records, p: Pass, tenant: string, files: seq<File>, f: nat, store: Store)
    requires f < |files| && Explained(before, p) && AllTruthful(before, p, files, store)
    ensures AllTruthful(before, MigrateOne(p, tenant, files[f], store), files, store)
  {
    var p' := MigrateOne(p, tenant, files[f], store);
    if |p'.results| > |p.results| {
      var n, r := |p.results|, p'.results[|p.results|];
      assert p'.results == p.results + [r];
      forall k | 0 <= k < n ensures Truthful(before, p'.results, k, files, store) {
        TruthfulStays(before, p.results, r, k, files, store);
      }
      assert p'.results[..n] == p.results;
      assert files[f].name == r.migration;
    }
  }

  lemma {:induction false} TenantTruthful(before: Records, p: Pass, tenant: string, files: seq<File>, m: nat, store: Store)
    requires m <= |files| && Explained(before, p) && AllTruthful(before, p, files, store)
    ensures AllTruthful(before, MigrateTenant(p, tenant, files[..m], store), files, store)
  {
    if m > 0 {
      TenantTruthful(before, p, tenant, files, m - 1, store);
      assert files[..m][..m - 1] == files[..m - 1];
      MigrateTenantExplained(before, p, tenant, files[..m - 1], store);
      OneTruthful(before, MigrateTenant(p, tenant, files[..m - 1], store), tenant, files, m - 1, store);
    }
  }

  lemma {:induction false} TenantsTruthful(before: Records, p: Pass, tenants: seq<string>, files: seq<File>, store: Store)
    requires Explained(before, p) && AllTruthful(before, p, files, store)
    ensures AllTruthful(before, MigrateTenants(p, tenants, files, store), files, store)
  {
    if tenants != [] {
      var n := |tenants| - 1;
      TenantsTruthful(before, p, tenants[..n], files, store);
      MigrateTenantsExplained(before, p, tenants[..n], files, store);
      var started := AbortIf(MigrateTenants(p, tenants[..n], files, store), store.refuses(tenants[n]));
      TenantTruthful(before, started, tenants[n], files, |files|, store);
      assert files[..|files|] == files;
    }
  }

  /** Every status a run reports is the truth. */
  lemma StatusesAreTruthful(records: Records, r: Run)
    ensures AllTruthful(records, MigrateAll(records, r), r.files, r.store)
  {
    TenantsTruthful(records, Pass(records, [], [], false), r.tenants, r.files, r.store);
  }

  // ----- recorded exactly when some run got through -----

  /** No SELECT before the first `m` files throws. */
  predicate FilesClear(r: Run, tenant: string, m: nat) {
    forall f :: 0 <= f < m <= |r.files| && r.files[f].sql.Some? ==> !r.store.aborts(tenant, r.files[f].name)
  }

  /** Nothing ends the run before it is through with the first `n` tenants. */
  predicate TenantsClear(r: Run, n: nat) {
    forall t :: 0 <= t < n <= |r.tenants| ==> TenantClear(r, r.tenants[t])
  }

  predicate TenantClear(r: Run, tenant: string) {
    !r.store.refuses(tenant) && FilesClear(r, tenant, |r.files|) && !r.store.drops(tenant)
  }

  predicate FileGotThrough(r: Run, tenant: string, f: nat) {
    && f < |r.files| && r.files[f].sql.Some? && FilesClear(r, tenant, f + 1)
    && GotThrough(r.store, tenant, r.files[f].name, StatementCount(r.files[f].sql.value))
  }

  /** The run reaches file `f` of tenant `t`, and all its statements and the INSERT succeed there: told from the store alone. */
  predicate GetsThrough(r: Run, t: nat, f: nat) {
    && t < |r.tenants| && TenantsClear(r, t) && !r.store.refuses(r.tenants[t])
    && FileGotThrough(r, r.tenants[t], f)
  }

  ghost predicate SomeFile(r: Run, tenant: string, m: nat, name: string) {
    exists f :: 0 <= f < m && FileGotThrough(r, tenant, f) && r.files[f].name == name
  }

  ghost predicate SomeTenant(r: Run, n: nat, db: string, name: string) {
    exists t: nat :: t < n && TenantGotThrough(r, t, db, name)
  }

  ghost predicate TenantGotThrough(r: Run, t: nat, db: string, name: string) {
    && t < |r.tenants| && Database(r.tenants[t]) == db && TenantsClear(r, t) && !r.store.refuses(r.tenants[t])
    && SomeFile(r, r.tenants[t], |r.files|, name)
  }

  lemma OneRecords(p: Pass, tenant: string, file: File, store: Store, db: string, name: string)
    ensures var p' := MigrateOne(p, tenant, file, store);
            && p'.aborted == (p.aborted || (file.sql.Some? && store.aborts(tenant, file.name)))
            && (name in NamesIn(p'.records, db) <==>
                name in NamesIn(p.records, db) ||
                (!p'.aborted && file.sql.Some? && Database(tenant) == db && file.name == name
                 && GotThrough(store, tenant, name, StatementCount(file.sql.value))))
  {}

  lemma {:induction false} FilesRecord(p: Pass, r: Run, tenant: string, m: nat, db: string, name: string)
    requires m <= |r.files|
    ensures var p' := MigrateTenant(p, tenant, r.files[..m], r.store);
            && p'.aborted == (p.aborted || !FilesClear(r, tenant, m))
            && (name in NamesIn(p'.records, db) <==>
                name in NamesIn(p.records, db) || (!p.aborted && Database(tenant) == db && SomeFile(r, tenant, m, name)))
  {
    if m > 0 {
      FilesRecord(p, r, tenant, m - 1, db, name);
      assert r.files[..m][..m - 1] == r.files[..m - 1];
      var q := MigrateTenant(p, tenant, r.files[..m - 1], r.store);
      OneRecords(q, tenant, r.files[m - 1], r.store, db, name);
      ClearSnoc(r, tenant, m);
      SomeFileSnoc(r, tenant, m, name);
    }
  }

  lemma ClearSnoc(r: Run, tenant: string, m: nat)
    requires 0 < m <= |r.files|
    ensures FilesClear(r, tenant, m) <==>
            FilesClear(r, tenant, m - 1) && (r.files[m - 1].sql.Some? ==> !r.store.aborts(tenant, r.files[m - 1].name))
  {
    if FilesClear(r, tenant, m) {
      assert r.files[m - 1].sql.Some? ==> !r.store.aborts(tenant, r.files[m - 1].name);
    }
  }

  lemma SomeFileSnoc(r: Run, tenant: string, m: nat, name: string)
    requires 0 < m <= |r.files|
    ensures SomeFile(r, tenant, m, name) <==>
            SomeFile(r, tenant, m - 1, name) || (FileGotThrough(r, tenant, m - 1) && r.files[m - 1].name == name)
  {
    if SomeFile(r, tenant, m - 1, name) {
      var f :| 0 <= f < m - 1 && FileGotThrough(r, tenant, f) && r.files[f].name == name;
      assert f < m;
    }
    if SomeFile(r, tenant, m, name) {
      var f :| 0 <= f < m && FileGotThrough(r, tenant, f) && r.files[f].name == name;
      assert f < m - 1 || f == m - 1;
    }
  }

  lemma TenantsSnoc(r: Run, n: nat, db: string, name: string)
    requires 0 < n <= |r.tenants|
    ensures var tenant := r.tenants[n - 1];
            && (TenantsClear(r, n) <==> TenantsClear(r, n - 1) && TenantClear(r, tenant))
            && (SomeTenant(r, n, db, name) <==> SomeTenant(r, n - 1, db, name) || TenantGotThrough(r, n - 1, db, name))
  {
  }

  lemma {:induction false} TenantsRecord(records: Records, r: Run, n: nat, db: string, name: string)
    requires n <= |r.tenants|
    ensures var p := MigrateTenants(Pass(records, [], [], false), r.tenants[..n], r.files, r.store);
            && p.aborted == !TenantsClear(r, n)
            && (name in NamesIn(p.records, db) <==> name in NamesIn(records, db) || SomeTenant(r, n, db, name))
  {
    if n > 0 {
      TenantsRecord(records, r, n - 1, db, name);
      assert r.tenants[..n][..n - 1] == r.tenants[..n - 1];
      var q := MigrateTenants(Pass(records, [], [], false), r.tenants[..n - 1], r.files, r.store);
      var started := AbortIf(q, r.store.refuses(r.tenants[n - 1]));
      FilesRecord(started, r, r.tenants[n - 1], |r.files|, db, name);
      assert r.files[..|r.files|] == r.files;
      TenantsSnoc(r, n, db, name);
    }
  }

  /** The run gets through this migration on this database, for some tenant and file. */
  ghost predicate RunGetsThrough(r: Run, db: string, name: string) {
    exists t: nat, f: nat :: GetsThrough(r, t, f) && Database(r.tenants[t]) == db && r.files[f].name == name
  }

  ghost predicate SomeRunGetsThrough(runs: seq<Run>, db: string, name: string) {
    exists i :: 0 <= i < |runs| && RunGetsThrough(runs[i], db, name)
  }

  lemma SomeTenantGetsThrough(r: Run, db: string, name: string)
    ensures RunGetsThrough(r, db, name) <==> SomeTenant(r, |r.tenants|, db, name)
  {
    if SomeTenant(r, |r.tenants|, db, name) {
      var t: nat :| t < |r.tenants| && TenantGotThrough(r, t, db, name);
      var f :| 0 <= f < |r.files| && FileGotThrough(r, r.tenants[t], f) && r.files[f].name == name;
      assert GetsThrough(r, t, f);
    }
    if RunGetsThrough(r, db, name) {
      var t: nat, f: nat :| GetsThrough(r, t, f) && Database(r.tenants[t]) == db && r.files[f].name == name;
      assert FileGotThrough(r, r.tenants[t], f);
      assert TenantGotThrough(r, t, db, name);
    }
  }

  /** A run that gets through leaves the record, and nothing else does. */
  lemma RunRecordsExactly(records: Records, r: Run, db: string, name: string)
    ensures name in NamesIn(MigrateAll(records, r).records, db) <==>
            name in NamesIn(records, db) || RunGetsThrough(r, db, name)
  {
    TenantsRecord(records, r, |r.tenants|, db, name);
    assert r.tenants[..|r.tenants|] == r.tenants;
    SomeTenantGetsThrough(r, db, name);
  }

  lemma SomeRunSnoc(runs: seq<Run>, db: string, name: string)
    requires runs != []
    ensures var n := |runs| - 1;
            SomeRunGetsThrough(runs, db, name) <==>
            SomeRunGetsThrough(runs[..n], db, name) || RunGetsThrough(runs[n], db, name)
  {
    var n := |runs| - 1;
    assert forall i :: 0 <= i < n ==> runs[..n][i] == runs[i];
  }

  /**
   Over any number of runs with arbitrary failures, a migration is recorded at most once per database, and it is recorded
   if and only if it was before, or some run reached it and got through all its statements and the record's INSERT.
   */
  lemma {:induction false} RecordedExactlyWhenGotThrough(records: Records, runs: seq<Run>, db: string, name: string)
    ensures Once(records) ==> Once(RunAll(records, runs).0)
    ensures name in NamesIn(RunAll(records, runs).0, db) <==>
            name in NamesIn(records, db) || SomeRunGetsThrough(runs, db, name)
  {
    if Once(records) { RecordedOnceAndExactlyWhenApplied(records, runs); }
    if runs != [] {
      var n := |runs| - 1;
      RecordedExactlyWhenGotThrough(records, runs[..n], db, name);
      RunRecordsExactly(RunAll(records, runs[..n]).0, runs[n], db, name);
      SomeRunSnoc(runs, db, name);
    }
  }

  // ----- a run after a clean one does nothing -----

  ghost predicate Grows(before: Records, after: Records) {
    forall db, name :: name in NamesIn(before, db) ==> name in NamesIn(after, db)
  }

  predicate NoFailures(results: seq<Result>) {
    forall i :: 0 <= i < |results| ==> results[i].status != FailedStatus
  }

  /** Every existing file of the list is recorded for the tenant. */
  predicate Recorded(records: Records, tenant: string, files: seq<File>) {
    forall i :: 0 <= i < |files| && files[i].sql.Some? ==> files[i].name in NamesIn(records, Database(tenant))
  }

  lemma {:induction false} TenantGrows(p: Pass, tenant: string, files: seq<File>, store: Store)
    ensures var p' := MigrateTenant(p, tenant, files, store);
            && Grows(p.records, p'.records)
            && p.results <= p'.results
            && (p.aborted ==> p'.aborted)
            && (!p'.aborted && NoFailures(p'.results) ==> Recorded(p'.records, tenant, files))
  {
    if files != [] {
      var n := |files| - 1;
      TenantGrows(p, tenant, files[..n], store);
      var q := MigrateTenant(p, tenant, files[..n], store);
      var p' := MigrateOne(q, tenant, files[n], store);
      assert q.results <= p'.results;
      assert Grows(q.records, p'.records);
      if !p'.aborted && NoFailures(p'.results) {
        assert NoFailures(q.results) by {
          assert forall i :: 0 <= i < |q.results| ==> q.results[i] == p'.results[i];
        }
        if files[n].sql.Some? && |p'.results| > |q.results| {
          assert p'.results[|q.results|].status != FailedStatus;
        }
        forall i | 0 <= i < |files| && files[i].sql.Some?
          ensures files[i].name in NamesIn(p'.records, Database(tenant))
        {
          if i < n {
            assert files[..n][i] == files[i];
            assert files[i].name in NamesIn(q.records, Database(tenant));
          }
        }
      }
    }
  }

  lemma {:induction false} TenantsGrow(p: Pass, tenants: seq<string>, files: seq<File>, store: Store)
    ensures var p' := MigrateTenants(p, tenants, files, store);
            && Grows(p.records, p'.records)
            && (!p'.aborted && NoFailures(p'.results) ==>
                  forall t :: 0 <= t < |tenants| ==> Recorded(p'.records, tenants[t], files))
  {
    if tenants != [] {
      var n := |tenants| - 1;
      TenantsGrow(p, tenants[..n], files, store);
      var q := AbortIf(MigrateTenants(p, tenants[..n], files, store), store.refuses(tenants[n]));
      TenantGrows(q, tenants[n], files, store);
      var p' := MigrateTenants(p, tenants, files, store);
      if !p'.aborted && NoFailures(p'.results) {
        assert NoFailures(q.results) by {
          assert forall i :: 0 <= i < |q.results| ==> q.results[i] == p'.results[i];
        }
        forall t | 0 <= t < |tenants| ensures Recorded(p'.records, tenants[t], files) {
          if t < n {
            assert tenants[..n][t] == tenants[t];
            RecordedStays(q.records, p'.records, tenants[t], files);
          }
        }
      }
    }
  }

  lemma RecordedStays(before: Records, after: Records, tenant: string, files: seq<File>)
    requires Grows(before, after) && Recorded(before, tenant, files)
    ensures Recorded(after, tenant, files)
  {
  }

  lemma {:induction false} RunsGrow(records: Records, runs: seq<Run>)
    ensures Grows(records, RunAll(records, runs).0)
  {
    if runs != [] {
      var n := |runs| - 1;
      RunsGrow(records, runs[..n]);
      var r := runs[n];
      TenantsGrow(Pass(RunAll(records, runs[..n]).0, [], [], false), r.tenants, r.files, r.store);
    }
  }

  /** Nothing executed, nothing recorded, every result so far "already applied". */
  predicate Idle(p: Pass, records: Records) {
    && p.records == records
    && p.executed == []
    && forall i :: 0 <= i < |p.results| ==> p.results[i].status == AlreadyApplied
  }

  lemma {:induction false} TenantIdle(p: Pass, records: Records, tenant: string, files: seq<File>, store: Store)
    requires Idle(p, records) && Recorded(records, tenant, files)
    ensures Idle(MigrateTenant(p, tenant, files, store), records)
  {
    if files != [] {
      var n := |files| - 1;
      assert forall i :: 0 <= i < n ==> files[..n][i] == files[i];
      TenantIdle(p, records, tenant, files[..n], store);
    }
  }

  lemma {:induction false} TenantsIdle(p: Pass, records: Records, tenants: seq<string>, files: seq<File>, store: Store)
    requires Idle(p, records) && forall t :: 0 <= t < |tenants| ==> Recorded(records, tenants[t], files)
    ensures Idle(MigrateTenants(p, tenants, files, store), records)
  {
    if tenants != [] {
      var n := |tenants| - 1;
      assert forall t :: 0 <= t < n ==> tenants[..n][t] == tenants[t];
      TenantsIdle(p, records, tenants[..n], files, store);
      var started := AbortIf(MigrateTenants(p, tenants[..n], files, store), store.refuses(tenants[n]));
      TenantIdle(started, records, tenants[n], files, store);
    }
  }

  /**
   After a run that reached the end with no "failed" result, a later run over the same tenants and files executes
   no statement and records nothing, whatever ran in between and however the store behaves.
   */
  lemma AfterACleanRunNothingExecutes(records: Records, clean: Run, between: seq<Run>, store: Store)
    requires var p := MigrateAll(records, clean); !p.aborted && NoFailures(p.results)
    ensures var later := RunAll(MigrateAll(records, clean).records, between).0;
            Idle(MigrateAll(later, Run(clean.tenants, clean.files, store)), later)
  {
    var p := MigrateAll(records, clean);
    TenantsGrow(Pass(records, [], [], false), clean.tenants, clean.files, clean.store);
    RunsGrow(p.records, between);
    var later := RunAll(p.records, between).0;
    forall t | 0 <= t < |clean.tenants| ensures Recorded(later, clean.tenants[t], clean.files) {
      RecordedStays(p.records, later, clean.tenants[t], clean.files);
    }
    TenantsIdle(Pass(later, [], [], false), later, clean.tenants, clean.files, store);
  }

  // ----- what was executed -----

  predicate DistinctFiles(files: seq<File>) {
    forall i, j :: 0 <= i < j < |files| ==> files[i].name != files[j].name
  }

  /** How many statements the migration of that name has. */
  function FileCount(files: seq<File>, name: string): nat {
    if files == [] then 0
    else if files[0].name == name then (if files[0].sql.Some? then StatementCount(files[0].sql.value) else 0)
    else FileCount(files[1..], name)
  }

  lemma {:induction false} FileCountAt(files: seq<File>, f: nat)
    requires f < |files| && DistinctFiles(files) && files[f].sql.Some?
    ensures FileCount(files, files[f].name) == StatementCount(files[f].sql.value)
  {
    if f > 0 { FileCountAt(files[1..], f - 1); }
  }

  function TraceOf(r: Result, files: seq<File>, store: Store): seq<Executed> {
    TraceFor(r, FileCount(files, r.migration), store)
  }

  function TraceOfAll(results: seq<Result>, files: seq<File>, store: Store): seq<Executed> {
    if results == [] then []
    else TraceOfAll(results[..|results| - 1], files, store) + TraceOf(results[|results| - 1], files, store)
  }

  lemma TraceSnoc(results: seq<Result>, r: Result, files: seq<File>, store: Store)
    ensures TraceOfAll(results + [r], files, store) == TraceOfAll(results, files, store) + TraceOf(r, files, store)
  {
    assert (results + [r])[..|results|] == results;
  }

  ghost predicate Traced(p: Pass, files: seq<File>, store: Store) {
    p.executed == TraceOfAll(p.results, files, store)
  }

  /** All statements of an applied migration, those up to the failing one of a failed migration, none of one already applied. */
  function TraceFor(r: Result, count: nat, store: Store): seq<Executed> {
    match r.status
    case Applied => Trace(r.tenant, r.migration, count)
    case FailedStatus => Trace(r.tenant, r.migration, Tried(store, r.tenant, r.migration, count))
    case AlreadyApplied => []
  }

  /** One file adds at most one result, and to the log what that result says. */
  lemma OneAdds(p: Pass, tenant: string, file: File, store: Store)
    ensures var p' := MigrateOne(p, tenant, file, store);
            || (p'.results == p.results && p'.executed == p.executed)
            || (file.sql.Some? && exists st: Status :: AddsResult(p, p', Result(tenant, file.name, st), StatementCount(file.sql.value), store))
  {
    var p' := MigrateOne(p, tenant, file, store);
    if !p.aborted && file.sql.Some? && !store.aborts(tenant, file.name) {
      var count := StatementCount(file.sql.value);
      if file.name in RecordsOf(p.records, tenant) {
        assert p.executed + [] == p.executed;
        assert AddsResult(p, p', Result(tenant, file.name, AlreadyApplied), count, store);
      } else if GotThrough(store, tenant, file.name, count) {
        TriedExactly(store, tenant, file.name, count);
        assert AddsResult(p, p', Result(tenant, file.name, Applied), count, store);
      } else {
        assert AddsResult(p, p', Result(tenant, file.name, FailedStatus), count, store);
      }
    }
  }

  ghost predicate AddsResult(p: Pass, p': Pass, r: Result, count: nat, store: Store) {
    p'.results == p.results + [r] && p'.executed == p.executed + TraceFor(r, count, store)
  }

  lemma TracedNext(p: Pass, p': Pass, r: Result, count: nat, files: seq<File>, store: Store)
    requires Traced(p, files, store) && AddsResult(p, p', r, count, store) && FileCount(files, r.migration) == count
    ensures Traced(p', files, store)
  {
    TraceSnoc(p.results, r, files, store);
  }

  lemma OneTraced(p: Pass, tenant: string, files: seq<File>, f: nat, store: Store)
    requires f < |files| && DistinctFiles(files) && Traced(p, files, store)
    ensures Traced(MigrateOne(p, tenant, files[f], store), files, store)
  {
    var p' := MigrateOne(p, tenant, files[f], store);
    OneAdds(p, tenant, files[f], store);
    if !(p'.results == p.results && p'.executed == p.executed) {
      var st: Status :| AddsResult(p, p', Result(tenant, files[f].name, st), StatementCount(files[f].sql.value), store);
      FileCountAt(files, f);
      TracedNext(p, p', Result(tenant, files[f].name, st), StatementCount(files[f].sql.value), files, store);
    }
  }

  lemma {:induction false} TenantTraced(p: Pass, tenant: string, files: seq<File>, m: nat, store: Store)
    requires m <= |files| && DistinctFiles(files) && Traced(p, files, store)
    ensures Traced(MigrateTenant(p, tenant, files[..m], store), files, store)
  {
    if m > 0 {
      TenantTraced(p, tenant, files, m - 1, store);
      assert files[..m][..m - 1] == files[..m - 1];
      OneTraced(MigrateTenant(p, tenant, files[..m - 1], store), tenant, files, m - 1, store);
    }
  }

  lemma {:induction false} TenantsTraced(p: Pass, tenants: seq<string>, files: seq<File>, store: Store)
    requires DistinctFiles(files) && Traced(p, files, store)
    ensures Traced(MigrateTenants(p, tenants, files, store), files, store)
  {
    if tenants != [] {
      var n := |tenants| - 1;
      TenantsTraced(p, tenants[..n], files, store);
      var started := AbortIf(MigrateTenants(p, tenants[..n], files, store), store.refuses(tenants[n]));
      TenantTraced(started, tenants[n], files, |files|, store);
      assert files[..|files|] == files;
    }
  }

  /**
   What a run executes, in order, is for each result it reports: every statement of an applied migration once, those of a
   failed one up to and including the statement that failed, none of one already applied.
   */
  lemma ExecutedExactly(records: Records, r: Run)
    requires DistinctFiles(r.files)
    ensures var p := MigrateAll(records, r); p.executed == TraceOfAll(p.results, r.files, r.store)
  {
    TenantsTraced(Pass(records, [], [], false), r.tenants, r.files, r.store);
  }
}
