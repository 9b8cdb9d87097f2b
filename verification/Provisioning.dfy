/**
 The database-creation handler: create the tenant database, run its migrations in sorted order, drop it again when
 something fails, and treat an error that says "already exists" as success.
 */
module Provisioning {
  import opened Wrappers
  import opened Text
  import opened Sorting
  import Splitter = MigrationSplitter

  /** A directory under tenant_migrations; `sql` is absent when it holds no migration.sql. */
  datatype Dir = Dir(name: string, sql: Option<string>)

  /** A row of `_prisma_migrations`. */
  datatype Row = Row(name: string, finished: bool, rolledBack: bool)

  type Databases = map<string, seq<Row>>

  datatype Outcome = Ok | Failed

  /**
   What goes wrong in one run of the handler. `create`: CREATE DATABASE is refused for a reason of its own;
   `disconnect`: closing the admin connection after it fails, and that error replaces one before it; `at`: the number
   of the failing operation on the tenant connection (any number past the last: none); `saysExists`: the error's text
   contains "already exists"; `mark`: the UPDATE that marks a failed migration as rolled back fails too, and its error is
   the one reported; `drop`: the rollback's DROP DATABASE fails too.
   */
  datatype Faults = Faults(create: bool, disconnect: bool, at: nat, saysExists: bool, mark: bool, drop: bool)

  // ----- names -----

  const PREFIX := "tenant_"

  function DatabaseName(tenantCode: string): string {
    PREFIX + Lower(tenantCode)
  }

  predicate NameLeq(a: Dir, b: Dir) {
    TextLeq(a.name, b.name)
  }

  predicate TextLeq(a: string, b: string) {
    if a == "" then true
    else if b == "" then false
    else a[0] < b[0] || (a[0] == b[0] && TextLeq(a[1..], b[1..]))
  }

  lemma {:induction false} TextLeqTotal(a: string, b: string)
    ensures TextLeq(a, b) || TextLeq(b, a)
  {
    if a != "" && b != "" { TextLeqTotal(a[1..], b[1..]); }
  }

  lemma {:induction false} TextLeqTransitive(a: string, b: string, c: string)
    requires TextLeq(a, b) && TextLeq(b, c)
    ensures TextLeq(a, c)
  {
    if a != "" && b != "" && c != "" && a[0] == b[0] == c[0] { TextLeqTransitive(a[1..], b[1..], c[1..]); }
  }

  lemma NameLeqIsOrder()
    ensures TotalPreorder(NameLeq)
  {
    forall a: Dir, b: Dir ensures NameLeq(a, b) || NameLeq(b, a) { TextLeqTotal(a.name, b.name); }
    forall a: Dir, b: Dir, c: Dir | NameLeq(a, b) && NameLeq(b, c) ensures NameLeq(a, c) {
      TextLeqTransitive(a.name, b.name, c.name);
    }
  }

  // ----- the migrations -----

  /** The statements of a script that reach the store: all but those the users-table test skips. */
  function Executed(sql: string, skip: string -> bool): seq<string> {
    Kept(Splitter.Statements(sql), skip)
  }

  function Kept(statements: seq<string>, skip: string -> bool): seq<string> {
    if statements == [] then []
    else
      var n := |statements| - 1;
      Kept(statements[..n], skip) + if skip(statements[n]) then [] else [statements[n]]
  }

  predicate Recorded(rows: seq<Row>, name: string) {
    exists i :: 0 <= i < |rows| && rows[i].name == name
  }

  /** How far the tenant connection has got: the rows written, the operations performed, whether one failed. */
  datatype Progress = Progress(rows: seq<Row>, ops: nat, failed: bool)

  /** One directory: SELECT, INSERT, the statements, UPDATE; or, when recorded already, only the SELECT. */
  function Migrate(p: Progress, dir: Dir, at: nat, mark: bool, skip: string -> bool): Progress {
    if p.failed || dir.sql.None? then p
    else if p.ops == at then p.(ops := at, failed := true)
    else if Recorded(p.rows, dir.name) then p.(ops := p.ops + 1)
    else if p.ops + 1 == at then p.(ops := at, failed := true)
    else
      var n := |Executed(dir.sql.value, skip)|;
      if p.ops + 2 <= at <= p.ops + 2 + n
      then Progress(p.rows + [Row(dir.name, false, !mark)], at, true)
      else Progress(p.rows + [Row(dir.name, true, false)], p.ops + 3 + n, false)
  }

  function MigrateAll(dirs: seq<Dir>, at: nat, mark: bool, skip: string -> bool): Progress {
    if dirs == [] then Progress([], 2, at < 2)
    else Migrate(MigrateAll(dirs[..|dirs| - 1], at, mark, skip), dirs[|dirs| - 1], at, mark, skip)
  }

  /** Connect, create the migrations table, migrate, disconnect. */
  function Fill(dirs: seq<Dir>, at: nat, mark: bool, skip: string -> bool): Progress {
    var p := MigrateAll(Sort(dirs, NameLeq), at, mark, skip);
    if p.failed || p.ops == at then p.(failed := true) else p
  }

  function Provision(dbs: Databases, name: string, dirs: seq<Dir>, skip: string -> bool, f: Faults): (Databases, Outcome) {
    var onError := if f.saysExists then Ok else Failed;
    if f.create then (dbs, onError)
    else if name in dbs then (dbs, if f.disconnect then onError else Ok)
    else if f.disconnect then (dbs[name := []], onError)
    else
      var p := Fill(dirs, f.at, f.mark, skip);
      if !p.failed then (dbs[name := p.rows], Ok)
      else (if f.drop then dbs[name := p.rows] else dbs, onError)
  }

  // ----- the handler -----

  class Server {
    var databases: Databases

    constructor ()
      ensures databases == map[]
    {
      databases := map[];
    }

    /** The statement loop of one migration: the statements that ran before operation `at` failed. */
    method ExecuteStatements(sql: string, skip: string -> bool, first: nat, at: nat)
      returns (ops: nat, failed: bool, ran: seq<string>)
      ensures var n := |Executed(sql, skip)|;
              && failed == (first <= at < first + n)
              && (failed ==> ops == at) && (!failed ==> ops == first + n)
              && first <= ops && ran == Executed(sql, skip)[..ops - first]
    {
      var statements, closed, remainder := Splitter.SplitStatements(sql);
      failed, ran := RunStatements(statements, skip, first, at);
      ops := first + |ran|;
      assert Executed(sql, skip) == Kept(statements, skip);
    }

    /** Those that are not skipped, one after the other, until operation `at` fails. */
    method RunStatements(statements: seq<string>, skip: string -> bool, first: nat, at: nat)
      returns (failed: bool, ran: seq<string>)
      ensures var all := Kept(statements, skip);
              && failed == (first <= at < first + |all|)
              && |ran| <= |all| && ran == all[..|ran|] && |ran| == if failed then at - first else |all|
    {
      failed, ran := false, [];
      var i := 0;
      while i < |statements|
        invariant 0 <= i <= |statements|
        invariant ran == Kept(statements[..i], skip)
        invariant !(first <= at < first + |ran|)
      {
        KeptSnoc(statements, i, skip);
        if !skip(statements[i]) {
          if first + |ran| == at {
            KeptSoFar(statements, i, skip);
            failed := true;
            return;
          }
          ran := ran + [statements[i]];
        }
        i := i + 1;
      }
      assert statements[..i] == statements;
    }

    method CreateAndMigrateTenantDatabase(tenantCode: string, dirs: seq<Dir>, skip: string -> bool, f: Faults)
      returns (r: Outcome)
      modifies this
      ensures (databases, r) == Provision(old(databases), DatabaseName(tenantCode), dirs, skip, f)
    {
      var name := DatabaseName(tenantCode);
      var onError := if f.saysExists then Ok else Failed;
      if f.create { return onError; }
      if name in databases { return if f.disconnect then onError else Ok; }
      var before := databases;
      databases := databases[name := []];
      if f.disconnect { return onError; }
      var p := FillTenantDatabase(dirs, skip, f.at, f.mark);
      databases := databases[name := p.rows];
      assert databases == before[name := p.rows];
      if p.failed {
        if !f.drop { databases := before; }
        return onError;
      }
      r := Ok;
    }

    /** Steps 2 to 4 on the tenant connection. */
    method FillTenantDatabase(dirs: seq<Dir>, skip: string -> bool, at: nat, mark: bool) returns (p: Progress)
      ensures p == Fill(dirs, at, mark, skip)
    {
      var sorted := Sort(dirs, NameLeq);
      var rows, ops, failed := [], 2, at < 2;
      var i := 0;
      while i < |sorted|
        invariant 0 <= i <= |sorted|
        invariant MigrateAll(sorted[..i], at, mark, skip) == Progress(rows, ops, failed)
      {
        MigrateAllSnoc(sorted, i, at, mark, skip);
        i := i + 1;
        if !failed {
          rows, ops, failed := MigrateDirectory(rows, ops, sorted[i - 1], at, mark, skip);
        }
      }
      assert sorted[..i] == sorted;
      p := Progress(rows, ops, failed || ops == at);
    }

    method MigrateDirectory(rows: seq<Row>, ops: nat, dir: Dir, at: nat, mark: bool, skip: string -> bool)
      returns (rows': seq<Row>, ops': nat, failed: bool)
      ensures Progress(rows', ops', failed) == Migrate(Progress(rows, ops, false), dir, at, mark, skip)
    {
      rows', ops', failed := rows, ops, false;
      if dir.sql.None? { return; }
      if ops == at { failed := true; return; }
      if Recorded(rows, dir.name) { ops' := ops + 1; return; }
      if ops + 1 == at { ops', failed := at, true; return; }
      var ran;
      ops', failed, ran := ExecuteStatements(dir.sql.value, skip, ops + 2, at);
      if failed || ops' == at {
        rows', ops', failed := rows + [Row(dir.name, false, !mark)], at, true;
      } else {
        rows', ops' := rows + [Row(dir.name, true, false)], ops' + 1;
      }
    }
  }

  lemma MigrateAllSnoc(dirs: seq<Dir>, i: nat, at: nat, mark: bool, skip: string -> bool)
    requires i < |dirs|
    ensures MigrateAll(dirs[..i + 1], at, mark, skip) == Migrate(MigrateAll(dirs[..i], at, mark, skip), dirs[i], at, mark, skip)
  {
    assert dirs[..i + 1][..i] == dirs[..i];
  }

  lemma KeptSnoc(statements: seq<string>, i: nat, skip: string -> bool)
    requires i < |statements|
    ensures Kept(statements[..i + 1], skip) == Kept(statements[..i], skip) + if skip(statements[i]) then [] else [statements[i]]
  {
    assert statements[..i + 1][..i] == statements[..i];
  }

  /** A statement that is not skipped is not among those kept before it. */
  lemma KeptSoFar(statements: seq<string>, i: nat, skip: string -> bool)
    requires i < |statements| && !skip(statements[i])
    ensures var before, all := Kept(statements[..i], skip), Kept(statements, skip);
            |before| < |all| && all[..|before|] == before
  {
    KeptSnoc(statements, i, skip);
    KeptGrows(statements, i + 1, skip);
    KeptGrows(statements, i, skip);
  }

  lemma {:induction false} KeptGrows(statements: seq<string>, i: nat, skip: string -> bool)
    requires i <= |statements|
    ensures Kept(statements[..i], skip) <= Kept(statements, skip)
  {
    if i == |statements| {
      assert statements[..i] == statements;
    } else {
      var n := |statements| - 1;
      assert statements[..n][..i] == statements[..i];
      KeptGrows(statements[..n], i, skip);
    }
  }

  // ----- complete databases -----

  /** Every migration finished, once, in the order of the directories given. */
  function Complete(dirs: seq<Dir>): seq<Row> {
    if dirs == [] then []
    else
      var n := |dirs| - 1;
      Complete(dirs[..n]) + if dirs[n].sql.Some? then [Row(dirs[n].name, true, false)] else []
  }

  /** Directory names are distinct. */
  predicate Distinct(dirs: seq<Dir>) {
    forall i, j :: 0 <= i < j < |dirs| ==> dirs[i].name != dirs[j].name
  }

  lemma {:induction false} CompleteNames(dirs: seq<Dir>, name: string)
    requires Recorded(Complete(dirs), name)
    ensures exists i :: 0 <= i < |dirs| && dirs[i].name == name
  {
    if dirs != [] {
      var n := |dirs| - 1;
      var rows := Complete(dirs[..n]);
      if Recorded(rows, name) {
        CompleteNames(dirs[..n], name);
        var i :| 0 <= i < n && dirs[..n][i].name == name;
        assert dirs[i].name == name;
      } else {
        assert dirs[n].name == name;
      }
    }
  }

  /** Nothing has failed: the rows are complete for the directories done. Something has: they never will be. */
  ghost predicate Sane(p: Progress, dirs: seq<Dir>, at: nat) {
    && (!p.failed ==> p.rows == Complete(dirs) && p.ops >= 2 && !(at < p.ops))
    && (p.failed && Complete(dirs) != [] ==> Spoiled(p.rows, |Complete(dirs)|))
    && (p.failed && Complete(dirs) == [] ==> p.rows == [])
    && (p.failed ==> at <= p.ops)
  }

  /** Too short, or with a migration that is not finished at its end. */
  predicate Spoiled(rows: seq<Row>, length: nat) {
    |rows| < length || (rows != [] && !rows[|rows| - 1].finished)
  }

  lemma {:induction false} MigrateAllSane(dirs: seq<Dir>, at: nat, mark: bool, skip: string -> bool)
    requires Distinct(dirs)
    ensures Sane(MigrateAll(dirs, at, mark, skip), dirs, at)
  {
    if dirs != [] {
      var n := |dirs| - 1;
      MigrateAllSane(dirs[..n], at, mark, skip);
      var p := MigrateAll(dirs[..n], at, mark, skip);
      if !p.failed && dirs[n].sql.Some? {
        NotYetRecorded(dirs, p.rows);
      }
    }
  }

  // ----- what one handler run leaves behind -----

  /** Each tenant database is absent or has every migration finished once, in sorted order. */
  ghost predicate Good(dbs: Databases, dirs: seq<Dir>) {
    forall d :: d in dbs ==> dbs[d] == Complete(Sort(dirs, NameLeq))
  }

  /** A run that reports success has its database in place. */
  ghost predicate Honest(dbs: Databases, name: string, r: Outcome) {
    r == Ok ==> name in dbs
  }

  function LastOp(dirs: seq<Dir>, skip: string -> bool): nat {
    if dirs == [] then 2
    else
      var n := |dirs| - 1;
      LastOp(dirs[..n], skip) + if dirs[n].sql.Some? then 3 + |Executed(dirs[n].sql.value, skip)| else 0
  }

  /**
   The faults that do harm when the database is not there yet: an error that claims "already exists", a connection
   that does not close after CREATE DATABASE, a DROP that fails before the last migration was done.
   */
  predicate Harmful(f: Faults, dirs: seq<Dir>, skip: string -> bool) {
    var sorted := Sort(dirs, NameLeq);
    var any := Complete(sorted) != [];
    if f.create then f.saysExists
    else if f.disconnect then any
    else if f.at > LastOp(sorted, skip) then false
    else if f.drop then any && f.at < LastOp(sorted, skip)
    else f.saysExists
  }

  lemma {:induction false} MigrateAllOps(dirs: seq<Dir>, at: nat, mark: bool, skip: string -> bool)
    requires Distinct(dirs)
    ensures var p := MigrateAll(dirs, at, mark, skip);
            && p.failed == (at < LastOp(dirs, skip))
            && (!p.failed ==> p.ops == LastOp(dirs, skip))
  {
    if dirs != [] {
      var n := |dirs| - 1;
      MigrateAllOps(dirs[..n], at, mark, skip);
      MigrateAllSane(dirs[..n], at, mark, skip);
      var p := MigrateAll(dirs[..n], at, mark, skip);
      if !p.failed && dirs[n].sql.Some? {
        NotYetRecorded(dirs, p.rows);
        MigrateOps(p, dirs[n], at, mark, skip);
      }
    }
  }

  lemma MigrateOps(p: Progress, dir: Dir, at: nat, mark: bool, skip: string -> bool)
    requires dir.sql.Some? && !p.failed && p.ops <= at && !Recorded(p.rows, dir.name)
    ensures var q, end := Migrate(p, dir, at, mark, skip), p.ops + 3 + |Executed(dir.sql.value, skip)|;
            q.failed == (at < end) && (!q.failed ==> q.ops == end)
  {}

  lemma NotYetRecorded(dirs: seq<Dir>, rows: seq<Row>)
    requires dirs != [] && Distinct(dirs) && rows == Complete(dirs[..|dirs| - 1])
    ensures !Recorded(rows, dirs[|dirs| - 1].name)
  {
    var n := |dirs| - 1;
    if Recorded(rows, dirs[n].name) {
      CompleteNames(dirs[..n], dirs[n].name);
    }
  }

  lemma {:induction false} InsertKeepsDistinct(x: Dir, s: seq<Dir>)
    requires Distinct(s) && forall i :: 0 <= i < |s| ==> s[i].name != x.name
    ensures Distinct(Insert(x, s, NameLeq))
    ensures forall d :: d in Insert(x, s, NameLeq) ==> d == x || d in s
  {
    if s != [] && !NameLeq(x, s[0]) {
      InsertKeepsDistinct(x, s[1..]);
      var t := Insert(x, s[1..], NameLeq);
      forall i | 0 <= i < |t| ensures t[i].name != s[0].name {
        if t[i] != x {
          assert t[i] in s[1..];
          var j :| 0 <= j < |s| - 1 && s[1..][j] == t[i];
          assert s[j + 1] == t[i];
        }
      }
    }
  }

  lemma {:induction false} SortKeepsDistinct(dirs: seq<Dir>)
    requires Distinct(dirs)
    ensures Distinct(Sort(dirs, NameLeq))
    ensures forall d :: d in Sort(dirs, NameLeq) ==> d in dirs
  {
    if dirs != [] {
      SortKeepsDistinct(dirs[1..]);
      var rest := Sort(dirs[1..], NameLeq);
      forall i | 0 <= i < |rest| ensures rest[i].name != dirs[0].name {
        assert rest[i] in dirs[1..];
      }
      InsertKeepsDistinct(dirs[0], rest);
    }
  }

  /** What `Fill` leaves: complete rows exactly when nothing failed or only the last disconnect did. */
  lemma FillOutcome(dirs: seq<Dir>, at: nat, mark: bool, skip: string -> bool)
    requires Distinct(dirs)
    ensures var p, sorted := Fill(dirs, at, mark, skip), Sort(dirs, NameLeq);
            && p.failed == (at <= LastOp(sorted, skip))
            && (p.rows == Complete(sorted) <==> at >= LastOp(sorted, skip) || Complete(sorted) == [])
  {
    var sorted := Sort(dirs, NameLeq);
    SortKeepsDistinct(dirs);
    MigrateAllSane(sorted, at, mark, skip);
    MigrateAllOps(sorted, at, mark, skip);
    AllFinished(sorted);
  }

  lemma {:induction false} AllFinished(dirs: seq<Dir>)
    ensures forall i :: 0 <= i < |Complete(dirs)| ==> Complete(dirs)[i].finished
  {
    if dirs != [] { AllFinished(dirs[..|dirs| - 1]); }
  }

  /**
   From good databases, a handler run leaves good databases and an honest report exactly when its faults are not
   harmful or the database was there before.
   */
  lemma HandlerIsSafeExactly(dbs: Databases, name: string, dirs: seq<Dir>, skip: string -> bool, f: Faults)
    requires Distinct(dirs) && Good(dbs, dirs)
    ensures var (dbs', r) := Provision(dbs, name, dirs, skip, f);
            Good(dbs', dirs) && Honest(dbs', name, r) <==> name in dbs || !Harmful(f, dirs, skip)
  {
    FillOutcome(dirs, f.at, f.mark, skip);
    var (dbs', r) := Provision(dbs, name, dirs, skip, f);
    if name in dbs' && name !in dbs {
      assert Good(dbs', dirs) <==> dbs'[name] == Complete(Sort(dirs, NameLeq));
    }
  }

  /** The sorted directories are the given ones, in name order. */
  lemma SortedDirs(dirs: seq<Dir>)
    ensures SortedBy(Sort(dirs, NameLeq), NameLeq) && multiset(Sort(dirs, NameLeq)) == multiset(dirs)
  {
    NameLeqIsOrder();
    SortSorts(dirs, NameLeq);
  }

  // ----- what a handler run comes to, fault by fault -----

  /** Nothing goes wrong on the tenant connection. */
  predicate CleanFill(f: Faults, dirs: seq<Dir>, skip: string -> bool) {
    f.at > LastOp(Sort(dirs, NameLeq), skip)
  }

  /**
   The outcome of a handler run for every pattern of faults. It reports success if and only if an error says "already
   exists", or nothing failed before the database was there or was filled. It leaves every other database alone and one
   that was there as it was. A database that was not there exists afterwards if and only if it was created and then
   neither the filling nor, failing that, the DROP undid it; and if nothing failed it is complete.
   */
  lemma ProvisionExactly(dbs: Databases, name: string, dirs: seq<Dir>, skip: string -> bool, f: Faults)
    requires Distinct(dirs)
    ensures var (dbs', r) := Provision(dbs, name, dirs, skip, f); var clean := CleanFill(f, dirs, skip);
            && (r == Ok <==> f.saysExists || (!f.create && !f.disconnect && (name in dbs || clean)))
            && dbs' - {name} == dbs - {name}
            && (name in dbs' <==> name in dbs || (!f.create && (f.disconnect || clean || f.drop)))
            && (name in dbs ==> dbs'[name] == dbs[name])
            && (name !in dbs && !f.create && !f.disconnect && clean ==> dbs' == dbs[name := Complete(Sort(dirs, NameLeq))])
  {
    FillOutcome(dirs, f.at, f.mark, skip);
  }

  // ----- what is executed -----

  /** Exactly the statements that are not skipped, each as often as the script has it. */
  lemma {:induction false} KeptExactly(statements: seq<string>, skip: string -> bool, statement: string)
    ensures multiset(Kept(statements, skip))[statement] == if skip(statement) then 0 else multiset(statements)[statement]
  {
    if statements != [] {
      var n := |statements| - 1;
      KeptExactly(statements[..n], skip, statement);
      CountSnoc(statements[..n], statements[n], statement);
      CountSnoc(Kept(statements[..n], skip), statements[n], statement);
      assert statements == statements[..n] + [statements[n]];
      assert skip(statements[n]) ==> Kept(statements, skip) == Kept(statements[..n], skip);
    }
  }

  lemma CountSnoc(s: seq<string>, x: string, y: string)
    ensures multiset(s + [x])[y] == multiset(s)[y] + if x == y then 1 else 0
  {}

  /** In the order of the script. */
  lemma {:induction false} KeptInOrder(a: seq<string>, b: seq<string>, skip: string -> bool)
    ensures Kept(a + b, skip) == Kept(a, skip) + Kept(b, skip)
  {
    if b == [] {
      assert a + b == a;
    } else {
      var n := |b| - 1;
      assert (a + b)[..|a + b| - 1] == a + b[..n];
      KeptInOrder(a, b[..n], skip);
    }
  }

  // ----- the order of names -----

  /** `TextLeq` is the lexicographic order: a prefix, or smaller at the first place where the two differ. */
  lemma {:induction false} TextLeqExactly(a: string, b: string)
    ensures TextLeq(a, b) <==> a <= b || exists i :: SmallerAt(a, b, i)
  {
    if a != "" && b != "" {
      TextLeqExactly(a[1..], b[1..]);
      assert a == [a[0]] + a[1..] && b == [b[0]] + b[1..];
      if a[0] == b[0] {
        assert a <= b <==> a[1..] <= b[1..];
        if i :| SmallerAt(a[1..], b[1..], i) { SmallerLater(a, b, i); }
        if i :| SmallerAt(a, b, i) { SmallerEarlier(a, b, i); }
      } else {
        assert SmallerAt(a, b, 0) <==> a[0] < b[0];
        if i :| SmallerAt(a, b, i) { SmallerAtOnce(a, b, i); }
      }
    }
  }

  predicate SmallerAt(a: string, b: string, i: int) {
    0 <= i < |a| && i < |b| && a[..i] == b[..i] && a[i] < b[i]
  }

  lemma SmallerAtOnce(a: string, b: string, i: int)
    requires a != "" && b != "" && a[0] != b[0] && SmallerAt(a, b, i)
    ensures i == 0
  {
    if i > 0 { SameStart(a, b, i); }
  }

  lemma SameStart(a: string, b: string, i: int)
    requires 0 < i <= |a| && i <= |b| && a[..i] == b[..i]
    ensures a[0] == b[0]
  {
    assert a[..i][0] == b[..i][0];
  }

  lemma SmallerLater(a: string, b: string, i: int)
    requires a != "" && b != "" && a[0] == b[0] && SmallerAt(a[1..], b[1..], i)
    ensures SmallerAt(a, b, i + 1)
  {
    assert a[..i + 1] == [a[0]] + a[1..][..i] && b[..i + 1] == [b[0]] + b[1..][..i];
  }

  lemma SmallerEarlier(a: string, b: string, i: int)
    requires a != "" && b != "" && a[0] == b[0] && SmallerAt(a, b, i)
    ensures SmallerAt(a[1..], b[1..], i - 1)
  {
    assert i > 0;
    assert a[1..][..i - 1] == a[..i][1..] && b[1..][..i - 1] == b[..i][1..];
  }
}
