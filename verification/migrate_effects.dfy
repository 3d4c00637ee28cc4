/**
  What Up and Down do to a database, said without their loops (migrate/runner.go): which
  statements ran, one after the other, which records are there, and why it stopped.
  */
module MigrationEffects {
  import opened Wrappers
  import opened Sequences
  import opened Migrate

  /** These statements, each succeeding on what the one before it left, lead from one
      schema to another. */
  ghost predicate Ran(run: Run, from: Schema, statements: seq<Statement>, to: Schema) {
    exists schemas: seq<Schema> :: Trace(run, schemas, statements) && schemas[0] == from && schemas[|statements|] == to
  }

  predicate Trace(run: Run, schemas: seq<Schema>, statements: seq<Statement>) {
    && |schemas| == |statements| + 1
    && forall i :: 0 <= i < |statements| ==> run(schemas[i], statements[i]) == Some(schemas[i + 1])
  }

  /** Some statement fails on what those before it leave. */
  ghost predicate Broke(run: Run, from: Schema, statements: seq<Statement>) {
    exists n, schema :: 0 <= n < |statements| && BreaksAt(run, from, statements, n, schema)
  }

  ghost predicate BreaksAt(run: Run, from: Schema, statements: seq<Statement>, n: nat, schema: Schema)
    requires n < |statements|
  {
    Ran(run, from, statements[..n], schema) && run(schema, statements[n]).None?
  }

  lemma RanNothing(run: Run, schema: Schema)
    ensures Ran(run, schema, [], schema)
  {
    assert Trace(run, [schema], []);
  }

  lemma RanOneMore(run: Run, from: Schema, statement: Statement, next: Schema, rest: seq<Statement>, to: Schema)
    requires run(from, statement) == Some(next) && Ran(run, next, rest, to)
    ensures Ran(run, from, [statement] + rest, to)
  {
    var schemas: seq<Schema> :| Trace(run, schemas, rest) && schemas[0] == next && schemas[|rest|] == to;
    assert Trace(run, [from] + schemas, [statement] + rest);
  }

  lemma RanTogether(run: Run, from: Schema, a: seq<Statement>, middle: Schema, b: seq<Statement>, to: Schema)
    requires Ran(run, from, a, middle) && Ran(run, middle, b, to)
    ensures Ran(run, from, a + b, to)
  {
    var first: seq<Schema> :| Trace(run, first, a) && first[0] == from && first[|a|] == middle;
    var second: seq<Schema> :| Trace(run, second, b) && second[0] == middle && second[|b|] == to;
    var schemas := first + second[1..];
    forall i | 0 <= i < |a + b| ensures run(schemas[i], (a + b)[i]) == Some(schemas[i + 1]) {
      if i >= |a| {
        assert schemas[i] == second[i - |a|] && schemas[i + 1] == second[i - |a| + 1];
      }
    }
    assert Trace(run, schemas, a + b);
  }

  /** Running statements succeeds or breaks, as said above, and not both. */
  lemma {:induction false} RunAllRan(run: Run, schema: Schema, statements: seq<Statement>)
    ensures match RunAll(run, schema, statements)
            case Some(to) => Ran(run, schema, statements, to)
            case None => Broke(run, schema, statements)
    decreases statements
  {
    if statements == [] {
      RanNothing(run, schema);
    } else {
      var next := run(schema, statements[0]);
      assert statements == [statements[0]] + statements[1..];
      if next.None? {
        assert statements[..0] == [];
        RanNothing(run, schema);
        assert BreaksAt(run, schema, statements, 0, schema);
      } else {
        RunAllRan(run, next.value, statements[1..]);
        var r := RunAll(run, next.value, statements[1..]);
        if r.Some? {
          RanOneMore(run, schema, statements[0], next.value, statements[1..], r.value);
        } else {
          BrokeLater(run, schema, statements, next.value);
        }
      }
    }
  }

  lemma BrokeLater(run: Run, schema: Schema, statements: seq<Statement>, next: Schema)
    requires statements != [] && run(schema, statements[0]) == Some(next) && Broke(run, next, statements[1..])
    ensures Broke(run, schema, statements)
  {
    var n, at :| 0 <= n < |statements[1..]| && BreaksAt(run, next, statements[1..], n, at);
    RanOneMore(run, schema, statements[0], next, statements[1..][..n], at);
    assert [statements[0]] + statements[1..][..n] == statements[..n + 1];
    assert BreaksAt(run, schema, statements, n + 1, at);
  }

  /** A schema determines where statements lead. */
  lemma {:induction false} RanOnce(run: Run, from: Schema, statements: seq<Statement>, to: Schema)
    requires Ran(run, from, statements, to)
    ensures RunAll(run, from, statements) == Some(to)
    decreases statements
  {
    var schemas: seq<Schema> :| Trace(run, schemas, statements) && schemas[0] == from && schemas[|statements|] == to;
    if statements != [] {
      assert run(schemas[0], statements[0]) == Some(schemas[1]);
      assert Trace(run, schemas[1..], statements[1..]) && schemas[1..][|statements[1..]|] == to;
      RanOnce(run, schemas[1], statements[1..], to);
    }
  }

  // ----- Up

  function UpStatements(ms: seq<Migration>): seq<Statement> {
    if ms == [] then [] else UpStatements(ms[..|ms| - 1]) + ms[|ms| - 1].up
  }

  /** What is pending: in the order of their versions, the migrations not recorded. */
  lemma {:induction false} PendingExactly(records: map<Version, string>, sorted: seq<Migration>)
    requires Ascending(sorted)
    ensures Ascending(Pending(records, sorted))
    ensures forall m :: m in Pending(records, sorted) <==> m in sorted && m.version !in records
    decreases sorted
  {
    if sorted != [] {
      PendingExactly(records, sorted[1..]);
      var rest := Pending(records, sorted[1..]);
      forall m | m in rest ensures sorted[0].version < m.version {
        var i :| 0 <= i < |sorted[1..]| && sorted[1..][i] == m;
      }
    }
  }

  /** This migration's transaction does not commit on this schema. */
  ghost predicate CannotApply(e: Engine, schema: Schema, statements: seq<Statement>, version: Version) {
    Broke(e.run, schema, statements) || !e.records(version) || !e.commits(version)
  }

  /** From one database to another by applying these migrations: their statements, their
      records, and every transaction committed. */
  ghost predicate DidUp(e: Engine, db: Database, done: seq<Migration>, after: Database) {
    && Ran(e.run, db.schema, UpStatements(done), after.schema)
    && after.records == db.records + RecordsOf(done)
    && forall m :: m in done ==> e.records(m.version) && e.commits(m.version)
  }

  /** Why a call stops before these migrations: nothing is left, or the limit is reached,
      or the next one cannot be applied. */
  ghost predicate StopsUp(e: Engine, db: Database, rest: seq<Migration>, limit: nat, count: nat, err: Option<Error>) {
    match err
    case None => rest == [] || (limit > 0 && count >= limit)
    case Some(error) =>
      && rest != [] && (limit > 0 ==> count < limit) && error == Failed(rest[0].version)
      && CannotApply(e, db.schema, rest[0].up, rest[0].version)
  }

  lemma ApplyUpDoes(e: Engine, db: Database, m: Migration)
    ensures match ApplyUp(e, db, m)
            case Some(next) =>
              && Ran(e.run, db.schema, m.up, next.schema) && next.records == db.records[m.version := m.name]
              && e.records(m.version) && e.commits(m.version)
            case None => CannotApply(e, db.schema, m.up, m.version)
  {
    hide Ran, Broke;
    RunAllRan(e.run, db.schema, m.up);
  }

  lemma DidNothing(e: Engine, db: Database)
    ensures DidUp(e, db, [], db)
  {
    RanNothing(e.run, db.schema);
    hide Ran;
  }

  lemma DidOneMore(e: Engine, base: Database, done: seq<Migration>, db: Database, m: Migration)
    requires DidUp(e, base, done, db) && ApplyUp(e, db, m).Some?
    ensures DidUp(e, base, done + [m], ApplyUp(e, db, m).value)
  {
    var next := ApplyUp(e, db, m).value;
    ApplyUpDoes(e, db, m);
    assert (done + [m])[..|done|] == done;
    RanTogether(e.run, base.schema, UpStatements(done), db.schema, m.up, next.schema);
    hide Ran, ApplyUp;
    assert RecordsOf(done + [m]) == RecordsOf(done)[m.version := m.name];
  }

  lemma {:induction false} InOrderDoes(e: Engine, base: Database, done: seq<Migration>, db: Database, pending: seq<Migration>,
                                       limit: nat, count: nat)
    requires DidUp(e, base, done, db)
    ensures var r := ApplyInOrder(e, db, pending, limit, count);
            && count <= r.count <= count + |pending|
            && DidUp(e, base, done + pending[..r.count - count], r.db)
            && StopsUp(e, r.db, pending[r.count - count..], limit, r.count, r.err)
            && (limit > 0 && count <= limit ==> r.count <= limit)
    decreases pending
  {
    hide DidUp, ApplyUp, CannotApply;
    assert done + pending[..0] == done && pending[0..] == pending;
    if pending != [] && !(limit > 0 && count >= limit) {
      ApplyUpDoes(e, db, pending[0]);
      if ApplyUp(e, db, pending[0]).Some? {
        var next := ApplyUp(e, db, pending[0]).value;
        DidOneMore(e, base, done, db, pending[0]);
        InOrderDoes(e, base, done + [pending[0]], next, pending[1..], limit, count + 1);
        var n := ApplyInOrder(e, next, pending[1..], limit, count + 1).count - count - 1;
        assert done + [pending[0]] + pending[1..][..n] == done + pending[..n + 1];
        assert pending[1..][n..] == pending[n + 1..];
      }
    }
  }

  /** Up, when no recorded name differs: it applies the migrations that are not recorded,
      in the order of their versions, as many as it counts, up to the limit or to the first
      that cannot be applied; the schema is what their statements lead to one after the
      other, their records are added, and every other record stays. */
  lemma UpDoes(e: Engine, db: Database, sorted: seq<Migration>, limit: nat)
    requires Ascending(sorted)
    requires forall m :: m in sorted && m.version in db.records ==> db.records[m.version] == m.name
    ensures var r, pending := UpSession(e, db, sorted, limit), Pending(db.records, sorted);
            && Ascending(pending) && (forall m :: m in pending <==> m in sorted && m.version !in db.records)
            && r.count <= |pending| && (limit > 0 ==> r.count <= limit)
            && DidUp(e, db, pending[..r.count], r.db) && StopsUp(e, r.db, pending[r.count..], limit, r.count, r.err)
    ensures Pending(db.records, sorted) != [] || e.idles ==> UpSqlite(e, db, sorted, limit) == UpSession(e, db, sorted, limit)
  {
    hide *;
    NoMismatch(db.records, sorted);
    PendingExactly(db.records, sorted);
    SessionIsInOrder(e, db, sorted, limit);
    AllInOrder(e, db, Pending(db.records, sorted), limit);
    if Pending(db.records, sorted) != [] || e.idles {
      UpLoopsAgree(e, db, sorted, limit);
    }
  }

  lemma SessionIsInOrder(e: Engine, db: Database, sorted: seq<Migration>, limit: nat)
    requires Scan(db.records, sorted).None?
    ensures UpSession(e, db, sorted, limit) == ApplyInOrder(e, db, Pending(db.records, sorted), limit, 0)
  {
    SessionAppliesInOrder(e, db, db.records, sorted, limit, 0);
  }

  lemma AllInOrder(e: Engine, db: Database, pending: seq<Migration>, limit: nat)
    ensures var r := ApplyInOrder(e, db, pending, limit, 0);
            && r.count <= |pending| && (limit > 0 ==> r.count <= limit)
            && DidUp(e, db, pending[..r.count], r.db) && StopsUp(e, r.db, pending[r.count..], limit, r.count, r.err)
  {
    hide *;
    DidNothing(e, db);
    InOrderDoes(e, db, [], db, pending, limit, 0);
    var n := ApplyInOrder(e, db, pending, limit, 0).count;
    assert [] + pending[..n] == pending[..n];
  }

  lemma {:induction false} NoMismatch(records: map<Version, string>, sorted: seq<Migration>)
    requires forall m :: m in sorted && m.version in records ==> records[m.version] == m.name
    ensures Scan(records, sorted).None?
    decreases sorted
  {
    if sorted != [] {
      assert sorted[0] in sorted;
      NoMismatch(records, sorted[1..]);
    }
  }

  // ----- Down

  function DownStatements(ms: seq<Migration>): seq<Statement> {
    if ms == [] then [] else DownStatements(ms[..|ms| - 1]) + ms[|ms| - 1].down
  }

  function VersionsOf(ms: seq<Migration>): set<Version> {
    set m | m in ms :: m.version
  }

  /** From one database to another by rolling these back: their statements ran, each after
      those of the ones before it, and exactly their records are gone. */
  ghost predicate DidDown(e: Engine, db: Database, local: Local, done: seq<Migration>, after: Database) {
    && Ran(e.run, db.schema, DownStatements(done), after.schema)
    && after.records == db.records - VersionsOf(done)
    && (forall m :: m in done ==> RolledBackFrom(e, db, local, m))
    && FromTheTop(done, after)
  }

  /** It was recorded, is the local one of that name, and its transaction committed. */
  predicate RolledBackFrom(e: Engine, db: Database, local: Local, m: Migration) {
    && m.version in db.records && db.records[m.version] == m.name && m.version in local && local[m.version] == m
    && e.records(m.version) && e.commits(m.version)
  }

  /** The highest versions, from the highest on. */
  ghost predicate FromTheTop(done: seq<Migration>, after: Database) {
    && (forall m, v :: m in done && v in after.records ==> v < m.version)
    && (forall i, j :: 0 <= i < j < |done| ==> done[i].version > done[j].version)
  }

  /** Why a call stops: nothing is recorded, or as many as asked for are rolled back, or
      the highest version is not a local migration, has another name, or cannot be rolled
      back. */
  ghost predicate StopsDown(e: Engine, db: Database, local: Local, steps: int, count: nat, err: Option<Error>) {
    match err
    case None => db.records == map[] || count >= steps
    case Some(error) =>
      && count < steps
      && exists v :: v in db.records && (forall w :: w in db.records ==> w <= v) && Refuses(e, db, local, v, error)
  }

  ghost predicate Refuses(e: Engine, db: Database, local: Local, v: Version, error: Error)
    requires v in db.records
  {
    if v !in local then error == MissingLocally(v)
    else if local[v].name != db.records[v] then error == NameMismatch(v)
    else error == Failed(v) && CannotApply(e, db.schema, local[v].down, v)
  }

  lemma ApplyDownDoes(e: Engine, db: Database, m: Migration)
    ensures match ApplyDown(e, db, m)
            case Some(next) =>
              && Ran(e.run, db.schema, m.down, next.schema) && next.records == db.records - {m.version}
              && e.records(m.version) && e.commits(m.version)
            case None => CannotApply(e, db.schema, m.down, m.version)
  {
    hide Ran, Broke;
    RunAllRan(e.run, db.schema, m.down);
  }

  lemma RolledBackNothing(e: Engine, db: Database, local: Local)
    ensures DidDown(e, db, local, [], db)
  {
    RanNothing(e.run, db.schema);
    hide Ran;
    assert db.records - {} == db.records;
  }

  lemma OneVersionMore(records: map<Version, string>, done: seq<Migration>, m: Migration)
    ensures records - VersionsOf(done) - {m.version} == records - VersionsOf(done + [m])
  {
    assert VersionsOf(done + [m]) == VersionsOf(done) + {m.version};
  }

  lemma RolledBackOneMore(e: Engine, base: Database, local: Local, done: seq<Migration>, db: Database, v: Version)
    requires DidDown(e, base, local, done, db) && Filed(local)
    requires v in db.records && (forall w :: w in db.records ==> w <= v) && v in local && local[v].name == db.records[v]
    requires ApplyDown(e, db, local[v]).Some?
    ensures DidDown(e, base, local, done + [local[v]], ApplyDown(e, db, local[v]).value)
  {
    hide *;
    var m, next := local[v], ApplyDown(e, db, local[v]).value;
    ApplyDownDoes(e, db, m);
    DownParts(e, base, local, done, db);
    FiledIs(local, v);
    OneVersionMore(base.records, done, m);
    RanTogether(e.run, base.schema, DownStatements(done), db.schema, m.down, next.schema);
    DownStatementsAppend(done, m);
    TopIsLower(done, db, m, next);
    assert RolledBackFrom(e, base, local, m) by {
      FirstRecorded(e, base, local, done, db, m);
    }
    DownWhole(e, base, local, done + [m], next);
  }

  lemma DownParts(e: Engine, db: Database, local: Local, done: seq<Migration>, after: Database)
    requires DidDown(e, db, local, done, after)
    ensures Ran(e.run, db.schema, DownStatements(done), after.schema) && after.records == db.records - VersionsOf(done)
    ensures (forall m :: m in done ==> RolledBackFrom(e, db, local, m)) && FromTheTop(done, after)
  {
  }

  lemma DownWhole(e: Engine, db: Database, local: Local, done: seq<Migration>, after: Database)
    requires Ran(e.run, db.schema, DownStatements(done), after.schema) && after.records == db.records - VersionsOf(done)
    requires (forall m :: m in done ==> RolledBackFrom(e, db, local, m)) && FromTheTop(done, after)
    ensures DidDown(e, db, local, done, after)
  {
  }

  lemma FiledIs(local: Local, v: Version)
    requires Filed(local) && v in local
    ensures local[v].version == v
  {
  }

  lemma DownStatementsAppend(done: seq<Migration>, m: Migration)
    ensures DownStatements(done + [m]) == DownStatements(done) + m.down
  {
    assert (done + [m])[..|done|] == done;
  }

  lemma FirstRecorded(e: Engine, base: Database, local: Local, done: seq<Migration>, db: Database, m: Migration)
    requires m.version in db.records && m.version in local && local[m.version] == m && m.name == db.records[m.version]
    requires db.records == base.records - VersionsOf(done) && e.records(m.version) && e.commits(m.version)
    ensures RolledBackFrom(e, base, local, m)
  {
  }

  lemma TopIsLower(done: seq<Migration>, db: Database, m: Migration, next: Database)
    requires FromTheTop(done, db) && m.version in db.records && (forall w :: w in db.records ==> w <= m.version)
    requires next.records == db.records - {m.version}
    ensures FromTheTop(done + [m], next)
  {
    assert forall i :: 0 <= i < |done| ==> done[i] in done;
  }

  /** The rest of a call of Down, from what it has rolled back so far. */
  lemma {:induction false} DownGoesOn(e: Engine, base: Database, local: Local, done: seq<Migration>, db: Database,
                                      steps: int, count: nat) returns (all: seq<Migration>)
    requires DidDown(e, base, local, done, db) && Filed(local) && |done| == count
    ensures var r := DownFrom(e, db, db.records, local, steps, count);
            && |all| == r.count && DidDown(e, base, local, all, r.db) && StopsDown(e, r.db, local, steps, r.count, r.err)
            && (count <= steps ==> r.count <= steps)
    decreases |db.records|
  {
    hide DidDown, ApplyDown, CannotApply;
    all := done;
    if db.records != map[] && count < steps {
      var v := Highest(db.records.Keys);
      FewerLeft(db.records, v);
      if v in local && local[v].name == db.records[v] {
        ApplyDownDoes(e, db, local[v]);
        if ApplyDown(e, db, local[v]).Some? {
          RolledBackOneMore(e, base, local, done, db, v);
          all := DownGoesOn(e, base, local, done + [local[v]], ApplyDown(e, db, local[v]).value, steps, count + 1);
        }
      }
    }
  }

  /** Down: it rolls back the recorded migrations from the highest version on, as many as
      it counts, until there are no more, the number asked for is reached, or the next
      cannot be rolled back; the schema is what their statements lead to one after the
      other, and exactly their records are gone. */
  lemma DownDoes(e: Engine, db: Database, local: Local, steps: int) returns (done: seq<Migration>)
    requires Filed(local) && steps > 0
    ensures var r := DownSession(e, db, local, steps);
            && |done| == r.count <= steps
            && DidDown(e, db, local, done, r.db) && StopsDown(e, r.db, local, steps, r.count, r.err)
    ensures db.records != map[] || e.idles ==> DownTurns(e, db, local, steps, 0) == DownSession(e, db, local, steps)
  {
    hide DidDown, StopsDown;
    RolledBackNothing(e, db, local);
    done := DownGoesOn(e, db, local, [], db, steps, 0);
    DownLoopsAgreeExactly(e, db, local, steps);
  }
}

/** What one transaction of competing runners does (migrate/sqlite.go). */
module CompetingEffects {
  import opened Wrappers
  import opened Migrate
  import opened MigrationEffects
  import opened CompetingRunners

  /** This is the next migration of a list to be applied: the first, by version, that is
      not recorded, when no recorded one has another name. */
  ghost predicate IsNext(db: Database, sorted: seq<Migration>, m: Migration) {
    && (forall x :: x in sorted && x.version in db.records ==> db.records[x.version] == x.name)
    && m in sorted && m.version !in db.records
    && forall x :: x in sorted && x.version !in db.records ==> m.version <= x.version
  }

  /** The transaction of this step would commit this migration. */
  ghost predicate CanCommit(w: World, run: Run, step: Step, m: Migration)
    requires Enabled(w, step.runner)
  {
    var c := w.clients[step.runner];
    && step.locks && (c.limit == 0 || c.count < c.limit) && IsNext(w.db, c.sorted, m)
    && (exists to :: Ran(run, w.db.schema, m.up, to)) && step.records && step.commits
  }

  lemma ScanIsNone(records: map<Version, string>, sorted: seq<Migration>)
    ensures Scan(records, sorted).None? <==> forall x :: x in sorted && x.version in records ==> records[x.version] == x.name
    decreases sorted
  {
    if sorted != [] {
      ScanIsNone(records, sorted[1..]);
      assert forall x :: x in sorted <==> x == sorted[0] || x in sorted[1..];
    }
  }

  lemma NextIsPending(db: Database, sorted: seq<Migration>, m: Migration)
    requires Ascending(sorted)
    ensures IsNext(db, sorted, m) <==>
            && Scan(db.records, sorted).None? && Pending(db.records, sorted) != [] && Pending(db.records, sorted)[0] == m
  {
    ScanIsNone(db.records, sorted);
    PendingExactly(db.records, sorted);
    var pending := Pending(db.records, sorted);
    hide Pending, Scan;
    if IsNext(db, sorted, m) {
      var i :| 0 <= i < |pending| && pending[i] == m;
      assert pending[0] in pending;
    }
    if pending != [] && pending[0] == m {
      forall x | x in sorted && x.version !in db.records ensures m.version <= x.version {
        var i :| 0 <= i < |pending| && pending[i] == x;
      }
      assert pending[0] in pending;
    }
  }

  lemma AppliesExactly(run: Run, step: Step, db: Database, m: Migration)
    ensures ApplyUp(Met(run, step), db, m).Some? <==>
            (exists to :: Ran(run, db.schema, m.up, to)) && step.records && step.commits
  {
    hide Ran, RunAll;
    RunAllRan(run, db.schema, m.up);
    forall to | Ran(run, db.schema, m.up, to) ensures RunAll(run, db.schema, m.up) == Some(to) {
      RanOnce(run, db.schema, m.up, to);
    }
  }

  /** A transaction commits exactly what it should: the next migration of its runner's
      list, if it gets the lock, the limit is not reached, and its statements, its record
      and its commit succeed. */
  lemma CommitsExactly(w: World, run: Run, step: Step, m: Migration)
    requires Enabled(w, step.runner) && Ascending(w.clients[step.runner].sorted)
    ensures Commits(w, run, step) == Some(m) <==> CanCommit(w, run, step, m)
    ensures Commits(w, run, step) == Some(m) ==>
              var w' := Next(w, run, step);
              && w'.commits == w.commits + [m] && w'.db.records == w.db.records[m.version := m.name]
              && Ran(run, w.db.schema, m.up, w'.db.schema)
              && w'.clients[step.runner].count == w.clients[step.runner].count + 1
  {
    hide Ran, IsNext, ApplyUp, Scan, Pending;
    var c := w.clients[step.runner];
    NextIsPending(w.db, c.sorted, m);
    AppliesExactly(run, step, w.db, m);
    if Pending(w.db.records, c.sorted) != [] {
      ApplyUpDoes(Met(run, step), w.db, Pending(w.db.records, c.sorted)[0]);
      NextIsPending(w.db, c.sorted, Pending(w.db.records, c.sorted)[0]);
      AppliesExactly(run, step, w.db, Pending(w.db.records, c.sorted)[0]);
    }
  }

  /** And a runner returns exactly when its transaction commits nothing, or when all of its
      list is recorded then. */
  lemma ReturnsExactly(w: World, run: Run, step: Step)
    requires Enabled(w, step.runner) && Ascending(w.clients[step.runner].sorted)
    ensures var w' := Next(w, run, step);
            w'.clients[step.runner].stopped <==>
            Commits(w, run, step).None? || forall x :: x in w.clients[step.runner].sorted ==> x.version in w'.db.records
  {
    var c := w.clients[step.runner];
    if Commits(w, run, step).Some? {
      var pending := Pending(w.db.records, c.sorted);
      PendingAfter(w.db.records, c.sorted);
      ApplyUpDoes(Met(run, step), w.db, pending[0]);
      PendingExactly(Next(w, run, step).db.records, c.sorted);
      hide Pending, Scan, ApplyUp;
      if |pending| > 1 {
        assert pending[1..][0] in pending[1..];
      }
    }
  }
}
