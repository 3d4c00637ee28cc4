/**
  The migration runner (migrate/runner.go, migrate/sqlite.go). A transaction is one
  atomic step that commits or leaves the database as it was. What a statement does
  to the schema is arbitrary, and so is which records and commits fail, in each call
  and in each direction.
  */
module Migrate {
  import opened Wrappers
  import opened Sequences

  type Version = int
  type Statement = string
  type Schema = string

  datatype Migration = Migration(version: Version, name: string, up: seq<Statement>, down: seq<Statement>)

  type Run = (Schema, Statement) -> Option<Schema>

  /** The database server during one call: what running a statement yields, whether the
      metadata row of a version can be written or deleted, whether its transaction
      commits, and whether one does that finds nothing to do. */
  datatype Engine = Engine(run: Run, records: Version -> bool, commits: Version -> bool, idles: bool)

  /** The schema, and the metadata table: the name recorded for each version. */
  datatype Database = Database(schema: Schema, records: map<Version, string>)

  datatype Error =
    | InvalidLimit | Invalid | NotLocked | NotReleased | NotCommitted
    | NameMismatch(version: Version) | MissingLocally(version: Version) | Failed(version: Version)

  datatype Report = Report(count: nat, err: Option<Error>, db: Database)

  function RunAll(run: Run, schema: Schema, statements: seq<Statement>): Option<Schema>
    decreases statements
  {
    if statements == [] then Some(schema)
    else
      var next := run(schema, statements[0]);
      if next.None? then None else RunAll(run, next.value, statements[1..])
  }

  /** The effect of one transaction of Up: the statements and the metadata row. */
  function Committed(run: Run, db: Database, m: Migration): Option<Database> {
    var schema := RunAll(run, db.schema, m.up);
    if schema.None? then None else Some(Database(schema.value, db.records[m.version := m.name]))
  }

  /** Whether the record and the transaction of a version succeed. */
  predicate Lasts(e: Engine, version: Version) {
    e.records(version) && e.commits(version)
  }

  function ApplyUp(e: Engine, db: Database, m: Migration): Option<Database> {
    if Lasts(e, m.version) then Committed(e.run, db, m) else None
  }

  function ApplyDown(e: Engine, db: Database, m: Migration): Option<Database> {
    var schema := RunAll(e.run, db.schema, m.down);
    if schema.None? || !Lasts(e, m.version) then None
    else Some(Database(schema.value, db.records - {m.version}))
  }

  /** The outcome of a call whose last transaction found nothing to do. */
  function Ended(e: Engine, count: nat, db: Database): Report {
    Report(count, if e.idles then None else Some(NotCommitted), db)
  }

  // ----- one session: read the applied versions once, then apply

  /** The rest of the session loop. `applied` is what it read at the start. */
  function UpFrom(e: Engine, db: Database, applied: map<Version, string>, rest: seq<Migration>, limit: nat, count: nat): Report
    decreases rest
  {
    if rest == [] then Report(count, None, db)
    else if rest[0].version in applied then
      if applied[rest[0].version] != rest[0].name then Report(count, Some(NameMismatch(rest[0].version)), db)
      else UpFrom(e, db, applied, rest[1..], limit, count)
    else if limit > 0 && count >= limit then Report(count, None, db)
    else
      var next := ApplyUp(e, db, rest[0]);
      if next.None? then Report(count, Some(Failed(rest[0].version)), db)
      else UpFrom(e, next.value, applied, rest[1..], limit, count + 1)
  }

  function UpSession(e: Engine, db: Database, sorted: seq<Migration>, limit: nat): Report {
    UpFrom(e, db, db.records, sorted, limit, 0)
  }

  // ----- SQLite: read the applied versions again in every transaction

  predicate Mismatches(records: map<Version, string>, m: Migration) {
    m.version in records && records[m.version] != m.name
  }

  /** The error of the scan, which looks at every migration before any is applied. */
  function Scan(records: map<Version, string>, sorted: seq<Migration>): Option<Error> {
    if sorted == [] then None
    else if Mismatches(records, sorted[0]) then Some(NameMismatch(sorted[0].version))
    else Scan(records, sorted[1..])
  }

  function Pending(records: map<Version, string>, sorted: seq<Migration>): seq<Migration> {
    if sorted == [] then []
    else if sorted[0].version in records then Pending(records, sorted[1..])
    else [sorted[0]] + Pending(records, sorted[1..])
  }

  datatype Turn = Refused(err: Error) | Idle | Moved(db: Database, more: bool)

  /** One SQLite transaction of Up. */
  function UpTurn(e: Engine, db: Database, sorted: seq<Migration>): Turn {
    var pending := Pending(db.records, sorted);
    if Scan(db.records, sorted).Some? then Refused(Scan(db.records, sorted).value)
    else if pending == [] then Idle
    else
      var next := ApplyUp(e, db, pending[0]);
      if next.None? then Refused(Failed(pending[0].version)) else Moved(next.value, |pending| > 1)
  }

  lemma {:induction false} PendingShrinks(records: map<Version, string>, sorted: seq<Migration>, version: Version, name: string)
    ensures |Pending(records[version := name], sorted)| <= |Pending(records, sorted)|
    ensures Pending(records, sorted) != [] && Pending(records, sorted)[0].version == version ==>
              |Pending(records[version := name], sorted)| < |Pending(records, sorted)|
    decreases sorted
  {
    if sorted != [] {
      PendingShrinks(records, sorted[1..], version, name);
    }
  }

  function UpTurns(e: Engine, db: Database, sorted: seq<Migration>, limit: nat, count: nat): Report
    decreases |Pending(db.records, sorted)|
  {
    if limit != 0 && count >= limit then Report(count, None, db)
    else
      match UpTurn(e, db, sorted)
      case Refused(err) => Report(count, Some(err), db)
      case Idle => Ended(e, count, db)
      case Moved(next, more) =>
        if !more then Report(count + 1, None, next)
        else
          var m := Pending(db.records, sorted)[0];
          PendingShrinks(db.records, sorted, m.version, m.name);
          UpTurns(e, next, sorted, limit, count + 1)
  }

  function UpSqlite(e: Engine, db: Database, sorted: seq<Migration>, limit: nat): Report {
    UpTurns(e, db, sorted, limit, 0)
  }

  // ----- the two loops of Up agree

  /** Validated: versions strictly ascending. */
  ghost predicate Ascending(sorted: seq<Migration>) {
    forall i, j :: 0 <= i < j < |sorted| ==> sorted[i].version < sorted[j].version
  }

  /** Applying the pending migrations in order, up to the limit: what both loops do. */
  function ApplyInOrder(e: Engine, db: Database, pending: seq<Migration>, limit: nat, count: nat): Report
    decreases pending
  {
    if pending == [] || (limit > 0 && count >= limit) then Report(count, None, db)
    else
      var next := ApplyUp(e, db, pending[0]);
      if next.None? then Report(count, Some(Failed(pending[0].version)), db)
      else ApplyInOrder(e, next.value, pending[1..], limit, count + 1)
  }

  lemma {:induction false} SessionAppliesInOrder(e: Engine, db: Database, applied: map<Version, string>,
                                                 rest: seq<Migration>, limit: nat, count: nat)
    requires Scan(applied, rest).None?
    ensures UpFrom(e, db, applied, rest, limit, count) == ApplyInOrder(e, db, Pending(applied, rest), limit, count)
    decreases |rest|
  {
    if rest != [] {
      hide ApplyUp;
      var m := rest[0];
      assert m.version !in applied ==> Pending(applied, rest)[1..] == Pending(applied, rest[1..]);
      if m.version in applied {
        SessionAppliesInOrder(e, db, applied, rest[1..], limit, count);
      } else if !(limit > 0 && count >= limit) && ApplyUp(e, db, m).Some? {
        SessionAppliesInOrder(e, ApplyUp(e, db, m).value, applied, rest[1..], limit, count + 1);
      }
    }
  }

  lemma {:induction false} FirstPending(records: map<Version, string>, sorted: seq<Migration>)
    requires Pending(records, sorted) != []
    ensures Pending(records, sorted)[0].version !in records
  {
    if sorted[0].version in records {
      FirstPending(records, sorted[1..]);
    }
  }

  /** Recording the first pending migration leaves the others pending, in order. */
  lemma {:induction false} PendingAfter(records: map<Version, string>, sorted: seq<Migration>)
    requires Ascending(sorted) && Pending(records, sorted) != [] && Scan(records, sorted).None?
    ensures var m := Pending(records, sorted)[0]; var records' := records[m.version := m.name];
            Pending(records', sorted) == Pending(records, sorted)[1..] && Scan(records', sorted).None?
    decreases |sorted|
  {
    var m := Pending(records, sorted)[0];
    FirstPending(records, sorted);
    if sorted[0].version in records {
      PendingAfter(records, sorted[1..]);
    } else {
      OtherRecord(records, sorted[1..], m);
    }
  }

  lemma {:induction false} OtherRecord(records: map<Version, string>, sorted: seq<Migration>, m: Migration)
    requires forall i :: 0 <= i < |sorted| ==> sorted[i].version != m.version
    ensures var records' := records[m.version := m.name];
            Pending(records', sorted) == Pending(records, sorted) && Scan(records', sorted) == Scan(records, sorted)
  {
    if sorted != [] {
      assert sorted[0].version != m.version;
      OtherRecord(records, sorted[1..], m);
    }
  }

  lemma {:induction false} SqliteAppliesInOrder(e: Engine, db: Database, sorted: seq<Migration>, limit: nat, count: nat)
    requires Ascending(sorted) && Scan(db.records, sorted).None? && (Pending(db.records, sorted) != [] || e.idles)
    ensures UpTurns(e, db, sorted, limit, count) == ApplyInOrder(e, db, Pending(db.records, sorted), limit, count)
    decreases |Pending(db.records, sorted)|
  {
    var pending := Pending(db.records, sorted);
    if pending != [] && !(limit > 0 && count >= limit) && ApplyUp(e, db, pending[0]).Some? {
      PendingAfter(db.records, sorted);
      if |pending| > 1 {
        SqliteAppliesInOrder(e, ApplyUp(e, db, pending[0]).value, sorted, limit, count + 1);
      }
    }
  }

  /** With matching names the two loops leave the same schema, records, count and
      error, for every limit and every failing statement, record or commit; unless
      nothing is pending and SQLite cannot even commit that. */
  lemma UpLoopsAgree(e: Engine, db: Database, sorted: seq<Migration>, limit: nat)
    requires Ascending(sorted) && Scan(db.records, sorted).None? && (Pending(db.records, sorted) != [] || e.idles)
    ensures UpSession(e, db, sorted, limit) == UpSqlite(e, db, sorted, limit)
  {
    SessionAppliesInOrder(e, db, db.records, sorted, limit, 0);
    SqliteAppliesInOrder(e, db, sorted, limit, 0);
  }

  /** The migrations before the first whose recorded name differs; all of them when
      none does. */
  function Matched(records: map<Version, string>, sorted: seq<Migration>): seq<Migration> {
    if sorted == [] || Mismatches(records, sorted[0]) then [] else [sorted[0]] + Matched(records, sorted[1..])
  }

  lemma {:induction false} ScanStops(records: map<Version, string>, sorted: seq<Migration>)
    requires Scan(records, sorted).Some?
    ensures var k := |Matched(records, sorted)|;
            && k < |sorted| && Matched(records, sorted) == sorted[..k] && Mismatches(records, sorted[k])
            && Scan(records, sorted) == Some(NameMismatch(sorted[k].version))
  {
    if !Mismatches(records, sorted[0]) {
      ScanStops(records, sorted[1..]);
    }
  }

  /** Over migrations that are all applied under their names, the session loop does
      nothing. */
  lemma {:induction false} SessionSkips(e: Engine, db: Database, applied: map<Version, string>, sorted: seq<Migration>, limit: nat)
    requires Scan(applied, sorted).Some? && Pending(applied, Matched(applied, sorted)) == []
    ensures UpFrom(e, db, applied, sorted, limit, 0) == Report(0, Scan(applied, sorted), db)
  {
    if !Mismatches(applied, sorted[0]) {
      SessionSkips(e, db, applied, sorted[1..], limit);
    }
  }

  /** The session loop reaches the first pending migration before the mismatch, and
      applies it or fails there. */
  lemma {:induction false} SessionActs(e: Engine, db: Database, applied: map<Version, string>, sorted: seq<Migration>, limit: nat)
    requires Pending(applied, Matched(applied, sorted)) != []
    ensures var m := Pending(applied, Matched(applied, sorted))[0];
            var r := UpFrom(e, db, applied, sorted, limit, 0);
            m.version !in applied && (r.count > 0 || r.err == Some(Failed(m.version)))
  {
    hide ApplyUp;
    if sorted[0].version in applied {
      SessionActs(e, db, applied, sorted[1..], limit);
    } else if ApplyUp(e, db, sorted[0]).Some? {
      CountsUp(e, ApplyUp(e, db, sorted[0]).value, applied, sorted[1..], limit, 1);
    }
  }

  lemma {:induction false} CountsUp(e: Engine, db: Database, applied: map<Version, string>, rest: seq<Migration>,
                                    limit: nat, count: nat)
    ensures UpFrom(e, db, applied, rest, limit, count).count >= count
    decreases rest
  {
    hide ApplyUp;
    if rest != [] {
      CountsUp(e, db, applied, rest[1..], limit, count);
      if ApplyUp(e, db, rest[0]).Some? {
        CountsUp(e, ApplyUp(e, db, rest[0]).value, applied, rest[1..], limit, count + 1);
      }
    }
  }

  /** When a recorded name differs, SQLite refuses at once and the session loop only
      when it gets there: they agree exactly when nothing is pending before it. When
      none differs, they agree exactly unless SQLite fails to commit nothing. */
  lemma UpLoopsAgreeExactly(e: Engine, db: Database, sorted: seq<Migration>, limit: nat)
    requires Ascending(sorted)
    ensures UpSession(e, db, sorted, limit) == UpSqlite(e, db, sorted, limit) <==>
            if Scan(db.records, sorted).None? then Pending(db.records, sorted) != [] || e.idles
            else Pending(db.records, Matched(db.records, sorted)) == []
  {
    if Scan(db.records, sorted).None? {
      SessionAppliesInOrder(e, db, db.records, sorted, limit, 0);
      if Pending(db.records, sorted) != [] || e.idles {
        UpLoopsAgree(e, db, sorted, limit);
      }
    } else {
      ScanStops(db.records, sorted);
      assert UpSqlite(e, db, sorted, limit) == Report(0, Scan(db.records, sorted), db);
      if Pending(db.records, Matched(db.records, sorted)) == [] {
        SessionSkips(e, db, db.records, sorted, limit);
      } else {
        SessionActs(e, db, db.records, sorted, limit);
      }
    }
  }

  /** Such a database: version 2 is recorded under another name and version 1 is not
      recorded. The session applies version 1 before it refuses. */
  lemma MismatchSplitsTheLoops()
    ensures var e := Engine((schema, statement) => Some(schema + statement), v => true, v => true, true);
            var sorted := [Migration(1, "a", ["x"], ["y"]), Migration(2, "b", ["x"], ["y"])];
            var db := Database("", map[2 := "c"]);
            && UpSession(e, db, sorted, 0) == Report(1, Some(NameMismatch(2)), Database("x", map[2 := "c", 1 := "a"]))
            && UpSqlite(e, db, sorted, 0) == Report(0, Some(NameMismatch(2)), db)
  {
    var e := Engine((schema, statement) => Some(schema + statement), v => true, v => true, true);
    var sorted := [Migration(1, "a", ["x"], ["y"]), Migration(2, "b", ["x"], ["y"])];
    var db := Database("", map[2 := "c"]);
    assert "" + "x" == "x" && RunAll(e.run, "", ["x"]) == RunAll(e.run, "x", []);
    assert ApplyUp(e, db, sorted[0]) == Some(Database("x", map[2 := "c", 1 := "a"]));
    assert sorted[1..] == [sorted[1]];
    assert Scan(db.records, sorted) == Scan(db.records, [sorted[1]]);
  }

  // ----- Down

  ghost function Highest(versions: set<Version>): (highest: Version)
    requires versions != {}
    ensures highest in versions && forall v :: v in versions ==> v <= highest
  {
    HighestExists(versions);
    var highest :| highest in versions && forall v :: v in versions ==> v <= highest;
    highest
  }

  lemma HighestExists(versions: set<Version>)
    requires versions != {}
    ensures exists highest :: highest in versions && forall v :: v in versions ==> v <= highest
  {
    var w := SomeElement(versions);
    var v :| v in versions;
    var rest := versions - {v};
    if rest == {} {
      assert versions == {v};
    } else {
      HighestExists(rest);
      var h :| h in rest && forall w :: w in rest ==> w <= h;
      var highest := if h < v then v else h;
      assert highest in versions && forall w :: w in versions ==> w == v || w in rest;
    }
  }

  type Local = map<Version, Migration>

  /** The checks and the transaction for the highest recorded version. */
  ghost function DownOnce(e: Engine, db: Database, records: map<Version, string>, local: Local): Result<Database, Error>
    requires records != map[]
  {
    var version := Highest(records.Keys);
    if version !in local then Err(MissingLocally(version))
    else if local[version].name != records[version] then Err(NameMismatch(version))
    else
      var next := ApplyDown(e, db, local[version]);
      if next.None? then Err(Failed(version)) else Ok(next.value)
  }

  /** The session loop, over what it read at the start, highest version first. */
  ghost function DownFrom(e: Engine, db: Database, applied: map<Version, string>, local: Local, steps: int, count: nat): Report
    decreases |applied|
  {
    if applied == map[] || count >= steps then Report(count, None, db)
    else
      match DownOnce(e, db, applied, local)
      case Err(err) => Report(count, Some(err), db)
      case Ok(next) =>
        var highest := Highest(applied.Keys);
        FewerLeft(applied, highest);
        DownFrom(e, next, applied - {highest}, local, steps, count + 1)
  }

  lemma FewerLeft(records: map<Version, string>, version: Version)
    requires version in records
    ensures |records - {version}| == |records| - 1
  {
    assert (records - {version}).Keys == records.Keys - {version};
  }

  ghost function DownSession(e: Engine, db: Database, local: Local, steps: int): Report {
    DownFrom(e, db, db.records, local, steps, 0)
  }

  /** The SQLite loop, which reads the records again in every transaction. The local
      migrations are filed under their own versions. */
  ghost function DownTurns(e: Engine, db: Database, local: Local, steps: int, count: nat): Report
    requires Filed(local)
    decreases |db.records|
  {
    if count >= steps then Report(count, None, db)
    else if db.records == map[] then Ended(e, count, db)
    else
      match DownOnce(e, db, db.records, local)
      case Err(err) => Report(count, Some(err), db)
      case Ok(next) =>
        FewerLeft(db.records, Highest(db.records.Keys));
        if |db.records| == 1 then Report(count + 1, None, next)
        else DownTurns(e, next, local, steps, count + 1)
  }

  ghost predicate Filed(local: Local) {
    forall v :: v in local ==> local[v].version == v
  }

  lemma {:induction false} DownTurnsAreDownFrom(e: Engine, db: Database, local: Local, steps: int, count: nat)
    requires Filed(local) && (db.records != map[] || e.idles)
    ensures DownTurns(e, db, local, steps, count) == DownFrom(e, db, db.records, local, steps, count)
    decreases |db.records|
  {
    hide ApplyDown;
    if count < steps && db.records != map[] && DownOnce(e, db, db.records, local).Ok? {
      var highest := Highest(db.records.Keys);
      var next := DownOnce(e, db, db.records, local).value;
      RolledBack(e, db, local[highest]);
      FewerLeft(db.records, highest);
      if |db.records| == 1 {
        assert next.records == map[] by { assert |next.records| == 0; }
      } else {
        DownTurnsAreDownFrom(e, next, local, steps, count + 1);
      }
    }
  }

  lemma RolledBack(e: Engine, db: Database, m: Migration)
    ensures ApplyDown(e, db, m).Some? ==> ApplyDown(e, db, m).value.records == db.records - {m.version}
  {
  }

  /** The two loops of Down agree exactly unless SQLite fails to commit a transaction
      that found nothing to roll back. */
  lemma DownLoopsAgreeExactly(e: Engine, db: Database, local: Local, steps: int)
    requires Filed(local) && steps > 0
    ensures DownTurns(e, db, local, steps, 0) == DownSession(e, db, local, steps) <==> db.records != map[] || e.idles
  {
    if db.records != map[] || e.idles {
      DownTurnsAreDownFrom(e, db, local, steps, 0);
    }
  }

  // ----- Up then Down

  function RecordsOf(ms: seq<Migration>): map<Version, string> {
    if ms == [] then map[] else RecordsOf(ms[..|ms| - 1])[ms[|ms| - 1].version := ms[|ms| - 1].name]
  }

  function LocalOf(ms: seq<Migration>): Local {
    if ms == [] then map[] else LocalOf(ms[..|ms| - 1])[ms[|ms| - 1].version := ms[|ms| - 1]]
  }

  /** The applied versions are exactly the first k migrations. */
  ghost predicate PrefixShape(db: Database, sorted: seq<Migration>, k: nat) {
    k <= |sorted| && db.records == RecordsOf(sorted[..k])
  }

  /** Running Down after Up gives back the schema, whatever it was. */
  ghost predicate Undoes(run: Run, m: Migration) {
    forall schema: Schema :: RunAll(run, schema, m.up).Some? ==>
      RunAll(run, RunAll(run, schema, m.up).value, m.down) == Some(schema)
  }

  lemma {:induction false} RecordsOfPrefix(sorted: seq<Migration>, k: nat)
    requires Ascending(sorted) && k <= |sorted|
    ensures forall v :: v in RecordsOf(sorted[..k]) <==> exists i :: 0 <= i < k && sorted[i].version == v
    ensures forall i :: 0 <= i < k ==> RecordsOf(sorted[..k])[sorted[i].version] == sorted[i].name
  {
    if k > 0 {
      assert sorted[..k][..k - 1] == sorted[..k - 1];
      RecordsOfPrefix(sorted, k - 1);
    }
  }

  lemma {:induction false} LocalOfPrefix(sorted: seq<Migration>, k: nat)
    requires Ascending(sorted) && k <= |sorted|
    ensures forall v :: v in LocalOf(sorted[..k]) <==> exists i :: 0 <= i < k && sorted[i].version == v
    ensures forall i :: 0 <= i < k ==> LocalOf(sorted[..k])[sorted[i].version] == sorted[i]
  {
    if k > 0 {
      assert sorted[..k][..k - 1] == sorted[..k - 1];
      LocalOfPrefix(sorted, k - 1);
    }
  }

  lemma LocalIsFiled(sorted: seq<Migration>)
    requires Ascending(sorted)
    ensures Filed(LocalOf(sorted)) && forall i :: 0 <= i < |sorted| ==>
              sorted[i].version in LocalOf(sorted) && LocalOf(sorted)[sorted[i].version] == sorted[i]
  {
    assert sorted[..|sorted|] == sorted;
    LocalOfPrefix(sorted, |sorted|);
  }

  /** A prefix leaves exactly the rest pending. */
  lemma {:induction false} PrefixPending(records: map<Version, string>, sorted: seq<Migration>, k: nat)
    requires k <= |sorted|
    requires forall i :: 0 <= i < k ==> sorted[i].version in records && records[sorted[i].version] == sorted[i].name
    requires forall i :: k <= i < |sorted| ==> sorted[i].version !in records
    ensures Pending(records, sorted) == sorted[k..] && Scan(records, sorted).None?
    decreases |sorted|
  {
    if sorted != [] {
      PrefixPending(records, sorted[1..], if k > 0 then k - 1 else 0);
    }
  }

  lemma PrefixLeavesRest(db: Database, sorted: seq<Migration>, k: nat)
    requires Ascending(sorted) && PrefixShape(db, sorted, k)
    ensures Pending(db.records, sorted) == sorted[k..] && Scan(db.records, sorted).None?
  {
    RecordsOfPrefix(sorted, k);
    PrefixPending(db.records, sorted, k);
  }

  lemma OneMoreRecord(db: Database, sorted: seq<Migration>, k: nat)
    requires PrefixShape(db, sorted, k) && k < |sorted|
    ensures RecordsOf(sorted[..k + 1]) == db.records[sorted[k].version := sorted[k].name]
  {
    assert sorted[..k + 1][..k] == sorted[..k];
  }

  /** Applying in order from a prefix keeps the prefix shape, error or not. */
  lemma {:induction false} AppliedIsPrefix(e: Engine, db: Database, sorted: seq<Migration>, k: nat, limit: nat, count: nat)
    requires PrefixShape(db, sorted, k)
    ensures var r := ApplyInOrder(e, db, sorted[k..], limit, count);
            r.count >= count && PrefixShape(r.db, sorted, k + r.count - count)
    decreases |sorted| - k
  {
    if k < |sorted| && !(limit > 0 && count >= limit) && ApplyUp(e, db, sorted[k]).Some? {
      OneMoreRecord(db, sorted, k);
      assert sorted[k..][1..] == sorted[k + 1..];
      AppliedIsPrefix(e, ApplyUp(e, db, sorted[k]).value, sorted, k + 1, limit, count + 1);
    }
  }

  lemma UpKeepsPrefix(e: Engine, db: Database, sorted: seq<Migration>, k: nat, limit: nat)
    requires Ascending(sorted) && PrefixShape(db, sorted, k)
    ensures var r := UpSession(e, db, sorted, limit);
            PrefixShape(r.db, sorted, k + r.count) && r == ApplyInOrder(e, db, sorted[k..], limit, 0)
  {
    PrefixLeavesRest(db, sorted, k);
    SessionAppliesInOrder(e, db, db.records, sorted, limit, 0);
    AppliedIsPrefix(e, db, sorted, k, limit, 0);
  }

  lemma HighestOfPrefix(db: Database, sorted: seq<Migration>, k: nat)
    requires Ascending(sorted) && PrefixShape(db, sorted, k) && k > 0
    ensures db.records != map[] && Highest(db.records.Keys) == sorted[k - 1].version
    ensures db.records[sorted[k - 1].version] == sorted[k - 1].name
    ensures db.records - {sorted[k - 1].version} == RecordsOf(sorted[..k - 1])
  {
    RecordsOfPrefix(sorted, k);
    RecordsOfPrefix(sorted, k - 1);
    assert sorted[k - 1].version in db.records;
    assert sorted[..k][..k - 1] == sorted[..k - 1];
    var shorter := RecordsOf(sorted[..k - 1]);
    assert sorted[k - 1].version !in shorter;
    assert db.records == shorter[sorted[k - 1].version := sorted[k - 1].name];
    assert db.records - {sorted[k - 1].version} == shorter;
  }

  /** Down keeps the prefix shape, error or not. */
  lemma {:induction false} DownKeepsPrefix(e: Engine, db: Database, sorted: seq<Migration>, k: nat, steps: int, count: nat)
    requires Ascending(sorted) && PrefixShape(db, sorted, k)
    ensures var r := DownFrom(e, db, db.records, LocalOf(sorted), steps, count);
            count <= r.count <= count + k && PrefixShape(r.db, sorted, k + count - r.count)
    decreases k
  {
    LocalIsFiled(sorted);
    if k > 0 {
      HighestOfPrefix(db, sorted, k);
      var m := sorted[k - 1];
      if count < steps && ApplyDown(e, db, m).Some? {
        RolledBack(e, db, m);
        DownKeepsPrefix(e, ApplyDown(e, db, m).value, sorted, k - 1, steps, count + 1);
      }
    }
  }

  /** The database after migrations a up to b have been applied. */
  function Applied(e: Engine, db: Database, sorted: seq<Migration>, a: nat, b: nat): Option<Database>
    requires a <= b <= |sorted|
  {
    if a == b then Some(db)
    else
      var before := Applied(e, db, sorted, a, b - 1);
      if before.None? then None else ApplyUp(e, before.value, sorted[b - 1])
  }

  lemma {:induction false} AppliedFromFront(e: Engine, db: Database, sorted: seq<Migration>, a: nat, b: nat)
    requires a < b <= |sorted| && ApplyUp(e, db, sorted[a]).Some?
    ensures Applied(e, db, sorted, a, b) == Applied(e, ApplyUp(e, db, sorted[a]).value, sorted, a + 1, b)
    decreases b
  {
    hide ApplyUp;
    if a + 1 < b {
      AppliedFromFront(e, db, sorted, a, b - 1);
    } else {
      assert Applied(e, db, sorted, a, a) == Some(db);
    }
  }

  lemma {:induction false} ApplyInOrderIsApplied(e: Engine, db: Database, sorted: seq<Migration>, k: nat, limit: nat, count: nat)
    requires k <= |sorted|
    ensures var r := ApplyInOrder(e, db, sorted[k..], limit, count);
            && count <= r.count <= count + |sorted| - k
            && Applied(e, db, sorted, k, k + r.count - count) == Some(r.db)
    decreases |sorted| - k
  {
    hide ApplyUp;
    if k < |sorted| && !(limit > 0 && count >= limit) && ApplyUp(e, db, sorted[k]).Some? {
      assert sorted[k..][1..] == sorted[k + 1..];
      var next := ApplyUp(e, db, sorted[k]).value;
      ApplyInOrderIsApplied(e, next, sorted, k + 1, limit, count + 1);
      var r := ApplyInOrder(e, next, sorted[k + 1..], limit, count + 1);
      AppliedFromFront(e, db, sorted, k, k + r.count - count);
    }
  }

  lemma {:induction false} AppliedShape(e: Engine, db: Database, sorted: seq<Migration>, k: nat, n: nat)
    requires PrefixShape(db, sorted, k) && k + n <= |sorted| && Applied(e, db, sorted, k, k + n).Some?
    ensures PrefixShape(Applied(e, db, sorted, k, k + n).value, sorted, k + n)
  {
    if n > 0 {
      AppliedShape(e, db, sorted, k, n - 1);
      OneMoreRecord(Applied(e, db, sorted, k, k + n - 1).value, sorted, k + n - 1);
    }
  }

  /** Rolling back the last migration applied restores what was before it, if its record
      can be deleted and the transaction commits: what Up met says nothing about that. */
  lemma DownUndoesLast(up: Engine, down: Engine, before: Database, after: Database, sorted: seq<Migration>, k: nat)
    requires Ascending(sorted) && PrefixShape(before, sorted, k) && k < |sorted| && down.run == up.run
    requires ApplyUp(up, before, sorted[k]) == Some(after) && Undoes(up.run, sorted[k])
    ensures after.records != map[] && Highest(after.records.Keys) == sorted[k].version
    ensures DownOnce(down, after, after.records, LocalOf(sorted)) ==
            if Lasts(down, sorted[k].version) then Ok(before) else Err(Failed(sorted[k].version))
    ensures after.records - {sorted[k].version} == before.records
  {
    LocalIsFiled(sorted);
    OneMoreRecord(before, sorted, k);
    HighestOfPrefix(after, sorted, k + 1);
    assert RunAll(up.run, before.schema, sorted[k].up).Some?;
  }

  /** Whether the rollback of every migration from a up to b succeeds. */
  ghost predicate AllLast(e: Engine, sorted: seq<Migration>, a: nat, b: nat)
    requires b <= |sorted|
  {
    forall i :: a <= i < b ==> Lasts(e, sorted[i].version)
  }

  /** One turn of Down: it goes on from what was there before, or stops. */
  lemma DownStepUndoes(up: Engine, down: Engine, before: Database, after: Database, sorted: seq<Migration>, k: nat,
                       steps: int, count: nat)
    requires Ascending(sorted) && PrefixShape(before, sorted, k) && k < |sorted| && down.run == up.run
    requires ApplyUp(up, before, sorted[k]) == Some(after) && Undoes(up.run, sorted[k]) && count < steps
    ensures DownFrom(down, after, after.records, LocalOf(sorted), steps, count) ==
            if Lasts(down, sorted[k].version) then DownFrom(down, before, before.records, LocalOf(sorted), steps, count + 1)
            else Report(count, Some(Failed(sorted[k].version)), after)
  {
    hide Ascending, PrefixShape, ApplyUp, Undoes, DownOnce, Lasts;
    DownUndoesLast(up, down, before, after, sorted, k);
  }

  lemma AppliedLast(e: Engine, db: Database, sorted: seq<Migration>, k: nat, n: nat)
    requires k + n <= |sorted| && Applied(e, db, sorted, k, k + n).Some?
    ensures n == 0 ==> Applied(e, db, sorted, k, k) == Some(db)
    ensures n > 0 ==> Applied(e, db, sorted, k, k + n - 1).Some?
                      && ApplyUp(e, Applied(e, db, sorted, k, k + n - 1).value, sorted[k + n - 1])
                         == Applied(e, db, sorted, k, k + n)
  {
  }

  lemma AllLastUpTo(e: Engine, sorted: seq<Migration>, k: nat, n: nat)
    requires k + n <= |sorted|
    ensures AllLast(e, sorted, k, k + n) <==>
            n == 0 || (AllLast(e, sorted, k, k + n - 1) && Lasts(e, sorted[k + n - 1].version))
  {
  }

  lemma NothingLeft(e: Engine, db: Database, local: Local, count: nat)
    ensures DownFrom(e, db, db.records, local, count, count) == Report(count, None, db)
  {
  }

  lemma {:induction false} DownUndoes(up: Engine, down: Engine, db: Database, sorted: seq<Migration>, k: nat, n: nat, count: nat)
    requires Ascending(sorted) && PrefixShape(db, sorted, k) && k + n <= |sorted| && down.run == up.run
    requires Applied(up, db, sorted, k, k + n).Some? && forall m :: m in sorted ==> Undoes(up.run, m)
    ensures var d := Applied(up, db, sorted, k, k + n).value;
            var r := DownFrom(down, d, d.records, LocalOf(sorted), count + n, count);
            && count <= r.count <= count + n
            && Applied(up, db, sorted, k, k + n + count - r.count) == Some(r.db)
            && (r.err.None? <==> AllLast(down, sorted, k, k + n))
            && (r.err.None? ==> r.count == count + n)
    decreases n
  {
    hide *;
    AppliedLast(up, db, sorted, k, n);
    AllLastUpTo(down, sorted, k, n);
    if n == 0 {
      NothingLeft(down, db, LocalOf(sorted), count);
    } else {
      var last := k + n - 1;
      var before, after := Applied(up, db, sorted, k, last).value, Applied(up, db, sorted, k, k + n).value;
      AppliedShape(up, db, sorted, k, n - 1);
      DownStepUndoes(up, down, before, after, sorted, last, count + n, count);
      if Lasts(down, sorted[last].version) {
        DownUndoes(up, down, db, sorted, k, n - 1, count + 1);
      }
    }
  }

  /** The same from the first rollback on, in one session. */
  lemma SessionUndoes(up: Engine, down: Engine, db: Database, sorted: seq<Migration>, k: nat, n: nat)
    requires Ascending(sorted) && PrefixShape(db, sorted, k) && k + n <= |sorted| && down.run == up.run
    requires Applied(up, db, sorted, k, k + n).Some? && forall m :: m in sorted ==> Undoes(up.run, m)
    ensures var d := DownSession(down, Applied(up, db, sorted, k, k + n).value, LocalOf(sorted), n);
            && d.count <= n
            && Applied(up, db, sorted, k, k + n - d.count) == Some(d.db) && PrefixShape(d.db, sorted, k + n - d.count)
            && (d.err.None? <==> AllLast(down, sorted, k, k + n))
            && (d.err.None? ==> d == Report(n, None, db))
  {
    hide Undoes, AllLast, DownFrom, ApplyUp;
    DownUndoes(up, down, db, sorted, k, n, 0);
    var d := DownSession(down, Applied(up, db, sorted, k, k + n).value, LocalOf(sorted), n);
    AppliedShape(up, db, sorted, k, n - d.count);
  }

  lemma UpApplies(e: Engine, db: Database, sorted: seq<Migration>, k: nat, limit: nat)
    requires Ascending(sorted) && PrefixShape(db, sorted, k)
    ensures var r := UpSession(e, db, sorted, limit);
            k + r.count <= |sorted| && Applied(e, db, sorted, k, k + r.count) == Some(r.db)
  {
    UpKeepsPrefix(e, db, sorted, k, limit);
    ApplyInOrderIsApplied(e, db, sorted, k, limit, 0);
  }

  /** The inverse. The applied versions are a prefix of the validated list and each Down
      undoes its Up; then rolling back as many as Up applied, also when Up stopped at an
      error, fails exactly when a record or a commit of that rollback does. When it does
      not fail it restores the schema and the records. When it does, the database is the
      one after the migrations that are left, which are a prefix again. */
  lemma DownInvertsUp(up: Engine, down: Engine, db: Database, sorted: seq<Migration>, k: nat, limit: nat)
    requires Ascending(sorted) && PrefixShape(db, sorted, k) && forall m :: m in sorted ==> Undoes(up.run, m)
    requires UpSession(up, db, sorted, limit).count >= 1 && down.run == up.run
    ensures var r := UpSession(up, db, sorted, limit);
            var d := DownSession(down, r.db, LocalOf(sorted), r.count);
            && k + r.count <= |sorted| && d.count <= r.count
            && Applied(up, db, sorted, k, k + r.count - d.count) == Some(d.db)
            && PrefixShape(d.db, sorted, k + r.count - d.count)
            && (d.err.None? <==> AllLast(down, sorted, k, k + r.count))
            && (d.err.None? ==> d == Report(r.count, None, db))
  {
    hide *;
    UpApplies(up, db, sorted, k, limit);
    SessionUndoes(up, down, db, sorted, k, UpSession(up, db, sorted, limit).count);
  }
}

/** Any number of SQLite Up runners on one database, their transactions interleaved,
    any of which may fail at its beginning, its record or its commit. */
module CompetingRunners {
  import opened Wrappers
  import opened Migrate

  /** A runner between two of its transactions. */
  datatype Client = Client(sorted: seq<Migration>, limit: nat, count: nat, stopped: bool)

  /** `commits` are the migrations committed so far, in order. */
  datatype World = World(db: Database, clients: seq<Client>, commits: seq<Migration>)

  predicate Enabled(w: World, i: nat) {
    i < |w.clients| && !w.clients[i].stopped
  }

  /** The next transaction of a runner, and what it meets: whether it gets the lock, can
      write its record, and commits. */
  datatype Step = Step(runner: nat, locks: bool, records: bool, commits: bool)

  function Met(run: Run, step: Step): Engine {
    Engine(run, v => step.records, v => step.commits, step.commits)
  }

  /** The migration this step commits, if it does. */
  function Commits(w: World, run: Run, step: Step): Option<Migration>
    requires Enabled(w, step.runner)
  {
    var c := w.clients[step.runner];
    if step.locks && !(c.limit != 0 && c.count >= c.limit) && UpTurn(Met(run, step), w.db, c.sorted).Moved? then
      Some(Pending(w.db.records, c.sorted)[0])
    else None
  }

  /** One transaction of a runner, or its return. */
  function Next(w: World, run: Run, step: Step): World
    requires Enabled(w, step.runner)
  {
    var i := step.runner;
    var c := w.clients[i];
    var m := Commits(w, run, step);
    if m.None? then w.(clients := w.clients[i := c.(stopped := true)])
    else
      var turn := UpTurn(Met(run, step), w.db, c.sorted);
      World(turn.db, w.clients[i := c.(count := c.count + 1, stopped := !turn.more)], w.commits + [m.value])
  }

  function Total(clients: seq<Client>): nat {
    if clients == [] then 0 else Total(clients[..|clients| - 1]) + clients[|clients| - 1].count
  }

  lemma {:induction false} TotalUpdate(clients: seq<Client>, i: nat, c: Client)
    requires i < |clients|
    ensures Total(clients[i := c]) == Total(clients) - clients[i].count + c.count
  {
    var n := |clients| - 1;
    if i < n {
      assert clients[i := c][..n] == clients[..n][i := c];
      TotalUpdate(clients[..n], i, c);
    } else {
      assert clients[i := c][..n] == clients[..n];
    }
  }

  /** Committing these migrations one by one from the start. */
  function Replay(run: Run, base: Database, commits: seq<Migration>): Option<Database> {
    if commits == [] then Some(base)
    else
      var before := Replay(run, base, commits[..|commits| - 1]);
      if before.None? then None else Committed(run, before.value, commits[|commits| - 1])
  }

  /** The state is the serial outcome of the commits; no version is committed twice
      or was there before; and the counts add up. */
  ghost predicate Inv(w: World, run: Run, base: Database) {
    && Replay(run, base, w.commits) == Some(w.db)
    && |w.db.records| == |base.records| + |w.commits| && Total(w.clients) == |w.commits|
    && (forall i :: 0 <= i < |w.commits| ==> w.commits[i].version !in base.records)
    && (forall i, j :: 0 <= i < j < |w.commits| ==> w.commits[i].version != w.commits[j].version)
    && (forall i :: 0 <= i < |w.commits| ==> w.commits[i].version in w.db.records)
    && (forall v :: v in base.records ==> v in w.db.records)
  }

  lemma RecordAdded(records: map<Version, string>, version: Version, name: string)
    requires version !in records
    ensures |records[version := name]| == |records| + 1
  {
    assert records[version := name].Keys == records.Keys + {version};
  }

  lemma CommitKeepsInv(w: World, run: Run, base: Database, step: Step)
    requires Inv(w, run, base) && Enabled(w, step.runner) && Commits(w, run, step).Some?
    ensures Inv(Next(w, run, step), run, base)
    ensures var m := Commits(w, run, step).value; m.version !in w.db.records && m.version in Next(w, run, step).db.records
  {
    hide Total, RunAll;
    var i := step.runner;
    var m := Pending(w.db.records, w.clients[i].sorted)[0];
    FirstPending(w.db.records, w.clients[i].sorted);
    RecordAdded(w.db.records, m.version, m.name);
    TotalUpdate(w.clients, i, Next(w, run, step).clients[i]);
    assert (w.commits + [m])[..|w.commits|] == w.commits;
  }

  lemma NextKeepsInv(w: World, run: Run, base: Database, step: Step)
    requires Inv(w, run, base) && Enabled(w, step.runner)
    ensures Inv(Next(w, run, step), run, base)
  {
    if Commits(w, run, step).Some? {
      CommitKeepsInv(w, run, base, step);
    } else {
      hide Total, Commits;
      TotalUpdate(w.clients, step.runner, w.clients[step.runner].(stopped := true));
    }
  }

  ghost predicate IsRun(worlds: seq<World>, run: Run, base: Database, steps: seq<Step>) {
    && |worlds| == |steps| + 1
    && worlds[0].db == base && worlds[0].commits == [] && Total(worlds[0].clients) == 0
    && (forall i, j :: 0 <= i < |steps| && j == i + 1 ==> Moves(worlds[i], run, steps[i], worlds[j]))
  }

  predicate Moves(w: World, run: Run, step: Step, w': World) {
    Enabled(w, step.runner) && w' == Next(w, run, step)
  }

  lemma {:induction false} RunKeepsInv(worlds: seq<World>, run: Run, base: Database, steps: seq<Step>, n: nat)
    requires IsRun(worlds, run, base, steps) && n < |worlds|
    ensures Inv(worlds[n], run, base)
  {
    if n > 0 {
      hide Inv, Next;
      RunKeepsInv(worlds, run, base, steps, n - 1);
      assert Moves(worlds[n - 1], run, steps[n - 1], worlds[n]);
      NextKeepsInv(worlds[n - 1], run, base, steps[n - 1]);
    }
  }

  /** However the runners interleave, and whichever of their transactions fail, each
      version commits at most once, the counts sum to the versions added, and the
      database is what committing them one by one gives. */
  lemma EachVersionCommitsOnce(worlds: seq<World>, run: Run, base: Database, steps: seq<Step>, n: nat)
    requires IsRun(worlds, run, base, steps) && n < |worlds|
    ensures var w := worlds[n];
            && (forall i, j :: 0 <= i < j < |w.commits| ==> w.commits[i].version != w.commits[j].version)
            && Total(w.clients) == |w.commits| == |w.db.records| - |base.records|
            && (forall v :: v in base.records ==> v in w.db.records)
            && Replay(run, base, w.commits) == Some(w.db)
  {
    RunKeepsInv(worlds, run, base, steps, n);
  }
}

/** The loops themselves, on a database that is updated in place. */
module MigrationLoops {
  import opened Wrappers
  import opened Sequences
  import opened Migrate
  import opened MigrationList

  /** A report of a session whose lock may not be released. */
  function Released(r: Report, unlocks: bool): Report {
    if unlocks || r.err.Some? then r else r.(err := Some(NotReleased))
  }

  class Runner {
    const engine: Engine
    /** The dialect locks in each transaction, as SQLite does, not for a session. */
    const transactional: bool
    var db: Database

    constructor (engine: Engine, transactional: bool, db: Database)
      ensures this.engine == engine && this.transactional == transactional && this.db == db
    {
      this.engine := engine;
      this.transactional := transactional;
      this.db := db;
    }

    method Execute(schema: Schema, statements: seq<Statement>) returns (r: Option<Schema>)
      ensures r == RunAll(engine.run, schema, statements)
    {
      var current := schema;
      var i := 0;
      while i < |statements|
        invariant 0 <= i <= |statements|
        invariant RunAll(engine.run, schema, statements) == RunAll(engine.run, current, statements[i..])
      {
        var next := engine.run(current, statements[i]);
        assert statements[i..][1..] == statements[i + 1..];
        if next.None? {
          return None;
        }
        current := next.value;
        i := i + 1;
      }
      return Some(current);
    }

    /** A transaction: the database changes only if it commits. */
    method TransactUp(m: Migration) returns (ok: bool)
      modifies this
      ensures ok == ApplyUp(engine, old(db), m).Some?
      ensures db == if ok then ApplyUp(engine, old(db), m).value else old(db)
    {
      var schema := Execute(db.schema, m.up);
      ok := schema.Some? && Lasts(engine, m.version);
      if ok {
        db := Database(schema.value, db.records[m.version := m.name]);
      }
    }

    method TransactDown(m: Migration) returns (ok: bool)
      modifies this
      ensures ok == ApplyDown(engine, old(db), m).Some?
      ensures db == if ok then ApplyDown(engine, old(db), m).value else old(db)
    {
      var schema := Execute(db.schema, m.down);
      ok := schema.Some? && Lasts(engine, m.version);
      if ok {
        db := Database(schema.value, db.records - {m.version});
      }
    }

    /** Up. `locks` and `unlocks` say whether the session's lock is taken and released. */
    method Up(migrations: seq<Migration>, limit: int, locks: bool, unlocks: bool) returns (count: nat, err: Option<Error>)
      modifies this
      ensures Report(count, err, db) ==
              if limit < 0 then Report(0, Some(InvalidLimit), old(db))
              else if !Acceptable(migrations) then Report(0, Some(Invalid), old(db))
              else if transactional then UpSqlite(engine, old(db), AllCleaned(Sort(migrations)), limit)
              else if !locks then Report(0, Some(NotLocked), old(db))
              else Released(UpSession(engine, old(db), AllCleaned(Sort(migrations)), limit), unlocks)
      ensures err.None? ==> transactional || (locks && unlocks)
    {
      if limit < 0 {
        return 0, Some(InvalidLimit);
      }
      var sorted, faults := ValidateMigrations(migrations);
      if faults != [] {
        return 0, Some(Invalid);
      }
      if transactional {
        count, err := UpWithTransactionalLock(sorted, limit);
        return;
      }
      if !locks {
        return 0, Some(NotLocked);
      }
      count, err := UpInSession(sorted, limit);
      if !unlocks && err.None? {
        err := Some(NotReleased);
      }
    }

    /** The loop over what the session read at its start. */
    method UpInSession(sorted: seq<Migration>, limit: nat) returns (count: nat, err: Option<Error>)
      modifies this
      ensures Report(count, err, db) == UpSession(engine, old(db), sorted, limit)
    {
      count, err := 0, None;
      var applied := db.records;
      var i := 0;
      while i < |sorted|
        invariant 0 <= i <= |sorted| && err.None?
        invariant UpSession(engine, old(db), sorted, limit) == UpFrom(engine, db, applied, sorted[i..], limit, count)
      {
        var m := sorted[i];
        assert sorted[i..][1..] == sorted[i + 1..];
        if m.version in applied {
          if applied[m.version] != m.name {
            return count, Some(NameMismatch(m.version));
          }
        } else {
          if limit > 0 && count >= limit {
            return count, None;
          }
          var ok := TransactUp(m);
          if !ok {
            return count, Some(Failed(m.version));
          }
          count := count + 1;
        }
        i := i + 1;
      }
    }

    /** The scan inside a SQLite transaction: an error, or the next migration and
        whether there are more. */
    method FindNext(sorted: seq<Migration>) returns (err: Option<Error>, next: Option<Migration>, hasMore: bool)
      ensures err == Scan(db.records, sorted)
      ensures err.None? ==>
                var pending := Pending(db.records, sorted);
                (next == if pending == [] then None else Some(pending[0])) && (hasMore <==> |pending| > 1)
    {
      err, next, hasMore := None, None, false;
      ghost var seen: seq<Migration> := [];
      var i := 0;
      while i < |sorted|
        invariant 0 <= i <= |sorted| && err.None?
        invariant Scan(db.records, sorted) == Scan(db.records, sorted[i..])
        invariant Pending(db.records, sorted) == seen + Pending(db.records, sorted[i..])
        invariant (next == if seen == [] then None else Some(seen[0])) && (hasMore <==> |seen| > 1)
      {
        var m := sorted[i];
        assert sorted[i..][1..] == sorted[i + 1..];
        if m.version in db.records {
          if db.records[m.version] != m.name {
            return Some(NameMismatch(m.version)), next, hasMore;
          }
        } else {
          if next.None? {
            next := Some(m);
          } else {
            hasMore := true;
          }
          seen := seen + [m];
        }
        i := i + 1;
      }
    }

    /** Up on SQLite. */
    method UpWithTransactionalLock(sorted: seq<Migration>, limit: nat) returns (count: nat, err: Option<Error>)
      modifies this
      ensures Report(count, err, db) == UpSqlite(engine, old(db), sorted, limit)
    {
      count, err := 0, None;
      while limit == 0 || count < limit
        invariant err.None?
        invariant UpTurns(engine, db, sorted, limit, count) == UpSqlite(engine, old(db), sorted, limit)
        decreases |Pending(db.records, sorted)|
      {
        var refused, next, hasMore := FindNext(sorted);
        if refused.Some? {
          return count, refused;
        }
        if next.None? {
          return count, if engine.idles then None else Some(NotCommitted);
        }
        PendingShrinks(db.records, sorted, next.value.version, next.value.name);
        var ok := TransactUp(next.value);
        if !ok {
          return count, Some(Failed(next.value.version));
        }
        count := count + 1;
        if !hasMore {
          return count, None;
        }
      }
    }

    method HighestVersion(records: map<Version, string>) returns (highest: Version)
      requires records != map[]
      ensures highest == Highest(records.Keys)
    {
      ghost var w := SomeElement(records.Keys);
      highest :| highest in records.Keys;
      var rest := records.Keys - {highest};
      while rest != {}
        invariant highest in records.Keys && highest !in rest && forall v :: v in rest ==> v in records.Keys
        invariant forall v :: v in records.Keys && v !in rest ==> v <= highest
        decreases rest
      {
        ghost var w := SomeElement(rest);
        var v :| v in rest;
        rest := rest - {v};
        if v > highest {
          highest := v;
        }
      }
    }

    /** The checks and the transaction both loops of Down share. */
    method RollBack(version: Version, name: string, local: Local) returns (err: Option<Error>)
      modifies this
      ensures err == if version !in local then Some(MissingLocally(version))
                     else if local[version].name != name then Some(NameMismatch(version))
                     else if ApplyDown(engine, old(db), local[version]).None? then Some(Failed(version))
                     else None
      ensures db == if err.Some? then old(db) else ApplyDown(engine, old(db), local[version]).value
    {
      if version !in local {
        return Some(MissingLocally(version));
      }
      if local[version].name != name {
        return Some(NameMismatch(version));
      }
      var ok := TransactDown(local[version]);
      return if ok then None else Some(Failed(version));
    }

    /** Down. */
    method Down(migrations: seq<Migration>, steps: int, locks: bool, unlocks: bool) returns (count: nat, err: Option<Error>)
      modifies this
      ensures steps > 0 && Acceptable(migrations) ==> Filed(LocalOf(AllCleaned(Sort(migrations))))
      ensures Report(count, err, db) ==
              if steps <= 0 then Report(0, Some(InvalidLimit), old(db))
              else if !Acceptable(migrations) then Report(0, Some(Invalid), old(db))
              else if transactional then DownTurns(engine, old(db), LocalOf(AllCleaned(Sort(migrations))), steps, 0)
              else if !locks then Report(0, Some(NotLocked), old(db))
              else Released(DownSession(engine, old(db), LocalOf(AllCleaned(Sort(migrations))), steps), unlocks)
      ensures err.None? ==> transactional || (locks && unlocks)
    {
      if steps <= 0 {
        return 0, Some(InvalidLimit);
      }
      var sorted, faults := ValidateMigrations(migrations);
      if faults != [] {
        return 0, Some(Invalid);
      }
      var local := FileByVersion(sorted);
      LocalIsFiled(sorted);
      if transactional {
        count, err := DownWithTransactionalLock(local, steps);
        return;
      }
      if !locks {
        return 0, Some(NotLocked);
      }
      count, err := DownInSession(local, steps);
      if !unlocks && err.None? {
        err := Some(NotReleased);
      }
    }

    method FileByVersion(sorted: seq<Migration>) returns (local: Local)
      ensures local == LocalOf(sorted)
    {
      local := map[];
      var i := 0;
      while i < |sorted|
        invariant 0 <= i <= |sorted| && local == LocalOf(sorted[..i])
      {
        assert sorted[..i + 1][..i] == sorted[..i];
        local := local[sorted[i].version := sorted[i]];
        i := i + 1;
      }
      assert sorted[..|sorted|] == sorted;
    }

    /** The loop over what the session read at its start, highest version first. */
    method DownInSession(local: Local, steps: nat) returns (count: nat, err: Option<Error>)
      modifies this
      ensures Report(count, err, db) == DownSession(engine, old(db), local, steps)
    {
      count, err := 0, None;
      var applied := db.records;
      while applied != map[] && count < steps
        invariant err.None?
        invariant DownFrom(engine, db, applied, local, steps, count) == DownSession(engine, old(db), local, steps)
        decreases |applied|
      {
        var version := HighestVersion(applied);
        FewerLeft(applied, version);
        err := RollBack(version, applied[version], local);
        if err.Some? {
          return count, err;
        }
        count := count + 1;
        applied := applied - {version};
      }
    }

    /** Down on SQLite. */
    method DownWithTransactionalLock(local: Local, steps: nat) returns (count: nat, err: Option<Error>)
      requires Filed(local)
      modifies this
      ensures Report(count, err, db) == DownTurns(engine, old(db), local, steps, 0)
    {
      count, err := 0, None;
      while count < steps
        invariant err.None?
        invariant DownTurns(engine, db, local, steps, count) == DownTurns(engine, old(db), local, steps, 0)
        decreases |db.records|
      {
        if db.records == map[] {
          return count, if engine.idles then None else Some(NotCommitted);
        }
        var version := HighestVersion(db.records);
        var hasMore := |db.records| > 1;
        FewerLeft(db.records, version);
        err := RollBack(version, db.records[version], local);
        if err.Some? {
          return count, err;
        }
        count := count + 1;
        if !hasMore {
          return count, None;
        }
      }
    }
  }
}
