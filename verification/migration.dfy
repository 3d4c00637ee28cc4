/** Validation of a list of migrations (migrate/migration.go). */
module MigrationList {
  import opened Migrate
  import opened WhiteSpace

  function Clean(statements: seq<Statement>): seq<Statement> {
    if statements == [] then []
    else
      var before, last := Clean(statements[..|statements| - 1]), Trim(statements[|statements| - 1]);
      if last != "" then before + [last] else before
  }

  function Cleaned(m: Migration): Migration {
    Migration(m.version, Trim(m.name), Clean(m.up), Clean(m.down))
  }

  function AllCleaned(ms: seq<Migration>): (cleaned: seq<Migration>)
    ensures |cleaned| == |ms|
  {
    seq(|ms|, i requires 0 <= i < |ms| => Cleaned(ms[i]))
  }

  /** One migration has no fault of its own. */
  predicate Sound(m: Migration) {
    m.version > 0 && Trim(m.name) != "" && Clean(m.up) != [] && Clean(m.down) != []
  }

  function VersionsOf(ms: seq<Migration>): (versions: seq<Version>)
    ensures |versions| == |ms|
  {
    seq(|ms|, i requires 0 <= i < |ms| => ms[i].version)
  }

  /** Every migration is sound and no version occurs twice. */
  ghost predicate Acceptable(ms: seq<Migration>) {
    (forall m :: m in ms ==> Sound(m)) && (forall v :: multiset(VersionsOf(ms))[v] <= 1)
  }

  // ----- sorting by version

  predicate InOrder(ms: seq<Migration>) {
    forall i, j :: 0 <= i < j < |ms| ==> ms[i].version <= ms[j].version
  }

  function Insert(ms: seq<Migration>, m: Migration): seq<Migration> {
    if ms == [] || ms[|ms| - 1].version <= m.version then ms + [m]
    else Insert(ms[..|ms| - 1], m) + [ms[|ms| - 1]]
  }

  function Sort(ms: seq<Migration>): seq<Migration> {
    if ms == [] then [] else Insert(Sort(ms[..|ms| - 1]), ms[|ms| - 1])
  }

  lemma VersionsAppend(ms: seq<Migration>, m: Migration)
    ensures VersionsOf(ms + [m]) == VersionsOf(ms) + [m.version]
  {
  }

  lemma {:induction false} InsertIsPermutation(ms: seq<Migration>, m: Migration)
    ensures multiset(Insert(ms, m)) == multiset(ms) + multiset{m}
  {
    if !(ms == [] || ms[|ms| - 1].version <= m.version) {
      var rest, last := ms[..|ms| - 1], ms[|ms| - 1];
      InsertIsPermutation(rest, m);
      assert ms == rest + [last];
    }
  }

  lemma {:induction false} InsertVersions(ms: seq<Migration>, m: Migration)
    ensures multiset(VersionsOf(Insert(ms, m))) == multiset(VersionsOf(ms)) + multiset{m.version}
  {
    if ms == [] || ms[|ms| - 1].version <= m.version {
      VersionsAppend(ms, m);
    } else {
      var rest, last := ms[..|ms| - 1], ms[|ms| - 1];
      InsertVersions(rest, m);
      assert ms == rest + [last];
      VersionsAppend(rest, last);
      VersionsAppend(Insert(rest, m), last);
      hide VersionsOf, Insert;
    }
  }

  lemma {:induction false} InsertOrders(ms: seq<Migration>, m: Migration)
    requires InOrder(ms)
    ensures InOrder(Insert(ms, m)) && forall x :: x in Insert(ms, m) ==> x in ms || x == m
  {
    if !(ms == [] || ms[|ms| - 1].version <= m.version) {
      var rest, last := ms[..|ms| - 1], ms[|ms| - 1];
      InsertOrders(rest, m);
      assert forall x :: x in rest ==> x in ms && x.version <= last.version;
    }
  }

  lemma {:induction false} SortOrders(ms: seq<Migration>)
    ensures InOrder(Sort(ms))
  {
    if ms != [] {
      SortOrders(ms[..|ms| - 1]);
      InsertOrders(Sort(ms[..|ms| - 1]), ms[|ms| - 1]);
    }
  }

  lemma {:induction false} SortIsPermutation(ms: seq<Migration>)
    ensures multiset(Sort(ms)) == multiset(ms)
    ensures multiset(VersionsOf(Sort(ms))) == multiset(VersionsOf(ms))
  {
    if ms != [] {
      var rest, last := ms[..|ms| - 1], ms[|ms| - 1];
      SortIsPermutation(rest);
      InsertIsPermutation(Sort(rest), last);
      InsertVersions(Sort(rest), last);
      assert ms == rest + [last];
      VersionsAppend(rest, last);
      hide VersionsOf, Insert;
    }
  }

  /** In an ordered list, no version occurs twice exactly when each is above the last. */
  lemma UniqueMeansAscending(ms: seq<Migration>)
    requires InOrder(ms)
    ensures (forall v :: multiset(VersionsOf(ms))[v] <= 1) <==> Ascending(ms)
  {
    var versions := VersionsOf(ms);
    assert forall i :: 0 <= i < |ms| ==> versions[i] == ms[i].version;
    if Ascending(ms) {
      forall v ensures multiset(versions)[v] <= 1 {
        OccursOnce(versions, v);
      }
    } else {
      var i, j :| 0 <= i < j < |ms| && ms[i].version >= ms[j].version;
      OccursTwice(versions, i, j);
    }
  }

  lemma {:induction false} OccursOnce(s: seq<Version>, v: Version)
    requires forall i, j :: 0 <= i < j < |s| ==> s[i] < s[j]
    ensures multiset(s)[v] <= 1 && (s != [] && v > s[|s| - 1] ==> multiset(s)[v] == 0)
  {
    if s != [] {
      var rest, last := s[..|s| - 1], s[|s| - 1];
      OccursOnce(rest, v);
      assert s == rest + [last];
      assert multiset(s)[v] == multiset(rest)[v] + multiset{last}[v];
    }
  }

  lemma OccursTwice(s: seq<Version>, i: nat, j: nat)
    requires i < j < |s| && s[i] == s[j]
    ensures multiset(s)[s[i]] >= 2
  {
    var front, back := s[..j], s[j..];
    assert s == front + back;
    assert front[i] == s[i] && back[0] == s[i];
    assert s[i] in multiset(front) && s[i] in multiset(back);
    assert multiset(s)[s[i]] == multiset(front)[s[i]] + multiset(back)[s[i]];
  }

  // ----- validation

  datatype Fault =
    | NotPositive(version: Version) | Duplicate(version: Version) | EmptyName(version: Version)
    | NoUp(version: Version) | NoDown(version: Version)

  /** Cleaning leaves trimmed statements that are not blank, and only the first time. */
  lemma {:induction false} CleanIsClean(statements: seq<Statement>)
    ensures forall s :: s in Clean(statements) ==> s != "" && Trimmed(s)
    ensures Clean(Clean(statements)) == Clean(statements)
    decreases statements
  {
    if statements != [] {
      var before, last := Clean(statements[..|statements| - 1]), Trim(statements[|statements| - 1]);
      CleanIsClean(statements[..|statements| - 1]);
      TrimIsTrimmed(statements[|statements| - 1]);
      TrimOfTrimmed(last);
      if last != "" {
        assert (before + [last])[..|before|] == before;
      }
    }
  }

  method CleanStatements(statements: seq<Statement>) returns (cleaned: seq<Statement>)
    ensures cleaned == Clean(statements)
  {
    cleaned := [];
    var i := 0;
    while i < |statements|
      invariant 0 <= i <= |statements| && cleaned == Clean(statements[..i])
    {
      assert statements[..i + 1][..i] == statements[..i];
      var statement := Trim(statements[i]);
      if statement != "" {
        cleaned := cleaned + [statement];
      }
      i := i + 1;
    }
    assert statements[..|statements|] == statements;
  }

  /** The faults of one migration, with the versions seen before it. */
  method FaultsOf(m: Migration, cleaned: Migration, seen: set<Version>) returns (faults: seq<Fault>)
    requires cleaned == Cleaned(m)
    ensures faults == [] <==> Sound(m) && m.version !in seen
  {
    faults := [];
    if cleaned.version <= 0 {
      faults := faults + [NotPositive(cleaned.version)];
    }
    if cleaned.version in seen {
      faults := faults + [Duplicate(cleaned.version)];
    }
    if cleaned.name == "" {
      faults := faults + [EmptyName(cleaned.version)];
    }
    if |cleaned.up| == 0 {
      faults := faults + [NoUp(cleaned.version)];
    }
    if |cleaned.down| == 0 {
      faults := faults + [NoDown(cleaned.version)];
    }
  }

  /** No fault among the first n of an ordered list. */
  ghost predicate SoundUpTo(ms: seq<Migration>, n: nat)
    requires n <= |ms|
  {
    && (forall i :: 0 <= i < n ==> Sound(ms[i]))
    && (forall i, j :: 0 <= i < j < n ==> ms[i].version != ms[j].version)
  }

  /** ValidateMigrations: it accepts exactly the lists of sound migrations with
      distinct versions, and returns them cleaned, in strictly ascending order. */
  method ValidateMigrations(migrations: seq<Migration>) returns (sorted: seq<Migration>, faults: seq<Fault>)
    ensures sorted == AllCleaned(Sort(migrations))
    ensures faults == [] <==> Acceptable(migrations)
    ensures faults == [] ==> Ascending(sorted)
  {
    hide Clean, Sort, Sound, WhiteSpace.Trim;
    ghost var ordered := Sort(migrations);
    sorted := Sort(migrations);
    faults := [];
    var seen: set<Version> := {};
    var i := 0;
    while i < |sorted|
      invariant 0 <= i <= |sorted| == |ordered|
      invariant forall j :: 0 <= j < |sorted| ==> sorted[j] == if j < i then Cleaned(ordered[j]) else ordered[j]
      invariant forall j :: 0 <= j < i ==> ordered[j].version in seen
      invariant forall v :: v in seen ==> exists j :: 0 <= j < i && ordered[j].version == v
      invariant faults == [] <==> SoundUpTo(ordered, i)
    {
      var up := CleanStatements(sorted[i].up);
      var down := CleanStatements(sorted[i].down);
      var cleaned := Migration(sorted[i].version, Trim(sorted[i].name), up, down);
      var found := FaultsOf(sorted[i], cleaned, seen);
      OneMoreSound(ordered, i, seen);
      faults := faults + found;
      seen := seen + {cleaned.version};
      sorted := sorted[i := cleaned];
      i := i + 1;
    }
    SoundMeansAcceptable(migrations);
  }

  lemma OneMoreSound(ms: seq<Migration>, i: nat, seen: set<Version>)
    requires i < |ms| && (forall j :: 0 <= j < i ==> ms[j].version in seen)
    requires forall v :: v in seen ==> exists j :: 0 <= j < i && ms[j].version == v
    ensures SoundUpTo(ms, i + 1) <==> SoundUpTo(ms, i) && Sound(ms[i]) && ms[i].version !in seen
  {
    if ms[i].version in seen {
      var j :| 0 <= j < i && ms[j].version == ms[i].version;
    }
  }

  lemma SoundMeansAcceptable(migrations: seq<Migration>)
    ensures var ms := Sort(migrations);
            (SoundUpTo(ms, |ms|) <==> Acceptable(migrations)) && (SoundUpTo(ms, |ms|) ==> Ascending(AllCleaned(ms)))
  {
    hide Sort, VersionsOf, Sound, Clean, WhiteSpace.Trim;
    var ms := Sort(migrations);
    SortOrders(migrations);
    SortIsPermutation(migrations);
    UniqueMeansAscending(ms);
    SameElements(ms, migrations);
  }

  lemma SameElements(a: seq<Migration>, b: seq<Migration>)
    requires multiset(a) == multiset(b)
    ensures forall m :: m in a <==> m in b
  {
    assert forall m :: m in a <==> m in multiset(a);
    assert forall m :: m in b <==> m in multiset(b);
  }
}

/** Splitting a migration file into statements (migrate/source.go). */
module StatementFiles {
  import opened Sequences
  import opened TextLines
  import opened WhiteSpace

  const SEPARATOR := "-- ossein:split"

  function Flushed(current: string): seq<string> {
    if Trim(current) != "" then [Trim(current)] else []
  }

  /** The statements of the remaining lines, after the text collected so far. */
  function SplitFrom(current: string, lines: seq<string>): seq<string>
    decreases lines
  {
    if lines == [] then Flushed(current)
    else if Trim(lines[0]) == SEPARATOR then Flushed(current) + SplitFrom("", lines[1..])
    else SplitFrom(current + lines[0] + "\n", lines[1..])
  }

  /** splitStatements. */
  method SplitStatements(content: string) returns (statements: seq<string>)
    ensures statements == SplitFrom("", Lines(ReplaceCrLf(content)))
  {
    var lines := Lines(ReplaceCrLf(content));
    statements := [];
    var current := "";
    var i := 0;
    while i < |lines|
      invariant 0 <= i <= |lines|
      invariant SplitFrom("", lines) == statements + SplitFrom(current, lines[i..])
    {
      assert lines[i..][1..] == lines[i + 1..];
      if Trim(lines[i]) == SEPARATOR {
        statements := statements + Flushed(current);
        current := "";
      } else {
        current := current + lines[i] + "\n";
      }
      i := i + 1;
    }
    statements := statements + Flushed(current);
  }

  /** A file that holds these statements, a separator line between any two. */
  function Join(statements: seq<string>): string
    requires statements != []
  {
    if |statements| == 1 then statements[0]
    else statements[0] + "\n" + SEPARATOR + "\n" + Join(statements[1..])
  }

  /** What can be written as one statement: not blank, trimmed, without a line that
      reads as a separator, and with lines that end in a newline alone. */
  predicate Writable(statement: string) {
    && statement != "" && Trimmed(statement) && NoCrLf(statement)
    && forall line :: line in Lines(statement) ==> Trim(line) != SEPARATOR
  }

  /** Lines without a separator are collected as they are. */
  lemma {:induction false} Collects(current: string, lines: seq<string>, rest: seq<string>)
    requires forall line :: line in lines ==> Trim(line) != SEPARATOR
    ensures SplitFrom(current, lines + rest) == SplitFrom(current + Rejoined(lines), rest)
    decreases lines
  {
    if lines == [] {
      assert lines + rest == rest && current + "" == current;
    } else {
      assert (lines + rest)[1..] == lines[1..] + rest;
      Collects(current + lines[0] + "\n", lines[1..], rest);
      assert current + lines[0] + "\n" + Rejoined(lines[1..]) == current + Rejoined(lines);
    }
  }

  lemma StatementCollected(statement: string, rest: seq<string>)
    requires Writable(statement)
    ensures SplitFrom("", Lines(statement) + rest) == SplitFrom(statement + "\n", rest)
    ensures Flushed(statement + "\n") == [statement]
  {
    Collects("", Lines(statement), rest);
    RejoinedLines(statement);
    assert "" + (statement + "\n") == statement + "\n";
    TrimOfTrimmed(statement);
  }

  lemma SeparatorLine()
    ensures Lines(SEPARATOR) == [SEPARATOR] && Trim(SEPARATOR) == SEPARATOR
  {
    hide Lines, Trim;
    assert SEPARATOR[0] == '-' && SEPARATOR[|SEPARATOR| - 1] == 't';
    TrimOfTrimmed(SEPARATOR);
    OneLine(SEPARATOR);
  }

  lemma {:induction false} JoinHasNoCrLf(statements: seq<string>)
    requires statements != [] && forall s :: s in statements ==> Writable(s)
    ensures NoCrLf(Join(statements))
    decreases statements
  {
    hide NoCrLf, Lines;
    assert statements[0] in statements;
    if |statements| > 1 {
      var first, others := statements[0], Join(statements[1..]);
      JoinHasNoCrLf(statements[1..]);
      NewlineOnly();
      NoCrLfAppend(first, "\n" + SEPARATOR + "\n");
      NoCrLfAppend(first + ("\n" + SEPARATOR + "\n"), others);
      assert first + ("\n" + SEPARATOR + "\n") + others == Join(statements);
    }
  }

  lemma NewlineOnly()
    ensures NoCrLf("\n" + SEPARATOR + "\n")
  {
    var text := "\n" + SEPARATOR + "\n";
    assert forall c :: c in text ==> c != '\r';
    assert forall i :: 0 <= i < |text| ==> text[i] in text;
  }

  /** The round trip: a file written from statements, with either line end, splits into
      them again. */
  lemma SplitOfFile(statements: seq<string>, file: string)
    requires statements != [] && forall s :: s in statements ==> Writable(s)
    requires file == Join(statements) || file == WithCrLf(Join(statements))
    ensures SplitFrom("", Lines(ReplaceCrLf(file))) == statements
  {
    hide Writable;
    JoinHasNoCrLf(statements);
    ReplaceNothing(Join(statements));
    ReplaceOfWith(Join(statements));
    SplitOfJoin(statements);
  }

  lemma {:induction false} SplitOfJoin(statements: seq<string>)
    requires statements != [] && forall s :: s in statements ==> Writable(s)
    ensures SplitFrom("", Lines(Join(statements))) == statements
    decreases statements
  {
    hide Writable, Trim, Lines, SplitFrom, Flushed;
    var first := statements[0];
    if |statements| == 1 {
      LastStatement(first);
    } else {
      var others := Join(statements[1..]);
      SplitOfJoin(statements[1..]);
      SeparatorLine();
      LinesAppend(first + "\n" + SEPARATOR, others);
      LinesAppend(first, SEPARATOR);
      Associative(Lines(first), [SEPARATOR], Lines(others));
      SplitAtSeparator(first, Lines(others));
    }
  }

  lemma LastStatement(statement: string)
    requires Writable(statement)
    ensures SplitFrom("", Lines(statement)) == [statement]
  {
    hide Writable, Trim, Lines;
    StatementCollected(statement, []);
    assert Lines(statement) + [] == Lines(statement);
  }

  lemma SplitAtSeparator(statement: string, rest: seq<string>)
    requires Writable(statement)
    ensures SplitFrom("", Lines(statement) + ([SEPARATOR] + rest)) == [statement] + SplitFrom("", rest)
  {
    hide Writable, Trim, Lines;
    SeparatorLine();
    StatementCollected(statement, [SEPARATOR] + rest);
    assert ([SEPARATOR] + rest)[1..] == rest;
  }
}
