/**
  What cleaning a migration list and splitting a file keep (migrate/migration.go,
  migrate/source.go), said without the functions that do it.
  */
module MigrationText {
  import opened Sequences
  import opened WhiteSpace
  import opened TextLines
  import opened Migrate
  import opened MigrationList
  import StatementFiles

  predicate Blank(s: string) {
    forall c :: c in s ==> IsSpace(c)
  }

  /** The text without the white space around it. */
  ghost predicate Stripped(s: string, t: string) {
    Trimmed(t) && exists before, after :: Blank(before) && Blank(after) && s == before + (t + after)
  }

  lemma {:induction false} TrimLeftStrips(s: string) returns (before: string)
    ensures Blank(before) && s == before + TrimLeft(s)
    decreases |s|
  {
    before := "";
    if s != "" && IsSpace(s[0]) {
      before := TrimLeftStrips(s[1..]);
      before := [s[0]] + before;
      assert s == [s[0]] + s[1..];
    }
  }

  lemma {:induction false} TrimRightStrips(s: string) returns (after: string)
    ensures Blank(after) && s == TrimRight(s) + after
    decreases |s|
  {
    after := "";
    if s != "" && IsSpace(s[|s| - 1]) {
      after := TrimRightStrips(s[..|s| - 1]);
      after := after + [s[|s| - 1]];
      assert s == s[..|s| - 1] + [s[|s| - 1]];
    }
  }

  lemma TrimStrips(s: string)
    ensures Stripped(s, Trim(s))
  {
    hide TrimLeft, TrimRight, Trimmed, Blank;
    TrimIsTrimmed(s);
    var before := TrimLeftStrips(s);
    var after := TrimRightStrips(TrimLeft(s));
  }

  lemma BlankAround(s: string, t: string)
    requires Stripped(s, t)
    ensures t == "" <==> Blank(s)
  {
    var before, after :| Blank(before) && Blank(after) && s == before + (t + after);
    if t != "" {
      assert s[|before|] == t[0];
    }
  }

  // ----- cleaning statements

  /** These are the statements at the kept places, stripped, in their order; all others
      are blank. */
  ghost predicate KeptAt(statements: seq<Statement>, cleaned: seq<Statement>, kept: seq<nat>) {
    && |kept| == |cleaned|
    && (forall i, j :: 0 <= i < j < |kept| ==> kept[i] < kept[j])
    && (forall i :: 0 <= i < |kept| ==> kept[i] < |statements| && Stripped(statements[kept[i]], cleaned[i]) && cleaned[i] != "")
    && (forall j :: 0 <= j < |statements| && j !in kept ==> Blank(statements[j]))
  }

  ghost predicate IsCleaned(statements: seq<Statement>, cleaned: seq<Statement>) {
    exists kept :: KeptAt(statements, cleaned, kept)
  }

  lemma {:induction false} CleanKeeps(statements: seq<Statement>)
    ensures IsCleaned(statements, Clean(statements))
  {
    hide Stripped, Blank, Clean, Trim;
    if statements == [] {
      NothingCleaned();
      assert KeptAt([], [], []);
    } else {
      var n := |statements| - 1;
      CleanKeeps(statements[..n]);
      var kept :| KeptAt(statements[..n], Clean(statements[..n]), kept);
      TrimStrips(statements[n]);
      BlankAround(statements[n], Trim(statements[n]));
      CleanNext(statements);
      if Trim(statements[n]) != "" {
        KeepOneMore(statements, Clean(statements[..n]), kept);
      } else {
        DropOne(statements, Clean(statements[..n]), kept);
      }
    }
  }

  lemma DropOne(statements: seq<Statement>, cleaned: seq<Statement>, kept: seq<nat>)
    requires statements != [] && KeptAt(statements[..|statements| - 1], cleaned, kept) && Blank(statements[|statements| - 1])
    ensures KeptAt(statements, cleaned, kept)
  {
    hide Stripped, Blank;
    var n := |statements| - 1;
    assert forall j :: 0 <= j < n ==> statements[..n][j] == statements[j];
  }

  lemma CleanNext(statements: seq<Statement>)
    requires statements != []
    ensures var n := |statements| - 1;
            Clean(statements) == if Trim(statements[n]) != "" then Clean(statements[..n]) + [Trim(statements[n])] else Clean(statements[..n])
  {
  }

  lemma KeepOneMore(statements: seq<Statement>, cleaned: seq<Statement>, kept: seq<nat>)
    requires statements != [] && KeptAt(statements[..|statements| - 1], cleaned, kept)
    requires var last := statements[|statements| - 1]; Trim(last) != "" && Stripped(last, Trim(last))
    ensures KeptAt(statements, cleaned + [Trim(statements[|statements| - 1])], kept + [|statements| - 1])
  {
    hide Stripped, Blank, Trim;
    var n := |statements| - 1;
    assert forall j :: 0 <= j < n ==> statements[..n][j] == statements[j];
    assert forall j :: j in kept + [n] <==> j in kept || j == n;
  }

  // ----- the validated list

  /** What validation makes of a migration: its version, and everything else stripped and
      without blank statements. */
  ghost predicate Prepared(m: Migration, to: Migration) {
    && to.version == m.version && Stripped(m.name, to.name)
    && IsCleaned(m.up, to.up) && IsCleaned(m.down, to.down)
  }

  lemma CleanedIsPrepared(m: Migration)
    ensures Prepared(m, Cleaned(m))
  {
    TrimStrips(m.name);
    CleanKeeps(m.up);
    CleanKeeps(m.down);
  }

  /** An accepted list, prepared: as many migrations, each prepared from one given, each
      given one prepared, in strictly ascending order of their versions. */
  lemma AcceptedIsPrepared(migrations: seq<Migration>)
    requires Acceptable(migrations)
    ensures var list := AllCleaned(Sort(migrations));
            && Ascending(list) && |list| == |migrations|
            && (forall i :: 0 <= i < |list| ==> PreparedFrom(migrations, list[i]))
            && (forall m :: m in migrations ==> PreparedIn(m, list))
  {
    hide *;
    var ms := Sort(migrations);
    SortedIsSame(migrations);
    ListIsPrepared(ms);
    forall i | 0 <= i < |AllCleaned(ms)| ensures PreparedFrom(migrations, AllCleaned(ms)[i]) {
      FoundFrom(migrations, ms[i], AllCleaned(ms)[i]);
    }
    forall m | m in migrations ensures PreparedIn(m, AllCleaned(ms)) {
      var i :| 0 <= i < |ms| && ms[i] == m;
      FoundIn(m, AllCleaned(ms), i);
    }
  }

  ghost predicate PreparedFrom(migrations: seq<Migration>, to: Migration) {
    exists m :: m in migrations && Prepared(m, to)
  }

  ghost predicate PreparedIn(m: Migration, list: seq<Migration>) {
    exists i :: 0 <= i < |list| && Prepared(m, list[i])
  }

  lemma FoundFrom(migrations: seq<Migration>, m: Migration, to: Migration)
    requires m in migrations && Prepared(m, to)
    ensures PreparedFrom(migrations, to)
  {
  }

  lemma FoundIn(m: Migration, list: seq<Migration>, i: nat)
    requires i < |list| && Prepared(m, list[i])
    ensures PreparedIn(m, list)
  {
  }

  lemma SortedIsSame(migrations: seq<Migration>)
    requires Acceptable(migrations)
    ensures var ms := Sort(migrations); Ascending(AllCleaned(ms)) && |ms| == |migrations| && forall m :: m in ms <==> m in migrations
  {
    hide Sort, Acceptable, AllCleaned, VersionsOf, SoundUpTo;
    SoundMeansAcceptable(migrations);
    SortIsPermutation(migrations);
    SameElements(Sort(migrations), migrations);
    SameLength(Sort(migrations), migrations);
    AllSoundUpTo(migrations);
  }

  lemma AllSoundUpTo(migrations: seq<Migration>)
    requires Acceptable(migrations)
    ensures SoundUpTo(Sort(migrations), |Sort(migrations)|)
  {
    hide Sort, Acceptable, AllCleaned, SoundUpTo;
    SoundMeansAcceptable(migrations);
  }

  lemma SameLength(a: seq<Migration>, b: seq<Migration>)
    requires multiset(a) == multiset(b)
    ensures |a| == |b|
  {
    assert |multiset(a)| == |multiset(b)|;
  }

  lemma ListIsPrepared(ms: seq<Migration>)
    ensures forall i :: 0 <= i < |ms| ==> Prepared(ms[i], AllCleaned(ms)[i])
  {
    hide Prepared, Cleaned;
    forall i | 0 <= i < |ms| ensures Prepared(ms[i], AllCleaned(ms)[i]) {
      CleanedIsPrepared(ms[i]);
    }
  }

  /** A list is accepted exactly when no version is there twice or not positive, every
      migration has a name, and in both directions a statement that is not blank. */
  lemma AcceptedExactly(migrations: seq<Migration>)
    ensures Acceptable(migrations) <==>
            && (forall i, j :: 0 <= i < j < |migrations| ==> migrations[i].version != migrations[j].version)
            && forall m :: m in migrations ==>
                 && m.version > 0 && !Blank(m.name)
                 && (exists s :: s in m.up && !Blank(s)) && exists s :: s in m.down && !Blank(s)
  {
    hide Sound, Blank;
    DistinctExactly(migrations);
    forall m | m in migrations
      ensures Sound(m) <==> m.version > 0 && !Blank(m.name)
                            && (exists s :: s in m.up && !Blank(s)) && exists s :: s in m.down && !Blank(s)
    {
      SoundExactly(m);
    }
  }

  lemma SoundExactly(m: Migration)
    ensures Sound(m) <==>
            && m.version > 0 && !Blank(m.name)
            && (exists s :: s in m.up && !Blank(s)) && exists s :: s in m.down && !Blank(s)
  {
    hide Clean, Trim, Blank, Stripped;
    TrimStrips(m.name);
    BlankAround(m.name, Trim(m.name));
    SomethingKept(m.up);
    SomethingKept(m.down);
  }

  lemma SomethingKept(statements: seq<Statement>)
    ensures Clean(statements) != [] <==> exists s :: s in statements && !Blank(s)
  {
    hide Clean, Blank, Stripped;
    CleanKeeps(statements);
    var kept :| KeptAt(statements, Clean(statements), kept);
    if kept != [] {
      BlankAround(statements[kept[0]], Clean(statements)[0]);
      assert statements[kept[0]] in statements;
    } else {
      forall s | s in statements ensures Blank(s) {
        var j :| 0 <= j < |statements| && statements[j] == s;
      }
    }
  }

  lemma {:induction false} DistinctExactly(ms: seq<Migration>)
    ensures (forall v :: multiset(VersionsOf(ms))[v] <= 1) <==>
            forall i, j :: 0 <= i < j < |ms| ==> ms[i].version != ms[j].version
  {
    var versions := VersionsOf(ms);
    if i, j :| 0 <= i < j < |ms| && ms[i].version == ms[j].version {
      OccursTwice(versions, i, j);
      assert multiset(versions)[versions[i]] >= 2;
    } else {
      forall v ensures multiset(versions)[v] <= 1 {
        AtMostOnce(versions, v);
      }
    }
  }

  lemma {:induction false} AtMostOnce(s: seq<Version>, v: Version)
    requires forall i, j :: 0 <= i < j < |s| ==> s[i] != s[j]
    ensures multiset(s)[v] <= 1
  {
    if s != [] {
      var rest, last := s[..|s| - 1], s[|s| - 1];
      AtMostOnce(rest, v);
      assert s == rest + [last];
      assert multiset(s) == multiset(rest) + multiset{last};
      if v == last {
        assert v !in rest;
      }
    }
  }

  // ----- a migration file

  /** Text without a line that reads as a separator. */
  predicate Section(s: string) {
    forall line :: line in Lines(s) ==> Trim(line) != StatementFiles.SEPARATOR
  }

  /** A line that reads as a separator. */
  predicate Divides(line: string) {
    '\n' !in line && Trim(line) == StatementFiles.SEPARATOR
  }

  /** Sections with a separator line between any two. */
  function Divided(sections: seq<string>, lines: seq<string>): string
    requires |sections| == |lines| + 1
  {
    if lines == [] then sections[0] else sections[0] + "\n" + (lines[0] + "\n" + Divided(sections[1..], lines[1..]))
  }

  lemma TrimRightNewline(s: string)
    ensures TrimRight(s + "\n") == TrimRight(s)
  {
    assert (s + "\n")[..|s|] == s;
  }

  lemma {:induction false} TrimLeftNewline(s: string)
    ensures TrimLeft(s + "\n") == if TrimLeft(s) == "" then "" else TrimLeft(s) + "\n"
    decreases |s|
  {
    if s == "" {
      assert s + "\n" == "\n" && "\n"[1..] == "";
    } else if IsSpace(s[0]) {
      assert (s + "\n")[1..] == s[1..] + "\n";
      TrimLeftNewline(s[1..]);
    }
  }

  lemma TrimWithNewline(s: string)
    ensures Trim(s + "\n") == Trim(s)
  {
    TrimLeftNewline(s);
    TrimRightNewline(TrimLeft(s));
  }

  lemma {:induction false} CleanFromFront(first: Statement, rest: seq<Statement>)
    ensures Clean([first] + rest) == (if Trim(first) != "" then [Trim(first)] else []) + Clean(rest)
    decreases |rest|
  {
    hide Trim;
    if rest == [] {
      assert [first] + rest == [first] && [first][..0] == [];
    } else {
      var n := |rest| - 1;
      assert ([first] + rest)[..n + 1] == [first] + rest[..n];
      CleanFromFront(first, rest[..n]);
    }
  }

  lemma SectionCollected(section: string, rest: seq<string>)
    requires Section(section)
    ensures StatementFiles.SplitFrom("", Lines(section) + rest) == StatementFiles.SplitFrom(section + "\n", rest)
    ensures StatementFiles.Flushed(section + "\n") == if Trim(section) != "" then [Trim(section)] else []
  {
    hide Trim, Lines;
    StatementFiles.Collects("", Lines(section), rest);
    RejoinedLines(section);
    assert "" + (section + "\n") == section + "\n";
    TrimWithNewline(section);
  }

  /** The file, whatever its sections and separator lines: the statements are the sections,
      stripped, without the blank ones. */
  lemma {:induction false} SplitIsCleanedSections(sections: seq<string>, lines: seq<string>)
    requires |sections| == |lines| + 1
    requires (forall s :: s in sections ==> Section(s)) && forall line :: line in lines ==> Divides(line)
    ensures StatementFiles.SplitFrom("", Lines(Divided(sections, lines))) == Clean(sections)
    ensures IsCleaned(sections, StatementFiles.SplitFrom("", Lines(Divided(sections, lines))))
    decreases |lines|
  {
    hide Section, Divides, Trim, Lines, StatementFiles.SplitFrom, StatementFiles.Flushed, Clean, IsCleaned;
    CleanKeeps(sections);
    var first, rest := sections[0], sections[1..];
    assert sections == [first] + rest;
    CleanFromFront(first, rest);
    if lines == [] {
      assert rest == [];
      NothingCleaned();
      SectionCollected(first, []);
      NothingLeft(first);
      assert Lines(first) + [] == Lines(first);
    } else {
      var others := Divided(rest, lines[1..]);
      SplitIsCleanedSections(rest, lines[1..]);
      LineOf(lines[0]);
      LinesAppend(first, lines[0] + "\n" + others);
      LinesAppend(lines[0], others);
      SectionCollected(first, [lines[0]] + Lines(others));
      DividedHere(first, lines[0], Lines(others));
    }
  }

  lemma NothingCleaned()
    ensures Clean([]) == []
  {
  }

  lemma NothingLeft(section: string)
    ensures StatementFiles.SplitFrom(section + "\n", []) == StatementFiles.Flushed(section + "\n")
  {
  }

  lemma LineOf(line: string)
    requires Divides(line)
    ensures Lines(line) == [line]
  {
    OneLine(line);
  }

  lemma DividedHere(section: string, line: string, rest: seq<string>)
    requires Divides(line)
    ensures StatementFiles.SplitFrom(section + "\n", [line] + rest) ==
            StatementFiles.Flushed(section + "\n") + StatementFiles.SplitFrom("", rest)
  {
    assert ([line] + rest)[1..] == rest;
  }
}
