/**
  Which error of a tree decides (database/errors.go), said by its place in the tree rather
  than by a traversal.
  */
module ClassifierPlaces {
  import opened Wrappers
  import opened Classifier

  /** The way from an error to one inside it: at each error, which of those it wraps. */
  type Place = seq<nat>

  function At(err: Option<Error>, place: Place): Option<Error>
    decreases |place|
  {
    if err.None? || place == [] then err
    else
      match err.value.unwrap
      case Leaf => None
      case One(inner) => if place[0] == 0 then At(inner, place[1..]) else None
      case Many(branches) => AtBranch(branches, place)
  }

  function AtBranch(branches: seq<Option<Error>>, place: Place): Option<Error>
    requires place != []
    decreases |place|, 0
  {
    if place[0] < |branches| then At(branches[place[0]], place[1..]) else None
  }

  /** An error comes before those it wraps, and those in one branch before those in the
      next. */
  predicate Earlier(a: Place, b: Place) {
    b != [] && (a == [] || a[0] < b[0] || (a[0] == b[0] && Earlier(a[1..], b[1..])))
  }

  /** The first place at which the recognizer hits is this one. */
  ghost predicate HitsFirst(err: Option<Error>, recognize: Recognizer, place: Place, hit: ErrorClass) {
    && At(err, place).Some? && recognize(At(err, place).value) == Some(hit)
    && forall p :: Earlier(p, place) && At(err, p).Some? ==> recognize(At(err, p).value).None?
  }

  ghost predicate HitsFirstIn(branches: seq<Option<Error>>, recognize: Recognizer, place: Place, hit: ErrorClass) {
    && place != [] && AtBranch(branches, place).Some? && recognize(AtBranch(branches, place).value) == Some(hit)
    && forall p :: p != [] && Earlier(p, place) && AtBranch(branches, p).Some? ==> recognize(AtBranch(branches, p).value).None?
  }

  ghost predicate HitsNowhere(err: Option<Error>, recognize: Recognizer) {
    forall p :: At(err, p).Some? ==> recognize(At(err, p).value).None?
  }

  ghost predicate HitsNowhereIn(branches: seq<Option<Error>>, recognize: Recognizer) {
    forall p :: p != [] && AtBranch(branches, p).Some? ==> recognize(AtBranch(branches, p).value).None?
  }

  /** The traversal finds the first place in that order, over every tree. */
  lemma {:induction false} FirstHitIsFirstPlace(err: Option<Error>, recognize: Recognizer) returns (place: Place)
    ensures match FirstHit(PreOrder(err), recognize)
            case Some(hit) => HitsFirst(err, recognize, place, hit)
            case None => HitsNowhere(err, recognize)
    decreases err, 1
  {
    place := [];
    if err.Some? {
      FirstOfTree(err.value, recognize);
      if recognize(err.value).None? {
        match err.value.unwrap
        case Leaf =>
        case One(inner) =>
          var p := FirstHitIsFirstPlace(inner, recognize);
          InOne(err.value, inner, recognize, p);
          place := [0] + p;
        case Many(branches) =>
          place := FirstHitIsFirstBranch(branches, recognize);
          InMany(err.value, branches, recognize, place);
      }
    }
  }

  lemma {:induction false} FirstHitIsFirstBranch(branches: seq<Option<Error>>, recognize: Recognizer) returns (place: Place)
    ensures match FirstHit(PreOrders(branches), recognize)
            case Some(hit) => HitsFirstIn(branches, recognize, place, hit)
            case None => HitsNowhereIn(branches, recognize)
    decreases branches, 1
  {
    place := [];
    if branches != [] {
      FirstHitAppend(PreOrder(branches[0]), PreOrders(branches[1..]), recognize);
      var p := FirstHitIsFirstPlace(branches[0], recognize);
      if FirstHit(PreOrder(branches[0]), recognize).Some? {
        place := [0] + p;
        InFirstBranch(branches, recognize, p, FirstHit(PreOrder(branches[0]), recognize).value);
      } else {
        var q := FirstHitIsFirstBranch(branches[1..], recognize);
        if FirstHit(PreOrders(branches[1..]), recognize).Some? {
          place := [q[0] + 1] + q[1..];
          InLaterBranch(branches, recognize, q, FirstHit(PreOrders(branches[1..]), recognize).value);
        } else {
          InNoBranch(branches, recognize);
        }
      }
    }
  }

  lemma InOne(err: Error, inner: Option<Error>, recognize: Recognizer, place: Place)
    requires err.unwrap == One(inner) && recognize(err).None?
    ensures HitsNowhere(inner, recognize) ==> HitsNowhere(Some(err), recognize)
    ensures forall hit :: HitsFirst(inner, recognize, place, hit) ==> HitsFirst(Some(err), recognize, [0] + place, hit)
  {
    assert ([0] + place)[1..] == place;
    forall p | p != [] && At(Some(err), p).Some? ensures p[0] == 0 && At(Some(err), p) == At(inner, p[1..]) {
    }
    forall p | Earlier(p, [0] + place) ensures p == [] || (p[0] == 0 && Earlier(p[1..], place)) {
    }
  }

  lemma InMany(err: Error, branches: seq<Option<Error>>, recognize: Recognizer, place: Place)
    requires err.unwrap == Many(branches) && recognize(err).None?
    ensures HitsNowhereIn(branches, recognize) ==> HitsNowhere(Some(err), recognize)
    ensures forall hit :: HitsFirstIn(branches, recognize, place, hit) ==> HitsFirst(Some(err), recognize, place, hit)
  {
    forall p: Place | p != [] ensures At(Some(err), p) == AtBranch(branches, p) {
    }
  }

  lemma InFirstBranch(branches: seq<Option<Error>>, recognize: Recognizer, place: Place, hit: ErrorClass)
    requires branches != [] && HitsFirst(branches[0], recognize, place, hit)
    ensures HitsFirstIn(branches, recognize, [0] + place, hit)
  {
    assert ([0] + place)[1..] == place;
    forall p | p != [] && Earlier(p, [0] + place) && AtBranch(branches, p).Some?
      ensures recognize(AtBranch(branches, p).value).None?
    {
      assert p[0] == 0 && Earlier(p[1..], place);
    }
  }

  lemma InLaterBranch(branches: seq<Option<Error>>, recognize: Recognizer, place: Place, hit: ErrorClass)
    requires branches != [] && HitsNowhere(branches[0], recognize) && HitsFirstIn(branches[1..], recognize, place, hit)
    ensures HitsFirstIn(branches, recognize, [place[0] + 1] + place[1..], hit)
  {
    var moved := [place[0] + 1] + place[1..];
    assert moved[1..] == place[1..];
    forall p | p != [] && Earlier(p, moved) && AtBranch(branches, p).Some? ensures recognize(AtBranch(branches, p).value).None? {
      if p[0] > 0 {
        var back := [p[0] - 1] + p[1..];
        assert back[1..] == p[1..];
        assert AtBranch(branches[1..], back) == AtBranch(branches, p);
        assert Earlier(back, place);
      }
    }
  }

  lemma InNoBranch(branches: seq<Option<Error>>, recognize: Recognizer)
    requires branches != [] && HitsNowhere(branches[0], recognize) && HitsNowhereIn(branches[1..], recognize)
    ensures HitsNowhereIn(branches, recognize)
  {
    forall p | p != [] && AtBranch(branches, p).Some? ensures recognize(AtBranch(branches, p).value).None? {
      if p[0] > 0 {
        var back := [p[0] - 1] + p[1..];
        assert back[1..] == p[1..];
        assert AtBranch(branches[1..], back) == AtBranch(branches, p);
      }
    }
  }

  // ----- a classifier

  /** Recognizer i decides, from this place: no recognizer before it hits anywhere. */
  ghost predicate Decides(recognizers: seq<Recognizer>, err: Option<Error>, i: nat, place: Place, hit: ErrorClass)
    requires i < |recognizers|
  {
    && HitsFirst(err, recognizers[i], place, hit)
    && forall h :: 0 <= h < i ==> HitsNowhere(err, recognizers[h])
  }

  /** What a classifier says of any error, by any recognizers: the first of them that hits
      anywhere decides, from the first place at which it hits; and none does exactly when
      none hits anywhere. */
  lemma {:induction false} FirstRecognizerDecides(recognizers: seq<Recognizer>, err: Option<Error>)
    returns (i: nat, place: Place)
    ensures match FirstOf(recognizers, err)
            case Some(hit) => i < |recognizers| && Decides(recognizers, err, i, place, hit)
            case None => forall h :: 0 <= h < |recognizers| ==> HitsNowhere(err, recognizers[h])
    decreases |recognizers|
  {
    i, place := 0, [];
    if recognizers != [] {
      hide FirstHit, HitsFirst, HitsNowhere;
      place := FirstHitIsFirstPlace(err, recognizers[0]);
      if FirstHit(PreOrder(err), recognizers[0]).None? {
        var j, p := FirstRecognizerDecides(recognizers[1..], err);
        i, place := j + 1, p;
        assert forall h :: 0 < h < |recognizers| ==> recognizers[h] == recognizers[1..][h - 1];
      }
    }
  }

  /** When no given recognizer hits, the built-in ones decide. */
  lemma {:induction false} BuiltInsDecideOtherwise(given: seq<Option<Recognizer>>, err: Option<Error>)
    requires forall i :: 0 <= i < |given| && given[i].Some? ==> HitsNowhere(err, given[i].value)
    ensures FirstOf(Combined(given), err) == FirstOf(BUILTIN, err)
    decreases |given|
  {
    if given != [] {
      BuiltInsDecideOtherwise(given[1..], err);
      if given[0].Some? {
        hide FirstHit, HitsNowhere;
        var rest := Combined(given[1..]);
        assert ([given[0].value] + rest)[1..] == rest;
        NowhereMeansNoHit(err, given[0].value);
      } else {
        assert [] + Combined(given[1..]) == Combined(given[1..]);
      }
    }
  }

  lemma NowhereMeansNoHit(err: Option<Error>, recognize: Recognizer)
    requires HitsNowhere(err, recognize)
    ensures FirstHit(PreOrder(err), recognize).None?
  {
    var place := FirstHitIsFirstPlace(err, recognize);
  }

  // ----- the built-in recognizers

  ghost predicate Claimed(err: Error, class_: ErrorClass) {
    exists p :: At(Some(err), p).Some? && class_ in At(Some(err), p).value.facts.claims
  }

  /** A sentinel is found exactly when some error of the tree claims it. */
  lemma SentinelIsSomewhere(err: Error, class_: ErrorClass)
    ensures Is(err, class_) <==> Claimed(err, class_)
  {
    var claims: Recognizer := (e: Error) => if class_ in e.facts.claims then Some(class_) else None;
    var place := FirstHitIsFirstPlace(Some(err), claims);
    var errors := PreOrder(Some(err));
    if Is(err, class_) {
      var k :| 0 <= k < |errors| && class_ in errors[k].facts.claims;
      assert claims(errors[k]).Some?;
      if FirstHit(errors, claims).None? {
        NoneMeansNone(errors, claims);
      }
      assert claims(At(Some(err), place).value).Some?;
    } else {
      NoHit(errors, claims);
      forall p | At(Some(err), p).Some? ensures class_ !in At(Some(err), p).value.facts.claims {
        assert claims(At(Some(err), p).value).None?;
      }
    }
  }

  lemma {:induction false} NoneMeansNone(errors: seq<Error>, recognize: Recognizer)
    requires FirstHit(errors, recognize).None?
    ensures forall i :: 0 <= i < |errors| ==> recognize(errors[i]).None?
    decreases |errors|
  {
    if errors != [] {
      NoneMeansNone(errors[1..], recognize);
      assert forall i :: 0 < i < |errors| ==> errors[i] == errors[1..][i - 1];
    }
  }

  /** The SQLSTATEs of a class. */
  function StatesOf(class_: ErrorClass): set<string> {
    match class_
    case Unknown => {}
    case UniqueViolation => {"23505"}
    case ExclusionViolation => {"23P01"}
    case ForeignKeyViolation => {"23503"}
    case NotNullViolation => {"23502"}
    case CheckViolation => {"23514"}
    case Deadlock => {"40P01"}
    case SerializationFailure => {"40001"}
    case LockTimeout => {"55P03"}
  }

  /** The extended SQLite codes of a class: the low byte is the primary code, 19 for a
      constraint, 5 for busy and 6 for locked; and these are the details. */
  function DetailsOf(class_: ErrorClass, primary: int): set<int> {
    match class_
    case UniqueViolation => if primary == 19 then {8, 6, 10} else {}
    case ForeignKeyViolation => if primary == 19 then {3} else {}
    case NotNullViolation => if primary == 19 then {5} else {}
    case CheckViolation => if primary == 19 then {1, 7} else {}
    case SerializationFailure => if primary == 5 then {2} else {}
    case LockTimeout => if primary == 5 then {0, 1, 3} else if primary == 6 then {0, 1, 2} else {}
    case _ => {}
  }

  lemma StatesExactly(state: string, class_: ErrorClass)
    ensures ClassOfState(state) == Some(class_) <==> state in StatesOf(class_)
  {
  }

  lemma CodesExactly(code: int, class_: ErrorClass)
    ensures ClassOfCode(code) == Some(class_) <==> code / 256 in DetailsOf(class_, code % 256)
  {
  }

  /** The order in which classes are asked for: that of their declaration. */
  function Rank(class_: ErrorClass): nat {
    match class_
    case Unknown => 0
    case UniqueViolation => 1
    case ExclusionViolation => 2
    case ForeignKeyViolation => 3
    case NotNullViolation => 4
    case CheckViolation => 5
    case Deadlock => 6
    case SerializationFailure => 7
    case LockTimeout => 8
  }

  /** A sentinel decides exactly when some error of the tree claims its class and none
      claims one before it. */
  lemma SentinelExactly(err: Error, class_: ErrorClass)
    ensures RecognizeSentinel(err) == Some(class_) <==>
            && class_ != Unknown && Claimed(err, class_)
            && forall d :: 0 < Rank(d) < Rank(class_) ==> !Claimed(err, d)
  {
    forall d: ErrorClass ensures Is(err, d) <==> Claimed(err, d) {
      SentinelIsSomewhere(err, d);
    }
    hide Is, Claimed, FirstClaimed;
    var i := FirstClaimedIs(SENTINELS, err);
    RanksOfSentinels();
  }

  lemma RanksOfSentinels()
    ensures |SENTINELS| == 8 && (forall i :: 0 <= i < 8 ==> Rank(SENTINELS[i]) == i + 1)
    ensures forall d: ErrorClass :: d != Unknown ==> 0 < Rank(d) <= 8 && SENTINELS[Rank(d) - 1] == d
  {
  }

  lemma {:induction false} FirstClaimedIs(classes: seq<ErrorClass>, err: Error) returns (i: nat)
    ensures match FirstClaimed(classes, err)
            case Some(c) => i < |classes| && classes[i] == c && Is(err, c) && forall j :: 0 <= j < i ==> !Is(err, classes[j])
            case None => forall j :: 0 <= j < |classes| ==> !Is(err, classes[j])
    decreases |classes|
  {
    hide Is;
    i := 0;
    if classes != [] && !Is(err, classes[0]) {
      i := FirstClaimedIs(classes[1..], err);
      i := i + 1;
      assert forall j :: 0 < j < |classes| ==> classes[j] == classes[1..][j - 1];
    }
  }

  /** A SQLite code decides exactly when the message is one of SQLite's own. */
  lemma SQLiteExactly(err: Error, class_: ErrorClass)
    ensures RecognizeSQLiteCode(err) == Some(class_) <==>
            && err.facts.code.Some? && err.facts.code.value / 256 in DetailsOf(class_, err.facts.code.value % 256)
            && exists part :: part in {"constraint failed", "database is locked", "database table is locked", "SQLITE_"}
                              && Mentions(err.facts.message, part)
  {
    var message := err.facts.message;
    MentionsExactly(message, "constraint failed");
    MentionsExactly(message, "database is locked");
    MentionsExactly(message, "database table is locked");
    MentionsExactly(message, "SQLITE_");
    if err.facts.code.Some? {
      CodesExactly(err.facts.code.value, class_);
    }
    hide After, Mentions, ClassOfCode, DetailsOf;
  }

  // ----- messages

  ghost predicate Mentions(message: string, part: string) {
    exists i :: PartAt(message, part, i)
  }

  lemma MentionsExactly(message: string, part: string)
    ensures Contains(message, part) <==> Mentions(message, part)
  {
    var i := AfterExactly(message, part);
  }

  /** The first mention of a MySQL error number, which is not the start of a longer one. */
  ghost predicate Announces(message: string, number: string) {
    exists i :: PartAt(message, "Error " + number, i) && (forall j :: 0 <= j < i ==> !PartAt(message, "Error " + number, j))
                && Delimited(message, i + |"Error " + number|)
  }

  predicate Delimited(message: string, at: int) {
    PartAt(message, " (", at) || PartAt(message, ":", at)
  }

  lemma AnnouncesExactly(message: string, number: string)
    ensures HasMySQLNumber(message, number) <==> Announces(message, number)
  {
    var part := "Error " + number;
    var i := AfterExactly(message, part);
    var rest := After(message, part);
    hide After;
    if rest.Some? {
      var at := i + |part|;
      assert rest.value == message[at..];
      PrefixIsPart(message, at, " (");
      PrefixIsPart(message, at, ":");
      forall k | PartAt(message, part, k) && (forall j :: 0 <= j < k ==> !PartAt(message, part, j)) ensures k == i {
      }
    }
  }

  lemma PrefixIsPart(message: string, at: int, part: string)
    requires 0 <= at <= |message|
    ensures part <= message[at..] <==> PartAt(message, part, at)
  {
    if |part| <= |message| - at {
      assert message[at..][..|part|] == message[at..at + |part|];
    }
  }

  /** MySQL's error numbers, and the phrases of SQLite's messages. */
  function Numbers(class_: ErrorClass): set<string> {
    match class_
    case UniqueViolation => {"1062"}
    case ForeignKeyViolation => {"1216", "1217", "1451", "1452"}
    case NotNullViolation => {"1048"}
    case CheckViolation => {"3819", "4025"}
    case Deadlock => {"1213"}
    case LockTimeout => {"1205"}
    case _ => {}
  }

  function Phrases(class_: ErrorClass): set<string> {
    match class_
    case UniqueViolation => {"UNIQUE constraint failed"}
    case ForeignKeyViolation => {"FOREIGN KEY constraint failed"}
    case NotNullViolation => {"NOT NULL constraint failed"}
    case CheckViolation => {"CHECK constraint failed"}
    case LockTimeout => {"database is locked", "database table is locked"}
    case _ => {}
  }

  ghost predicate ByNumber(message: string, class_: ErrorClass) {
    exists n :: n in Numbers(class_) && Announces(message, n)
  }

  ghost predicate ByPhrase(message: string, class_: ErrorClass) {
    exists p :: p in Phrases(class_) && Mentions(message, p)
  }

  lemma OneNumber(message: string, class_: ErrorClass, n: string)
    requires Numbers(class_) == {n}
    ensures ByNumber(message, class_) <==> HasMySQLNumber(message, n)
  {
    hide HasMySQLNumber, Announces, Numbers;
    AnnouncesExactly(message, n);
  }

  lemma TwoNumbers(message: string, class_: ErrorClass, n: string, m: string)
    requires Numbers(class_) == {n, m}
    ensures ByNumber(message, class_) <==> HasMySQLNumber(message, n) || HasMySQLNumber(message, m)
  {
    hide HasMySQLNumber, Announces, Numbers;
    AnnouncesExactly(message, n);
    AnnouncesExactly(message, m);
  }

  lemma FourNumbers(message: string, class_: ErrorClass, a: string, b: string, c: string, d: string)
    requires Numbers(class_) == {a, b, c, d}
    ensures ByNumber(message, class_) <==>
            HasMySQLNumber(message, a) || HasMySQLNumber(message, b) || HasMySQLNumber(message, c) || HasMySQLNumber(message, d)
  {
    hide HasMySQLNumber, Announces, Numbers;
    AnnouncesExactly(message, a);
    AnnouncesExactly(message, b);
    AnnouncesExactly(message, c);
    AnnouncesExactly(message, d);
  }

  lemma OnePhrase(message: string, class_: ErrorClass, p: string)
    requires Phrases(class_) == {p}
    ensures ByPhrase(message, class_) <==> Contains(message, p)
  {
    hide Contains, Mentions, Phrases;
    MentionsExactly(message, p);
  }

  lemma TwoPhrases(message: string, class_: ErrorClass, p: string, q: string)
    requires Phrases(class_) == {p, q}
    ensures ByPhrase(message, class_) <==> Contains(message, p) || Contains(message, q)
  {
    hide Contains, Mentions, Phrases;
    MentionsExactly(message, p);
    MentionsExactly(message, q);
  }

  lemma NoNumbers(message: string, class_: ErrorClass)
    requires Numbers(class_) == {}
    ensures !ByNumber(message, class_)
  {
  }

  lemma NoPhrases(message: string, class_: ErrorClass)
    requires Phrases(class_) == {}
    ensures !ByPhrase(message, class_)
  {
  }

  /** What the number recognizer asks for each class. */
  predicate Numbered(message: string, class_: ErrorClass) {
    match class_
    case UniqueViolation => HasMySQLNumber(message, "1062")
    case ForeignKeyViolation =>
      || HasMySQLNumber(message, "1452") || HasMySQLNumber(message, "1451")
      || HasMySQLNumber(message, "1216") || HasMySQLNumber(message, "1217")
    case NotNullViolation => HasMySQLNumber(message, "1048")
    case CheckViolation => HasMySQLNumber(message, "3819") || HasMySQLNumber(message, "4025")
    case Deadlock => HasMySQLNumber(message, "1213")
    case LockTimeout => HasMySQLNumber(message, "1205")
    case _ => false
  }

  predicate Phrased(message: string, class_: ErrorClass) {
    match class_
    case UniqueViolation => Contains(message, "UNIQUE constraint failed")
    case ForeignKeyViolation => Contains(message, "FOREIGN KEY constraint failed")
    case NotNullViolation => Contains(message, "NOT NULL constraint failed")
    case CheckViolation => Contains(message, "CHECK constraint failed")
    case LockTimeout => Contains(message, "database is locked") || Contains(message, "database table is locked")
    case _ => false
  }

  lemma NumbersExactly(message: string, class_: ErrorClass)
    ensures ByNumber(message, class_) <==> Numbered(message, class_)
  {
    hide HasMySQLNumber, ByNumber;
    match class_
    case UniqueViolation => OneNumber(message, class_, "1062");
    case ForeignKeyViolation => FourNumbers(message, class_, "1216", "1217", "1451", "1452");
    case NotNullViolation => OneNumber(message, class_, "1048");
    case CheckViolation => TwoNumbers(message, class_, "3819", "4025");
    case Deadlock => OneNumber(message, class_, "1213");
    case LockTimeout => OneNumber(message, class_, "1205");
    case _ => NoNumbers(message, class_);
  }

  lemma PhrasesExactly(message: string, class_: ErrorClass)
    ensures ByPhrase(message, class_) <==> Phrased(message, class_)
  {
    hide Contains, ByPhrase;
    match class_
    case UniqueViolation => OnePhrase(message, class_, "UNIQUE constraint failed");
    case ForeignKeyViolation => OnePhrase(message, class_, "FOREIGN KEY constraint failed");
    case NotNullViolation => OnePhrase(message, class_, "NOT NULL constraint failed");
    case CheckViolation => OnePhrase(message, class_, "CHECK constraint failed");
    case LockTimeout => TwoPhrases(message, class_, "database is locked", "database table is locked");
    case _ => NoPhrases(message, class_);
  }

  /** The first class that satisfies it, in the order of the declaration. */
  function FirstOfAll(holds: ErrorClass -> bool): Option<ErrorClass> {
    if holds(UniqueViolation) then Some(UniqueViolation)
    else if holds(ExclusionViolation) then Some(ExclusionViolation)
    else if holds(ForeignKeyViolation) then Some(ForeignKeyViolation)
    else if holds(NotNullViolation) then Some(NotNullViolation)
    else if holds(CheckViolation) then Some(CheckViolation)
    else if holds(Deadlock) then Some(Deadlock)
    else if holds(SerializationFailure) then Some(SerializationFailure)
    else if holds(LockTimeout) then Some(LockTimeout)
    else None
  }

  lemma Every(d: ErrorClass)
    ensures d in [Unknown, UniqueViolation, ExclusionViolation, ForeignKeyViolation, NotNullViolation, CheckViolation,
                  Deadlock, SerializationFailure, LockTimeout]
  {
  }

  lemma FirstOfAllIs(holds: ErrorClass -> bool, class_: ErrorClass)
    requires !holds(Unknown)
    ensures FirstOfAll(holds) == Some(class_) <==> holds(class_) && forall d :: Rank(d) < Rank(class_) ==> !holds(d)
    ensures FirstOfAll(holds).None? <==> forall d :: !holds(d)
  {
    var r := FirstOfAll(holds);
    if r.Some? {
      assert holds(r.value);
      forall d | Rank(d) < Rank(r.value) ensures !holds(d) {
        Every(d);
      }
      assert class_ == r.value || Rank(class_) < Rank(r.value) || Rank(r.value) < Rank(class_);
    } else {
      forall d ensures !holds(d) {
        Every(d);
      }
    }
  }

  lemma MessageIsFirst(err: Error)
    ensures var message := err.facts.message;
            var byNumber := FirstOfAll(c => Numbered(message, c));
            RecognizeMessage(err) == if byNumber.Some? then byNumber else FirstOfAll(c => Phrased(message, c))
  {
    hide HasMySQLNumber, Contains;
  }

  /** A message decides by the first class whose MySQL number it announces; if it announces
      none, by the first class whose SQLite phrase it has. */
  lemma MessageExactly(err: Error, class_: ErrorClass)
    ensures var message := err.facts.message;
            RecognizeMessage(err) == Some(class_) <==>
            if exists d :: ByNumber(message, d)
            then ByNumber(message, class_) && forall d :: Rank(d) < Rank(class_) ==> !ByNumber(message, d)
            else ByPhrase(message, class_) && forall d :: Rank(d) < Rank(class_) ==> !ByPhrase(message, d)
  {
    MessageIsFirst(err);
    NumbersDecide(err.facts.message, class_);
    PhrasesDecide(err.facts.message, class_);
    hide *;
  }

  lemma NumbersDecide(message: string, class_: ErrorClass)
    ensures var first := FirstOfAll(c => Numbered(message, c));
            && (first == Some(class_) <==>
                ByNumber(message, class_) && forall d :: Rank(d) < Rank(class_) ==> !ByNumber(message, d))
            && (first.Some? <==> exists d :: ByNumber(message, d))
  {
    FirstOfAllIs(c => Numbered(message, c), class_);
    hide ByNumber, FirstOfAll, Numbered, Rank;
    forall d: ErrorClass ensures ByNumber(message, d) <==> Numbered(message, d) {
      NumbersExactly(message, d);
    }
  }

  lemma PhrasesDecide(message: string, class_: ErrorClass)
    ensures var first := FirstOfAll(c => Phrased(message, c));
            first == Some(class_) <==>
            ByPhrase(message, class_) && forall d :: Rank(d) < Rank(class_) ==> !ByPhrase(message, d)
  {
    FirstOfAllIs(c => Phrased(message, c), class_);
    hide ByPhrase, FirstOfAll, Phrased, Rank;
    forall d: ErrorClass ensures ByPhrase(message, d) <==> Phrased(message, d) {
      PhrasesExactly(message, d);
    }
  }

  predicate PartAt(message: string, part: string, i: int) {
    0 <= i <= |message| - |part| && message[i..i + |part|] == part
  }

  /** What follows a part of a message follows its first occurrence. */
  lemma {:induction false} AfterExactly(message: string, part: string) returns (i: int)
    ensures match After(message, part)
            case Some(rest) =>
              PartAt(message, part, i) && rest == message[i + |part|..] && forall j :: 0 <= j < i ==> !PartAt(message, part, j)
            case None => forall j :: !PartAt(message, part, j)
    decreases |message|
  {
    i := 0;
    if |part| <= |message| {
      assert message[0..0 + |part|] == message[..|part|];
      if message[..|part|] != part && message != "" {
        i := AfterExactly(message[1..], part);
        i := i + 1;
        forall j: int | 0 < j <= |message| - |part| ensures PartAt(message, part, j) <==> PartAt(message[1..], part, j - 1) {
          assert message[1..][j - 1..j - 1 + |part|] == message[j..j + |part|];
        }
      }
    }
  }
}
