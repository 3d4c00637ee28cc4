/**
  The error classifier (database/errors.go) over error trees: an error may wrap one
  error, or several.
  */
module Classifier {
  import opened Wrappers

  datatype ErrorClass =
    | Unknown | UniqueViolation | ExclusionViolation | ForeignKeyViolation | NotNullViolation
    | CheckViolation | Deadlock | SerializationFailure | LockTimeout

  /** What can be asked of one error: its message, the sentinels it is (or says it
      is), and the SQLSTATE and Code methods it may have. */
  datatype Facts = Facts(message: string, claims: set<ErrorClass>, sqlState: Option<string>, code: Option<int>)

  /** Either Unwrap method may return nil errors. */
  datatype Error = Error(facts: Facts, unwrap: Unwrap)
  datatype Unwrap = Leaf | One(inner: Option<Error>) | Many(branches: seq<Option<Error>>)

  /** Some(Unknown) stops the search: mine, and none of these classes. */
  type Recognizer = Error -> Option<ErrorClass>

  // ----- one recognizer over a tree

  /** The errors of a tree, depth first, each before what it wraps. */
  function PreOrder(err: Option<Error>): seq<Error>
    decreases err
  {
    if err.None? then []
    else
      match err.value.unwrap
      case Leaf => [err.value]
      case One(inner) => [err.value] + PreOrder(inner)
      case Many(branches) => [err.value] + PreOrders(branches)
  }

  function PreOrders(branches: seq<Option<Error>>): seq<Error>
    decreases branches
  {
    if branches == [] then [] else PreOrder(branches[0]) + PreOrders(branches[1..])
  }

  function FirstHit(errors: seq<Error>, recognize: Recognizer): Option<ErrorClass> {
    if errors == [] then None
    else if recognize(errors[0]).Some? then recognize(errors[0])
    else FirstHit(errors[1..], recognize)
  }

  lemma {:induction false} FirstHitAppend(a: seq<Error>, b: seq<Error>, recognize: Recognizer)
    ensures FirstHit(a + b, recognize) == if FirstHit(a, recognize).Some? then FirstHit(a, recognize) else FirstHit(b, recognize)
    decreases |a|
  {
    if a == [] {
      assert a + b == b;
    } else {
      assert (a + b)[1..] == a[1..] + b;
      FirstHitAppend(a[1..], b, recognize);
    }
  }

  lemma FirstHitOne(err: Error, rest: seq<Error>, recognize: Recognizer)
    ensures FirstHit([err] + rest, recognize) ==
            if recognize(err).Some? then recognize(err) else FirstHit(rest, recognize)
  {
    assert ([err] + rest)[1..] == rest;
  }

  /** classifyChain: a loop along single wrapping, a recursion into branches. */
  method ClassifyChain(err: Option<Error>, recognize: Recognizer) returns (hit: Option<ErrorClass>)
    ensures hit == FirstHit(PreOrder(err), recognize)
    decreases err
  {
    var current := err;
    while current.Some?
      invariant current == err || (err.Some? && current < err)
      invariant FirstHit(PreOrder(err), recognize) == FirstHit(PreOrder(current), recognize)
      decreases current
    {
      hit := recognize(current.value);
      if hit.Some? {
        FirstOfTree(current.value, recognize);
        return hit;
      }
      match current.value.unwrap
      case Leaf =>
        FirstOfTree(current.value, recognize);
        return None;
      case One(inner) =>
        FirstOfTree(current.value, recognize);
        current := inner;
      case Many(branches) =>
        FirstOfTree(current.value, recognize);
        hit := ClassifyBranches(branches, recognize);
        return hit;
    }
    return None;
  }

  lemma FirstOfTree(err: Error, recognize: Recognizer)
    ensures FirstHit(PreOrder(Some(err)), recognize) ==
            if recognize(err).Some? then recognize(err)
            else match err.unwrap
              case Leaf => None
              case One(inner) => FirstHit(PreOrder(inner), recognize)
              case Many(branches) => FirstHit(PreOrders(branches), recognize)
  {
    match err.unwrap
    case Leaf =>
    case One(inner) => FirstHitOne(err, PreOrder(inner), recognize);
    case Many(branches) => FirstHitOne(err, PreOrders(branches), recognize);
  }

  method ClassifyBranches(branches: seq<Option<Error>>, recognize: Recognizer) returns (hit: Option<ErrorClass>)
    ensures hit == FirstHit(PreOrders(branches), recognize)
    decreases branches
  {
    var i := 0;
    while i < |branches|
      invariant 0 <= i <= |branches|
      invariant FirstHit(PreOrders(branches), recognize) == FirstHit(PreOrders(branches[i..]), recognize)
    {
      assert branches[i..][1..] == branches[i + 1..];
      FirstHitAppend(PreOrder(branches[i]), PreOrders(branches[i + 1..]), recognize);
      hit := ClassifyChain(branches[i], recognize);
      if hit.Some? {
        return hit;
      }
      i := i + 1;
    }
    return None;
  }

  // ----- the built-in recognizers

  predicate AnyClaims(errors: seq<Error>, class_: ErrorClass) {
    exists i :: 0 <= i < |errors| && class_ in errors[i].facts.claims
  }

  /** errors.Is with a class's sentinel, which walks the tree itself. */
  predicate Is(err: Error, class_: ErrorClass) {
    AnyClaims(PreOrder(Some(err)), class_)
  }

  const SENTINELS: seq<ErrorClass> := [
    UniqueViolation, ExclusionViolation, ForeignKeyViolation, NotNullViolation,
    CheckViolation, Deadlock, SerializationFailure, LockTimeout
  ]

  function FirstClaimed(classes: seq<ErrorClass>, err: Error): Option<ErrorClass> {
    if classes == [] then None
    else if Is(err, classes[0]) then Some(classes[0])
    else FirstClaimed(classes[1..], err)
  }

  function RecognizeSentinel(err: Error): Option<ErrorClass> {
    FirstClaimed(SENTINELS, err)
  }

  function ClassOfState(state: string): Option<ErrorClass> {
    match state
    case "23505" => Some(UniqueViolation)
    case "23P01" => Some(ExclusionViolation)
    case "23503" => Some(ForeignKeyViolation)
    case "23502" => Some(NotNullViolation)
    case "23514" => Some(CheckViolation)
    case "40P01" => Some(Deadlock)
    case "40001" => Some(SerializationFailure)
    case "55P03" => Some(LockTimeout)
    case _ => None
  }

  function RecognizeSQLState(err: Error): Option<ErrorClass> {
    if err.facts.sqlState.None? then None else ClassOfState(err.facts.sqlState.value)
  }

  function ClassOfCode(code: int): Option<ErrorClass> {
    if code in {2067, 1555, 2579} then Some(UniqueViolation)
    else if code == 787 then Some(ForeignKeyViolation)
    else if code == 1299 then Some(NotNullViolation)
    else if code in {275, 1811} then Some(CheckViolation)
    else if code == 517 then Some(SerializationFailure)
    else if code in {5, 261, 773, 6, 262, 518} then Some(LockTimeout)
    else None
  }

  predicate LooksLikeSQLite(message: string) {
    || Contains(message, "constraint failed") || Contains(message, "database is locked")
    || Contains(message, "database table is locked") || Contains(message, "SQLITE_")
  }

  function RecognizeSQLiteCode(err: Error): Option<ErrorClass> {
    if err.facts.code.None? || !LooksLikeSQLite(err.facts.message) then None
    else ClassOfCode(err.facts.code.value)
  }

  /** What follows the first occurrence of a part. */
  function After(message: string, part: string): Option<string> {
    if |message| < |part| then None
    else if message[..|part|] == part then Some(message[|part|..])
    else if message == "" then None
    else After(message[1..], part)
  }

  predicate Contains(message: string, part: string) {
    After(message, part).Some?
  }

  predicate HasMySQLNumber(message: string, number: string) {
    var rest := After(message, "Error " + number);
    rest.Some? && (" (" <= rest.value || ":" <= rest.value)
  }

  function RecognizeMessage(err: Error): Option<ErrorClass> {
    var message := err.facts.message;
    if HasMySQLNumber(message, "1062") then Some(UniqueViolation)
    else if HasMySQLNumber(message, "1452") || HasMySQLNumber(message, "1451")
         || HasMySQLNumber(message, "1216") || HasMySQLNumber(message, "1217") then Some(ForeignKeyViolation)
    else if HasMySQLNumber(message, "1048") then Some(NotNullViolation)
    else if HasMySQLNumber(message, "3819") || HasMySQLNumber(message, "4025") then Some(CheckViolation)
    else if HasMySQLNumber(message, "1213") then Some(Deadlock)
    else if HasMySQLNumber(message, "1205") then Some(LockTimeout)
    else if Contains(message, "UNIQUE constraint failed") then Some(UniqueViolation)
    else if Contains(message, "FOREIGN KEY constraint failed") then Some(ForeignKeyViolation)
    else if Contains(message, "NOT NULL constraint failed") then Some(NotNullViolation)
    else if Contains(message, "CHECK constraint failed") then Some(CheckViolation)
    else if Contains(message, "database is locked") || Contains(message, "database table is locked") then Some(LockTimeout)
    else None
  }

  const STRUCTURED: seq<Recognizer> := [RecognizeSentinel, RecognizeSQLState, RecognizeSQLiteCode]
  const BUILTIN: seq<Recognizer> := STRUCTURED + [RecognizeMessage]

  // ----- all recognizers

  /** NewClassifier: the given recognizers, nil ones left out, before the built-in. */
  function Combined(given: seq<Option<Recognizer>>): seq<Recognizer> {
    if given == [] then BUILTIN
    else (if given[0].Some? then [given[0].value] else []) + Combined(given[1..])
  }

  function FirstOf(recognizers: seq<Recognizer>, err: Option<Error>): Option<ErrorClass>
    decreases |recognizers|
  {
    if recognizers == [] then None
    else
      var hit := FirstHit(PreOrder(err), recognizers[0]);
      if hit.Some? then hit else FirstOf(recognizers[1..], err)
  }

  method Classify(recognizers: seq<Recognizer>, err: Option<Error>) returns (class_: ErrorClass)
    ensures var hit := FirstOf(recognizers, err); class_ == if hit.Some? then hit.value else Unknown
  {
    var i := 0;
    while i < |recognizers|
      invariant 0 <= i <= |recognizers| && FirstOf(recognizers, err) == FirstOf(recognizers[i..], err)
    {
      assert recognizers[i..][1..] == recognizers[i + 1..];
      var hit := ClassifyChain(err, recognizers[i]);
      if hit.Some? {
        return hit.value;
      }
      i := i + 1;
    }
    return Unknown;
  }

  lemma {:induction false} FirstHitIs(errors: seq<Error>, recognize: Recognizer, j: nat)
    requires j < |errors| && recognize(errors[j]).Some? && forall k :: 0 <= k < j ==> recognize(errors[k]).None?
    ensures FirstHit(errors, recognize) == recognize(errors[j])
    decreases |errors|
  {
    if j > 0 {
      assert recognize(errors[0]).None?;
      FirstHitIs(errors[1..], recognize, j - 1);
    }
  }

  lemma {:induction false} NoHit(errors: seq<Error>, recognize: Recognizer)
    requires forall k :: 0 <= k < |errors| ==> recognize(errors[k]).None?
    ensures FirstHit(errors, recognize).None?
    decreases |errors|
  {
    if errors != [] {
      NoHit(errors[1..], recognize);
    }
  }

  /** The order: a hit decides exactly when no earlier recognizer hits any error of
      the tree and its own recognizer hits no error before it, depth first. */
  lemma {:induction false} FirstInOrder(recognizers: seq<Recognizer>, err: Option<Error>, i: nat, j: nat)
    requires i < |recognizers| && j < |PreOrder(err)| && recognizers[i](PreOrder(err)[j]).Some?
    requires forall h, k :: 0 <= h < i && 0 <= k < |PreOrder(err)| ==> recognizers[h](PreOrder(err)[k]).None?
    requires forall k :: 0 <= k < j ==> recognizers[i](PreOrder(err)[k]).None?
    ensures FirstOf(recognizers, err) == recognizers[i](PreOrder(err)[j])
    decreases |recognizers|
  {
    if i == 0 {
      FirstHitIs(PreOrder(err), recognizers[0], j);
    } else {
      NoHit(PreOrder(err), recognizers[0]);
      FirstInOrder(recognizers[1..], err, i - 1, j);
    }
  }

  /** A custom recognizer that hits at any depth goes before every built-in one. */
  lemma {:induction false} CustomGoesFirst(given: seq<Option<Recognizer>>, err: Option<Error>, i: nat)
    requires i < |given| && given[i].Some? && FirstHit(PreOrder(err), given[i].value).Some?
    requires forall h :: 0 <= h < i && given[h].Some? ==> FirstHit(PreOrder(err), given[h].value).None?
    ensures FirstOf(Combined(given), err) == FirstHit(PreOrder(err), given[i].value)
    decreases |given|
  {
    var rest := Combined(given[1..]);
    if given[0].Some? {
      assert ([given[0].value] + rest)[1..] == rest;
    }
    if i > 0 {
      assert [] + rest == rest;
      CustomGoesFirst(given[1..], err, i - 1);
    }
  }

  // ----- wrapping

  /** Nothing but a message. */
  predicate Plain(f: Facts) {
    f.claims == {} && f.sqlState.None? && f.code.None?
  }

  ghost predicate TextOnly(branches: seq<Option<Error>>) {
    forall e :: e in PreOrders(branches) ==> Plain(e.facts)
  }

  /** An error with plain wrappers around it and text-only branches beside it. */
  datatype Wrapping = Hole | Wrapped(facts: Facts, inner: Wrapping)
    | Joined(facts: Facts, before: seq<Option<Error>>, inner: Wrapping, after: seq<Option<Error>>)

  function Fill(w: Wrapping, err: Error): Error {
    match w
    case Hole => err
    case Wrapped(facts, inner) => Error(facts, One(Some(Fill(inner, err))))
    case Joined(facts, before, inner, after) => Error(facts, Many(before + [Some(Fill(inner, err))] + after))
  }

  ghost predicate OnlyText(w: Wrapping) {
    match w
    case Hole => true
    case Wrapped(facts, inner) => Plain(facts) && OnlyText(inner)
    case Joined(facts, before, inner, after) => Plain(facts) && TextOnly(before) && OnlyText(inner) && TextOnly(after)
  }

  lemma {:induction false} PreOrdersAppend(a: seq<Option<Error>>, b: seq<Option<Error>>)
    ensures PreOrders(a + b) == PreOrders(a) + PreOrders(b)
    decreases |a|
  {
    if a == [] {
      assert a + b == b;
    } else {
      assert (a + b)[1..] == a[1..] + b;
      PreOrdersAppend(a[1..], b);
    }
  }

  /** The errors of a filled wrapping: plain ones, the errors of what it wraps, plain
      ones. */
  lemma {:induction false} FilledErrors(w: Wrapping, err: Error) returns (before: seq<Error>, after: seq<Error>)
    requires OnlyText(w)
    ensures PreOrder(Some(Fill(w, err))) == before + PreOrder(Some(err)) + after
    ensures forall e :: e in before + after ==> Plain(e.facts)
    decreases w
  {
    var errors := PreOrder(Some(err));
    match w
    case Hole =>
      before, after := [], [];
      assert [] + errors + [] == errors;
    case Wrapped(facts, inner) =>
      before, after := FilledErrors(inner, err);
      assert [Fill(w, err)] + (before + errors + after) == ([Fill(w, err)] + before) + errors + after;
      before := [Fill(w, err)] + before;
    case Joined(facts, left, inner, right) =>
      before, after := FilledErrors(inner, err);
      var filled := Some(Fill(inner, err));
      PreOrdersAppend(left + [filled], right);
      PreOrdersAppend(left, [filled]);
      OneBranch(filled);
      var all, l, r := [Fill(w, err)], PreOrders(left), PreOrders(right);
      Regroup(all, l, before, errors, after, r);
      before, after := all + l + before, after + r;
  }

  lemma Regroup<T>(a: seq<T>, b: seq<T>, c: seq<T>, d: seq<T>, e: seq<T>, f: seq<T>)
    ensures a + (b + (c + d + e) + f) == (a + b + c) + d + (e + f)
  {
  }

  lemma OneBranch(err: Option<Error>)
    ensures PreOrders([err]) == PreOrder(err)
  {
    assert [err][1..] == [];
    assert PreOrder(err) + [] == PreOrder(err);
  }

  /** A recognizer that asks an error only about itself, and never about its text. */
  ghost predicate AsksStructure(recognize: Recognizer) {
    forall e: Error :: Plain(e.facts) ==> recognize(e).None?
  }

  lemma PlainAround(before: seq<Error>, errors: seq<Error>, after: seq<Error>, recognize: Recognizer)
    requires AsksStructure(recognize) && forall e :: e in before + after ==> Plain(e.facts)
    ensures FirstHit(before + errors + after, recognize) == FirstHit(errors, recognize)
  {
    FirstHitAppend(before + errors, after, recognize);
    FirstHitAppend(before, errors, recognize);
    forall k | 0 <= k < |before| ensures recognize(before[k]).None? {
      assert before[k] in before + after;
    }
    NoHit(before, recognize);
    forall k | 0 <= k < |after| ensures recognize(after[k]).None? {
      assert after[k] in before + after;
    }
    NoHit(after, recognize);
  }

  lemma {:induction false} SubtreeErrors(err: Option<Error>, e: Error, n: Error)
    requires e in PreOrder(err) && n in PreOrder(Some(e))
    ensures n in PreOrder(err)
    decreases err, 0
  {
    if err != Some(e) {
      match err.value.unwrap
      case Leaf =>
      case One(inner) => SubtreeErrors(inner, e, n);
      case Many(branches) => SubtreeOfBranches(branches, e, n);
    }
  }

  lemma {:induction false} SubtreeOfBranches(branches: seq<Option<Error>>, e: Error, n: Error)
    requires e in PreOrders(branches) && n in PreOrder(Some(e))
    ensures n in PreOrders(branches)
    decreases branches, 0
  {
    if e in PreOrder(branches[0]) {
      SubtreeErrors(branches[0], e, n);
    } else {
      SubtreeOfBranches(branches[1..], e, n);
    }
  }

  lemma ClaimsOfSubtree(err: Error, e: Error, class_: ErrorClass)
    requires e in PreOrder(Some(err)) && Is(e, class_)
    ensures Is(err, class_)
  {
    var i :| 0 <= i < |PreOrder(Some(e))| && class_ in PreOrder(Some(e))[i].facts.claims;
    SubtreeErrors(Some(err), e, PreOrder(Some(e))[i]);
    var j :| 0 <= j < |PreOrder(Some(err))| && PreOrder(Some(err))[j] == PreOrder(Some(e))[i];
  }

  lemma {:induction false} FirstClaimedSame(classes: seq<ErrorClass>, a: Error, b: Error)
    requires forall c :: c in classes ==> (Is(a, c) <==> Is(b, c))
    ensures FirstClaimed(classes, a) == FirstClaimed(classes, b)
    decreases |classes|
  {
    hide Is;
    if classes != [] {
      assert classes[0] in classes;
      FirstClaimedSame(classes[1..], a, b);
    }
  }

  lemma {:induction false} NoneClaimed(classes: seq<ErrorClass>, err: Error, e: Error)
    requires FirstClaimed(classes, err).None? && e in PreOrder(Some(err))
    ensures FirstClaimed(classes, e).None?
    decreases |classes|
  {
    hide Is;
    if classes != [] {
      NoneClaimed(classes[1..], err, e);
      if Is(e, classes[0]) {
        ClaimsOfSubtree(err, e, classes[0]);
      }
    }
  }

  /** A sentinel anywhere in the tree is found at its root, the first class of the
      list before the others. */
  lemma SentinelAtRoot(err: Error)
    ensures FirstHit(PreOrder(Some(err)), RecognizeSentinel) == RecognizeSentinel(err)
  {
    hide FirstClaimed;
    var errors := PreOrder(Some(err));
    assert errors[0] == err;
    if RecognizeSentinel(err).Some? {
      FirstHitIs(errors, RecognizeSentinel, 0);
    } else {
      forall k | 0 <= k < |errors| ensures RecognizeSentinel(errors[k]).None? {
        NoneClaimed(SENTINELS, err, errors[k]);
      }
      NoHit(errors, RecognizeSentinel);
    }
  }

  lemma ClaimsAround(before: seq<Error>, errors: seq<Error>, after: seq<Error>, class_: ErrorClass)
    requires forall e :: e in before + after ==> Plain(e.facts)
    ensures AnyClaims(before + errors + after, class_) <==> AnyClaims(errors, class_)
  {
    var all := before + errors + after;
    if AnyClaims(errors, class_) {
      var i :| 0 <= i < |errors| && class_ in errors[i].facts.claims;
      assert all[|before| + i] == errors[i];
    }
    if AnyClaims(all, class_) {
      var i :| 0 <= i < |all| && class_ in all[i].facts.claims;
      assert all[i] !in before + after;
      assert all[i] in errors;
      var j :| 0 <= j < |errors| && errors[j] == all[i];
    }
  }

  lemma SentinelKept(w: Wrapping, err: Error)
    requires OnlyText(w)
    ensures RecognizeSentinel(Fill(w, err)) == RecognizeSentinel(err)
  {
    hide PreOrder, AnyClaims, FirstClaimed, Fill;
    var before, after := FilledErrors(w, err);
    forall c | c in SENTINELS ensures Is(Fill(w, err), c) <==> Is(err, c) {
      ClaimsAround(before, PreOrder(Some(err)), after, c);
    }
    FirstClaimedSame(SENTINELS, Fill(w, err), err);
  }

  /** No wrapper and no branch that is only text changes what a sentinel, a SQLSTATE
      or a SQLite code decides. */
  lemma WrappingKeepsClass(w: Wrapping, err: Error)
    requires OnlyText(w)
    ensures FirstOf(STRUCTURED, Some(Fill(w, err))) == FirstOf(STRUCTURED, Some(err))
    ensures FirstOf(STRUCTURED, Some(err)).Some? ==>
              FirstOf(BUILTIN, Some(Fill(w, err))) == FirstOf(BUILTIN, Some(err)) == FirstOf(STRUCTURED, Some(err))
  {
    hide PreOrder, FirstHit, Fill, RecognizeMessage;
    SentinelKept(w, err);
    SentinelAtRoot(err);
    SentinelAtRoot(Fill(w, err));
    var before, after := FilledErrors(w, err);
    PlainAround(before, PreOrder(Some(err)), after, RecognizeSQLState);
    PlainAround(before, PreOrder(Some(err)), after, RecognizeSQLiteCode);
    ThreeFirst(Some(err));
    ThreeFirst(Some(Fill(w, err)));
  }

  lemma ThreeFirst(err: Option<Error>)
    ensures var a, b, c := FirstHit(PreOrder(err), RecognizeSentinel), FirstHit(PreOrder(err), RecognizeSQLState),
                           FirstHit(PreOrder(err), RecognizeSQLiteCode);
            && FirstOf(STRUCTURED, err) == (if a.Some? then a else if b.Some? then b else c)
            && (FirstOf(STRUCTURED, err).Some? ==> FirstOf(BUILTIN, err) == FirstOf(STRUCTURED, err))
  {
    hide FirstHit, PreOrder;
    FirstOfOne(RecognizeSentinel, err);
    FirstOfOne(RecognizeSQLState, err);
    FirstOfOne(RecognizeSQLiteCode, err);
    FirstOfAppend([RecognizeSentinel], [RecognizeSQLState], err);
    FirstOfAppend([RecognizeSentinel] + [RecognizeSQLState], [RecognizeSQLiteCode], err);
    assert STRUCTURED == [RecognizeSentinel] + [RecognizeSQLState] + [RecognizeSQLiteCode];
    FirstOfAppend(STRUCTURED, [RecognizeMessage], err);
  }

  lemma FirstOfOne(recognize: Recognizer, err: Option<Error>)
    ensures FirstOf([recognize], err) == FirstHit(PreOrder(err), recognize)
  {
    assert [recognize][1..] == [];
  }

  lemma {:induction false} FirstOfAppend(a: seq<Recognizer>, b: seq<Recognizer>, err: Option<Error>)
    ensures FirstOf(a + b, err) == if FirstOf(a, err).Some? then FirstOf(a, err) else FirstOf(b, err)
    decreases |a|
  {
    hide FirstHit;
    if a == [] {
      assert a + b == b;
    } else {
      assert (a + b)[1..] == a[1..] + b;
      FirstOfAppend(a[1..], b, err);
    }
  }
}
