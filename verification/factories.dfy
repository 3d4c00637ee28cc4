/**
  The factory methods the generator emits for transient services (`renderFactory`,
  wiring.go), and exactly when Go accepts one. FactoryRuns is about what they do.
  */
module Factories {
  import opened Wrappers
  import opened Sequences
  import opened Container
  import opened Resolution
  import opened Wiring
  import opened Generator
  import opened WireScope

  datatype Argument = FieldOf(name: string) | Local(name: string)

  /** `target := s.NewX()`, or `target, err := s.NewX()` with an early return. */
  datatype FactoryCall = FactoryCall(target: string, dependency: Key, checked: bool)

  datatype Factory = Factory(body: seq<FactoryCall>, args: seq<Argument>, callee: Key, returnsError: bool)

  predicate Described(g: Graph, services: map<Key, Service>) {
    services.Keys == g.Keys && forall k, d :: k in g && d in g[k].Inputs() ==> d in services
  }

  function ArgumentFor(g: Graph, services: map<Key, Service>, input: Key): Argument
    requires input in g && input in services
  {
    if g[input].IsTransient() then Local(services[input].varName) else FieldOf(services[input].fieldName)
  }

  function CallsFor(g: Graph, services: map<Key, Service>, inputs: seq<Key>): seq<FactoryCall>
    requires forall d :: d in inputs ==> d in g && d in services
  {
    if inputs == [] then [] else CallFor(g, services, inputs[0]) + CallsFor(g, services, inputs[1..])
  }

  function CallFor(g: Graph, services: map<Key, Service>, input: Key): seq<FactoryCall>
    requires input in g && input in services
  {
    if g[input].IsTransient() then [FactoryCall(services[input].varName, input, services[input].factoryErr)] else []
  }

  function ArgumentsFor(g: Graph, services: map<Key, Service>, inputs: seq<Key>): seq<Argument>
    requires forall d :: d in inputs ==> d in g && d in services
  {
    seq(|inputs|, i requires 0 <= i < |inputs| => assert inputs[i] in inputs; ArgumentFor(g, services, inputs[i]))
  }

  function FactoryFor(g: Graph, services: map<Key, Service>, key: Key): Factory
    requires Described(g, services) && key in g && g[key].Provided?
  {
    Factory(CallsFor(g, services, g[key].inputs), ArgumentsFor(g, services, g[key].inputs), key, services[key].factoryErr)
  }

  lemma CallsForAppend(g: Graph, services: map<Key, Service>, inputs: seq<Key>, last: Key)
    requires last in g && last in services && forall d :: d in inputs ==> d in g && d in services
    ensures CallsFor(g, services, inputs + [last]) == CallsFor(g, services, inputs) + CallsFor(g, services, [last])
  {
    if inputs == [] {
      assert [] + [last] == [last];
    } else {
      assert (inputs + [last])[1..] == inputs[1..] + [last];
      CallsForAppend(g, services, inputs[1..], last);
      Associative(CallFor(g, services, inputs[0]), CallsFor(g, services, inputs[1..]), CallsFor(g, services, [last]));
    }
  }

  /** `renderFactory`: one pass over the inputs filling the argument list and
      writing the calls to other factories as it meets them. */
  method RenderFactory(g: Graph, services: map<Key, Service>, key: Key) returns (factory: Factory)
    requires Described(g, services) && key in g && g[key].Provided?
    ensures factory == FactoryFor(g, services, key)
  {
    var inputs := g[key].inputs;
    var arguments: seq<Argument> := [];
    var body: seq<FactoryCall> := [];
    var i := 0;
    while i < |inputs|
      invariant 0 <= i <= |inputs|
      invariant forall d :: d in inputs[..i] ==> d in inputs
      invariant arguments == ArgumentsFor(g, services, inputs[..i])
      invariant body == CallsFor(g, services, inputs[..i])
    {
      var input := inputs[i];
      assert inputs[..i + 1] == inputs[..i] + [input];
      CallsForAppend(g, services, inputs[..i], input);
      if !g[input].IsTransient() {
        arguments := arguments + [FieldOf(services[input].fieldName)];
      } else {
        body := body + [FactoryCall(services[input].varName, input, services[input].factoryErr)];
        arguments := arguments + [Local(services[input].varName)];
      }
      i := i + 1;
    }
    assert inputs[..i] == inputs;
    return Factory(body, arguments, key, services[key].factoryErr);
  }

  // ---------------------------------------------------------------------------
  // When a factory compiles
  // ---------------------------------------------------------------------------

  /** The receiver of every factory method. */
  const RECEIVER: string := "s"

  function Targets(body: seq<FactoryCall>): (targets: seq<string>)
    ensures |targets| == |body|
  {
    seq(|body|, i requires 0 <= i < |body| => body[i].target)
  }

  predicate AnyChecked(body: seq<FactoryCall>) {
    exists i :: 0 <= i < |body| && body[i].checked
  }

  /** What the return after a failed call mentions: fmt, nil, new and the type of the
      service. */
  function Mentioned(names: Names, key: Key): set<string>
    requires key in names.mentioned
  {
    {"fmt", "nil", "new"} + names.mentioned[key]
  }

  /** What Go asks of the calls: each declares a new local, takes as many results as
      the other factory has, and mentions nothing that means a local or the receiver
      by then. `declared` holds the receiver and the locals so far. A check may reuse a
      local called err that can hold an error. */
  predicate CallsCompile(factories: map<Key, Factory>, mentioned: set<string>, declared: set<string>,
                         errDeclared: bool, body: seq<FactoryCall>, errHolds: bool)
    decreases |body|
  {
    body != [] ==>
      var c := body[0];
      && c.dependency in factories && factories[c.dependency].returnsError == c.checked
      && c.target !in declared
      && (if c.checked then
            && c.target != "err" && ("err" in declared ==> errHolds)
            && mentioned !! declared + {c.target, "err"}
          else
            errDeclared ==> c.target != "err")
      && CallsCompile(factories, mentioned, declared + {c.target}, errDeclared || c.checked, body[1..], errHolds)
  }

  /** The calls, and the return of the constructor's results: its arguments are fields
      of Services or locals, its package's alias and nil still mean what they should,
      and an error it returns has a place. */
  predicate FactoryCompiles(g: Graph, names: Names, fields: set<string>, factories: map<Key, Factory>, key: Key) {
    && key in factories && key in names.packages && key in names.mentioned
    && factories[key].callee == key && key in g && g[key].Provided?
    && var f := factories[key];
       var declared := {RECEIVER} + Elements(Targets(f.body));
       && CallsCompile(factories, Mentioned(names, key), {RECEIVER}, false, f.body, names.errHolds)
       && (forall a :: a in f.args ==> match a case FieldOf(n) => n in fields case Local(n) => n in Targets(f.body))
       && names.packages[key] !in declared && (AnyChecked(f.body) ==> names.packages[key] != "err")
       && (g[key].fallible ==> f.returnsError) && (f.returnsError && !g[key].fallible ==> "nil" !in declared)
  }

  lemma {:induction false} CheckFindsItsWords(factories: map<Key, Factory>, mentioned: set<string>, declared: set<string>,
      errDeclared: bool, body: seq<FactoryCall>, errHolds: bool, j: nat, i: nat)
    requires CallsCompile(factories, mentioned, declared, errDeclared, body, errHolds) && j <= i < |body| && body[i].checked
    ensures body[j].target !in mentioned && mentioned !! declared
    decreases |body|
  {
    if i > 0 {
      if j == 0 {
        CheckFindsItsWords(factories, mentioned, declared + {body[0].target}, errDeclared || body[0].checked, body[1..], errHolds, 0, i - 1);
      } else {
        CheckFindsItsWords(factories, mentioned, declared + {body[0].target}, errDeclared || body[0].checked, body[1..], errHolds, j - 1, i - 1);
      }
    }
  }

  /** In a factory Go accepts, no local up to a checked call is called as a word its check
      uses or as a name in the type it returns. */
  lemma ChecksReadAsMeant(g: Graph, names: Names, fields: set<string>, factories: map<Key, Factory>, key: Key, j: nat, i: nat)
    requires FactoryCompiles(g, names, fields, factories, key) && j <= i < |factories[key].body| && factories[key].body[i].checked
    ensures factories[key].body[j].target !in {"fmt", "nil", "new"} + names.mentioned[key]
  {
    CheckFindsItsWords(factories, Mentioned(names, key), {RECEIVER}, false, factories[key].body, names.errHolds, j, i);
  }

  /** No constructor asks twice for the same transient service. */
  ghost predicate TransientsDiffer(g: Graph, inputs: seq<Key>) {
    forall i, j :: 0 <= i < j < |inputs| && inputs[i] in g && g[inputs[i]].IsTransient() ==> inputs[i] != inputs[j]
  }

  ghost predicate Collected(g: Graph, services: map<Key, Service>, factories: map<Key, Factory>) {
    && Closed(g) && Acyclic(g) && Described(g, services) && Injective(VarNames(services))
    && (forall k :: k in g && g[k].IsTransient() ==>
          && k in factories && factories[k] == FactoryFor(g, services, k)
          && (services[k].factoryErr <==> CanFail(g, k)))
  }

  predicate Checked(g: Graph, services: map<Key, Service>, key: Key) {
    key in g && key in services && g[key].IsTransient() && services[key].factoryErr
  }

  /** The naming condition on some inputs, below these declarations: no transient one
      twice, none with a name that is taken; and if the factory of one can fail, none
      up to it is called as something the check mentions, and one called err comes before
      it and can hold an error. */
  ghost predicate InputsClear(g: Graph, services: map<Key, Service>, mentioned: set<string>, declared: set<string>,
                              errDeclared: bool, errHolds: bool, inputs: seq<Key>)
    requires forall d :: d in inputs ==> d in g && d in services
  {
    && TransientsDiffer(g, inputs)
    && (forall d :: d in inputs && g[d].IsTransient() ==>
          services[d].varName !in declared && (errDeclared ==> services[d].varName != "err"))
    && (forall c :: c in inputs && Checked(g, services, c) ==>
          ("err" in declared ==> errHolds) && mentioned !! declared + {"err"})
    && ErrFirst(g, services, errHolds, inputs)
    && Unmentioned(g, services, mentioned, inputs)
  }

  /** A transient input called err comes before every check, if there is one, and can
      hold an error. */
  ghost predicate ErrFirst(g: Graph, services: map<Key, Service>, errHolds: bool, inputs: seq<Key>)
    requires forall d :: d in inputs ==> d in g && d in services
  {
    forall i, j :: 0 <= i < |inputs| && 0 <= j < |inputs| && Checked(g, services, inputs[i]) && g[inputs[j]].IsTransient() ==>
      services[inputs[j]].varName == "err" ==> j < i && errHolds
  }

  /** No transient input up to one whose factory can fail is called by these names. */
  ghost predicate Unmentioned(g: Graph, services: map<Key, Service>, mentioned: set<string>, inputs: seq<Key>)
    requires forall d :: d in inputs ==> d in g && d in services
  {
    forall i, j :: 0 <= j <= i < |inputs| && Checked(g, services, inputs[i]) && g[inputs[j]].IsTransient() ==>
      services[inputs[j]].varName !in mentioned
  }

  /** A factory's names are clear: no transient input is called s or as the alias of
      the constructor's package, and that alias is not s; if an input's factory can
      fail, the alias is not err, the type mentions neither s nor err, no transient input
      up to that one is called fmt, nil, new or as a name in the type, and one called err
      comes before it and can hold an error; and none is called nil if nil is returned. */
  ghost predicate FactoryClear(g: Graph, services: map<Key, Service>, names: Names, key: Key)
    requires Described(g, services) && key in g && g[key].Provided? && key in names.packages && key in names.mentioned
  {
    var inputs, alias := g[key].inputs, names.packages[key];
    && InputsClear(g, services, Mentioned(names, key), {RECEIVER}, false, names.errHolds, inputs)
    && alias != RECEIVER && (forall d :: d in inputs && g[d].IsTransient() ==> services[d].varName != alias)
    && (alias == "err" ==> forall c :: c in inputs ==> !Checked(g, services, c))
    && (services[key].factoryErr && !g[key].fallible ==>
          forall d :: d in inputs && g[d].IsTransient() ==> services[d].varName != "nil")
  }

  lemma {:induction false} TargetsOfCalls(g: Graph, services: map<Key, Service>, inputs: seq<Key>, name: string)
    requires forall d :: d in inputs ==> d in g && d in services
    ensures name in Targets(CallsFor(g, services, inputs)) <==>
            exists d :: d in inputs && g[d].IsTransient() && services[d].varName == name
  {
    if inputs != [] {
      TargetsOfCalls(g, services, inputs[1..], name);
      var rest := Targets(CallsFor(g, services, inputs[1..]));
      assert Targets(CallsFor(g, services, inputs)) ==
             (if g[inputs[0]].IsTransient() then [services[inputs[0]].varName] else []) + rest;
      assert forall d :: d in inputs <==> d == inputs[0] || d in inputs[1..];
    }
  }

  lemma FirstDiffers(g: Graph, inputs: seq<Key>)
    requires inputs != []
    ensures TransientsDiffer(g, inputs) <==>
            TransientsDiffer(g, inputs[1..]) && (inputs[0] in g && g[inputs[0]].IsTransient() ==> inputs[0] !in inputs[1..])
  {
    var rest := inputs[1..];
    if TransientsDiffer(g, inputs) {
      forall i, j | 0 <= i < j < |rest| && rest[i] in g && g[rest[i]].IsTransient() ensures rest[i] != rest[j] {
        assert inputs[i + 1] != inputs[j + 1];
      }
    }
    if TransientsDiffer(g, rest) && (inputs[0] in g && g[inputs[0]].IsTransient() ==> inputs[0] !in rest) {
      forall i, j | 0 <= i < j < |inputs| && inputs[i] in g && g[inputs[i]].IsTransient() ensures inputs[i] != inputs[j] {
        if i > 0 {
          assert rest[i - 1] != rest[j - 1];
        } else {
          assert inputs[j] == rest[j - 1];
        }
      }
    }
  }

  /** The last condition, opened up at the first input. */
  lemma FirstUnmentioned(g: Graph, services: map<Key, Service>, mentioned: set<string>, inputs: seq<Key>)
    requires inputs != [] && (forall d :: d in inputs ==> d in g && d in services) && g[inputs[0]].IsTransient()
    ensures Unmentioned(g, services, mentioned, inputs) <==>
            && ((exists c :: c in inputs && Checked(g, services, c)) ==> services[inputs[0]].varName !in mentioned)
            && Unmentioned(g, services, mentioned, inputs[1..])
  {
    var rest := inputs[1..];
    if Unmentioned(g, services, mentioned, inputs) {
      if c :| c in inputs && Checked(g, services, c) {
        var i :| 0 <= i < |inputs| && inputs[i] == c;
        assert services[inputs[0]].varName !in mentioned;
      }
      forall i, j | 0 <= j <= i < |rest| && Checked(g, services, rest[i]) && g[rest[j]].IsTransient()
        ensures services[rest[j]].varName !in mentioned
      {
        assert inputs[i + 1] == rest[i] && inputs[j + 1] == rest[j];
      }
    }
    if ((exists c :: c in inputs && Checked(g, services, c)) ==> services[inputs[0]].varName !in mentioned)
       && Unmentioned(g, services, mentioned, rest) {
      forall i, j | 0 <= j <= i < |inputs| && Checked(g, services, inputs[i]) && g[inputs[j]].IsTransient()
        ensures services[inputs[j]].varName !in mentioned
      {
        if j > 0 {
          assert inputs[i] == rest[i - 1] && inputs[j] == rest[j - 1];
        } else {
          assert inputs[i] in inputs;
        }
      }
    }
  }

  /** The condition on err, opened up at the first input. */
  lemma FirstErr(g: Graph, services: map<Key, Service>, errHolds: bool, inputs: seq<Key>)
    requires inputs != [] && forall d :: d in inputs ==> d in g && d in services
    ensures var first, rest := inputs[0], inputs[1..];
            ErrFirst(g, services, errHolds, inputs) <==>
            && (Checked(g, services, first) ==>
                  forall d :: d in inputs && g[d].IsTransient() ==> services[d].varName != "err")
            && ((g[first].IsTransient() && services[first].varName == "err"
                 && exists c :: c in rest && Checked(g, services, c)) ==> errHolds)
            && ErrFirst(g, services, errHolds, rest)
  {
    var first, rest := inputs[0], inputs[1..];
    if ErrFirst(g, services, errHolds, inputs) {
      FirstErrHolds(g, services, errHolds, inputs);
    }
    if (Checked(g, services, first) ==> forall d :: d in inputs && g[d].IsTransient() ==> services[d].varName != "err")
       && ((g[first].IsTransient() && services[first].varName == "err"
            && exists c :: c in rest && Checked(g, services, c)) ==> errHolds)
       && ErrFirst(g, services, errHolds, rest) {
      forall i, j | 0 <= i < |inputs| && 0 <= j < |inputs| && Checked(g, services, inputs[i]) && g[inputs[j]].IsTransient()
                    && services[inputs[j]].varName == "err"
        ensures j < i && errHolds
      {
        assert inputs[j] in inputs;
        if j > 0 {
          assert inputs[i] == rest[i - 1] && inputs[j] == rest[j - 1];
        } else {
          assert inputs[i] == rest[i - 1] && inputs[i] in rest;
        }
      }
    }
  }

  lemma FirstErrHolds(g: Graph, services: map<Key, Service>, errHolds: bool, inputs: seq<Key>)
    requires inputs != [] && forall d :: d in inputs ==> d in g && d in services
    requires ErrFirst(g, services, errHolds, inputs)
    ensures Checked(g, services, inputs[0]) ==>
              forall d :: d in inputs && g[d].IsTransient() ==> services[d].varName != "err"
    ensures (g[inputs[0]].IsTransient() && services[inputs[0]].varName == "err"
             && exists c :: c in inputs[1..] && Checked(g, services, c)) ==> errHolds
    ensures ErrFirst(g, services, errHolds, inputs[1..])
  {
    var rest := inputs[1..];
    if Checked(g, services, inputs[0]) {
      forall d | d in inputs && g[d].IsTransient() ensures services[d].varName != "err" {
        var j :| 0 <= j < |inputs| && inputs[j] == d;
        assert Checked(g, services, inputs[0]);
      }
    }
    if c :| c in rest && Checked(g, services, c) {
      var i :| 0 <= i < |rest| && rest[i] == c;
      assert inputs[i + 1] == c;
    }
    forall i, j | 0 <= i < |rest| && 0 <= j < |rest| && Checked(g, services, rest[i]) && g[rest[j]].IsTransient()
                  && services[rest[j]].varName == "err"
      ensures j < i && errHolds
    {
      assert inputs[i + 1] == rest[i] && inputs[j + 1] == rest[j];
    }
  }

  lemma FirstClear(g: Graph, services: map<Key, Service>, mentioned: set<string>, declared: set<string>,
                   errDeclared: bool, errHolds: bool, inputs: seq<Key>)
    requires inputs != [] && forall d :: d in inputs ==> d in g && d in services
    requires Injective(VarNames(services)) && g[inputs[0]].IsTransient()
    ensures var target, checked := services[inputs[0]].varName, services[inputs[0]].factoryErr;
            InputsClear(g, services, mentioned, declared, errDeclared, errHolds, inputs) <==>
            && target !in declared
            && (if checked then
                  target != "err" && ("err" in declared ==> errHolds) && mentioned !! declared + {target, "err"}
                else
                  errDeclared ==> target != "err")
            && InputsClear(g, services, mentioned, declared + {target}, errDeclared || checked, errHolds, inputs[1..])
  {
    hide Unmentioned, TransientsDiffer, ErrFirst;
    var first, rest := inputs[0], inputs[1..];
    FirstDiffers(g, inputs);
    FirstUnmentioned(g, services, mentioned, inputs);
    FirstErr(g, services, errHolds, inputs);
    assert forall d :: d in inputs <==> d == first || d in rest;
    forall d | d in rest && g[d].IsTransient() ensures services[d].varName != services[first].varName <==> d != first {
      assert VarNames(services)[d] == services[d].varName && VarNames(services)[first] == services[first].varName;
    }
  }

  lemma FieldClear(g: Graph, services: map<Key, Service>, mentioned: set<string>, declared: set<string>,
                   errDeclared: bool, errHolds: bool, inputs: seq<Key>)
    requires inputs != [] && (forall d :: d in inputs ==> d in g && d in services) && !g[inputs[0]].IsTransient()
    ensures InputsClear(g, services, mentioned, declared, errDeclared, errHolds, inputs)
       <==> InputsClear(g, services, mentioned, declared, errDeclared, errHolds, inputs[1..])
    ensures CallsFor(g, services, inputs) == CallsFor(g, services, inputs[1..])
  {
    hide TransientsDiffer, ErrFirst;
    var rest := inputs[1..];
    FirstDiffers(g, inputs);
    FirstErr(g, services, errHolds, inputs);
    assert forall d :: d in inputs <==> d == inputs[0] || d in rest;
    if Unmentioned(g, services, mentioned, rest) {
      forall i, j | 0 <= j <= i < |inputs| && Checked(g, services, inputs[i]) && g[inputs[j]].IsTransient()
        ensures services[inputs[j]].varName !in mentioned
      {
        assert inputs[i] == rest[i - 1] && inputs[j] == rest[j - 1];
      }
    }
    if Unmentioned(g, services, mentioned, inputs) {
      forall i, j | 0 <= j <= i < |rest| && Checked(g, services, rest[i]) && g[rest[j]].IsTransient()
        ensures services[rest[j]].varName !in mentioned
      {
        assert inputs[i + 1] == rest[i] && inputs[j + 1] == rest[j];
      }
    }
  }

  lemma {:induction false} CallsCompileExactly(g: Graph, services: map<Key, Service>, factories: map<Key, Factory>,
      mentioned: set<string>, declared: set<string>, errDeclared: bool, errHolds: bool, inputs: seq<Key>)
    requires Collected(g, services, factories) && forall d :: d in inputs ==> d in g && d in services
    ensures CallsCompile(factories, mentioned, declared, errDeclared, CallsFor(g, services, inputs), errHolds)
       <==> InputsClear(g, services, mentioned, declared, errDeclared, errHolds, inputs)
    decreases inputs
  {
    hide InputsClear, Injective;
    if inputs == [] {
      NoInputs(g, services, mentioned, declared, errDeclared, errHolds);
    } else if g[inputs[0]].IsTransient() {
      var d := inputs[0];
      var call := FactoryCall(services[d].varName, d, services[d].factoryErr);
      var body := CallsFor(g, services, inputs);
      assert body == [call] + CallsFor(g, services, inputs[1..]);
      assert body[0] == call && body[1..] == CallsFor(g, services, inputs[1..]);
      FirstClear(g, services, mentioned, declared, errDeclared, errHolds, inputs);
      CallsCompileExactly(g, services, factories, mentioned, declared + {call.target}, errDeclared || call.checked, errHolds, inputs[1..]);
    } else {
      FieldClear(g, services, mentioned, declared, errDeclared, errHolds, inputs);
      CallsCompileExactly(g, services, factories, mentioned, declared, errDeclared, errHolds, inputs[1..]);
    }
  }

  lemma NoInputs(g: Graph, services: map<Key, Service>, mentioned: set<string>, declared: set<string>, errDeclared: bool,
                 errHolds: bool)
    ensures InputsClear(g, services, mentioned, declared, errDeclared, errHolds, [])
  {
  }

  lemma {:induction false} CheckedCalls(g: Graph, services: map<Key, Service>, inputs: seq<Key>)
    requires forall d :: d in inputs ==> d in g && d in services
    ensures AnyChecked(CallsFor(g, services, inputs)) <==> exists c :: c in inputs && Checked(g, services, c)
    decreases inputs
  {
    if inputs != [] {
      var first, rest := CallFor(g, services, inputs[0]), CallsFor(g, services, inputs[1..]);
      CheckedCalls(g, services, inputs[1..]);
      AnyCheckedAppend(first, rest);
      if Checked(g, services, inputs[0]) {
        assert first[0].checked;
      }
      assert forall d :: d in inputs <==> d == inputs[0] || d in inputs[1..];
    }
  }

  lemma AnyCheckedAppend(a: seq<FactoryCall>, b: seq<FactoryCall>)
    ensures AnyChecked(a + b) <==> AnyChecked(a) || AnyChecked(b)
  {
    if i :| 0 <= i < |a| && a[i].checked {
      assert (a + b)[i].checked;
    }
    if i :| 0 <= i < |b| && b[i].checked {
      assert (a + b)[|a| + i].checked;
    }
  }

  /** The fields of Services. */
  function FieldNames(g: Graph, services: map<Key, Service>): set<string> {
    set k | k in g && k in services && !g[k].IsTransient() :: services[k].fieldName
  }

  lemma ArgumentsDefined(g: Graph, services: map<Key, Service>, inputs: seq<Key>)
    requires forall d :: d in inputs ==> d in g && d in services
    ensures forall a :: a in ArgumentsFor(g, services, inputs) ==>
              match a
              case FieldOf(n) => n in FieldNames(g, services)
              case Local(n) => n in Targets(CallsFor(g, services, inputs))
  {
    forall i | 0 <= i < |inputs| && g[inputs[i]].IsTransient()
      ensures services[inputs[i]].varName in Targets(CallsFor(g, services, inputs))
    {
      TargetsOfCalls(g, services, inputs, services[inputs[i]].varName);
    }
    forall a | a in ArgumentsFor(g, services, inputs)
      ensures match a
              case FieldOf(n) => n in FieldNames(g, services)
              case Local(n) => n in Targets(CallsFor(g, services, inputs))
    {
      var i :| 0 <= i < |inputs| && ArgumentsFor(g, services, inputs)[i] == a;
      assert a == ArgumentFor(g, services, inputs[i]) && inputs[i] in inputs;
    }
  }

  lemma FallibleReturnsError(g: Graph, services: map<Key, Service>, factories: map<Key, Factory>, key: Key)
    requires Collected(g, services, factories) && key in g && g[key].IsTransient()
    ensures g[key].fallible ==> factories[key].returnsError
  {
    CanFailUnfolds(g, key);
  }

  lemma TakenNames(g: Graph, services: map<Key, Service>, inputs: seq<Key>, name: string)
    requires forall d :: d in inputs ==> d in g && d in services
    ensures name !in {RECEIVER} + Elements(Targets(CallsFor(g, services, inputs))) <==>
            name != RECEIVER && forall d :: d in inputs && g[d].IsTransient() ==> services[d].varName != name
  {
    TargetsOfCalls(g, services, inputs, name);
  }

  /** A factory compiles exactly when its names are clear: arguments are always
      defined, results always fit, and an error always has a place. */
  lemma FactoryCompilesExactly(g: Graph, services: map<Key, Service>, factories: map<Key, Factory>, names: Names, key: Key)
    requires Collected(g, services, factories) && key in g && g[key].IsTransient()
    requires names.packages.Keys == names.mentioned.Keys == g.Keys
    ensures FactoryCompiles(g, names, FieldNames(g, services), factories, key)
       <==> FactoryClear(g, services, names, key)
  {
    hide InputsClear, CallsCompile, Targets, AnyChecked, FieldNames;
    var inputs := g[key].inputs;
    CallsCompileExactly(g, services, factories, Mentioned(names, key), {RECEIVER}, false, names.errHolds, inputs);
    ArgumentsDefined(g, services, inputs);
    FallibleReturnsError(g, services, factories, key);
    CheckedCalls(g, services, inputs);
    TakenNames(g, services, inputs, names.packages[key]);
    TakenNames(g, services, inputs, "nil");
  }

  function FactoriesOf(g: Graph, services: map<Key, Service>): map<Key, Factory>
    requires Described(g, services)
  {
    map k | k in g && g[k].IsTransient() :: FactoryFor(g, services, k)
  }
}
