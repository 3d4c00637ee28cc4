/**
  A service called err (wiring.go). A check writes `x, err := ...`, and when err is a
  variable of a service whose type is an interface that every error has, Go accepts that
  and assigns it: err is nil afterwards, while the container still has the service. This
  is the only way in which a file Go accepts can differ from the container.
  */
module ErrVariable {
  import opened Wrappers
  import opened Sequences
  import opened Container
  import opened Resolution
  import opened Wiring
  import opened Generator
  import opened WireScope
  import opened Factories
  import opened FactoryRuns
  import opened GeneratedFile

  // ----- constructors that all succeed, with the same value

  ghost predicate Constant(run: Behaviour) {
    forall calls, key, args :: run(calls, key, args) == Return(1, None)
  }

  ghost predicate AllOne(s: Store) {
    forall k :: k in s.instances ==> s.instances[k] == 1
  }

  function Given(g: Graph, key: Key): Value {
    if key in g && g[key].Instance? then g[key].value else 1
  }

  function GivenAll(g: Graph, inputs: seq<Key>): (values: seq<Value>)
    ensures |values| == |inputs|
  {
    seq(|inputs|, i requires 0 <= i < |inputs| => Given(g, inputs[i]))
  }

  lemma {:induction false} ConstResolve(g: Graph, run: Behaviour, s: Store, key: Key, stack: seq<Key>)
    requires Closed(g) && Acyclic(g) && key in g && IsPath(g, stack + [key]) && Constant(run) && AllOne(s)
    ensures var (r, s') := Resolve(g, run, s, key, stack);
            && r == Ok(Given(g, key)) && AllOne(s')
            && (g[key].IsTransient() ==>
                  s'.calls != [] && s'.calls[|s'.calls| - 1] == Call(key, GivenAll(g, g[key].inputs), Built(1)))
    decreases g.Keys - Elements(stack), 1, 0
  {
    if key in stack {
      CycleOfIsCycle(g, stack, key);
    } else if g[key].Provided? && !Ready(g, s, key) {
      assert key in g.Keys - Elements(stack) && key !in g.Keys - Elements(stack + [key]);
      ConstArguments(g, run, s, g[key].inputs, stack + [key]);
    }
  }

  lemma {:induction false} ConstArguments(g: Graph, run: Behaviour, s: Store, inputs: seq<Key>, stack: seq<Key>)
    requires Closed(g) && Acyclic(g) && IsPath(g, stack) && |stack| > 0 && Constant(run) && AllOne(s)
    requires forall j :: 0 <= j < |inputs| ==> Edge(g, stack[|stack| - 1], inputs[j])
    ensures var (r, s') := Arguments(g, run, s, inputs, stack); r == Ok(GivenAll(g, inputs)) && AllOne(s')
    decreases g.Keys - Elements(stack), 2, |inputs|
  {
    if inputs != [] {
      ExtendPath(g, stack, inputs[0]);
      ConstResolve(g, run, s, inputs[0], stack);
      ConstArguments(g, run, Resolve(g, run, s, inputs[0], stack).1, inputs[1..], stack);
      assert GivenAll(g, inputs) == [Given(g, inputs[0])] + GivenAll(g, inputs[1..]);
    }
  }

  lemma {:induction false} ConstSingletons(g: Graph, run: Behaviour, s: Store, inputs: seq<Key>)
    requires Closed(g) && Acyclic(g) && Constant(run) && AllOne(s) && forall k :: k in inputs ==> k in g
    ensures var (r, s') := Arguments(g, run, s, inputs, []); r.Ok? && AllOne(s')
    decreases inputs
  {
    if inputs != [] {
      ConstResolve(g, run, s, inputs[0], []);
      ConstSingletons(g, run, Resolve(g, run, s, inputs[0], []).1, inputs[1..]);
    }
  }

  // ----- Wire

  function Targets(body: seq<Statement>): set<string> {
    set t | t in body :: t.target
  }

  ghost predicate AnyCheck(body: seq<Statement>) {
    exists t :: t in body && t.checked
  }

  /** A statement that declares err, and a checked one after it. */
  ghost predicate Reassigns(body: seq<Statement>) {
    exists i, j :: 0 <= i < j < |body| && body[i].target == "err" && body[j].checked
  }

  ghost predicate Fitting(g: Graph, body: seq<Statement>) {
    forall t :: t in body ==> t.callee in g && g[t.callee].Provided? && g[t.callee].fallible == t.checked
  }

  lemma {:induction false} ConstBody(g: Graph, run: Behaviour, env: map<string, Value>, calls: seq<Call>,
                                     body: seq<Statement>, errDeclared: bool, aliases: map<Key, string>, errHolds: bool)
    requires BodyCompiles(env.Keys, errDeclared, body, aliases, errHolds) && Constant(run) && Fitting(g, body)
    ensures var wire := RunBody(g, run, env, calls, body).0;
            && wire.Wired? && wire.env.Keys == env.Keys + Targets(body)
            && ("err" in env && (env["err"] == NIL || AnyCheck(body)) ==> wire.env["err"] == NIL)
            && (Reassigns(body) ==> "err" in wire.env && wire.env["err"] == NIL)
    decreases |body|
  {
    if body != [] {
      var t, rest := body[0], body[1..];
      assert t in body && forall u :: u in body <==> u == t || u in rest;
      var (first, calls1) := RunStatement(g, run, env, calls, t);
      assert first == Wired(AfterCheck(env, t.checked)[t.target := 1]);
      assert first.env.Keys == env.Keys + {t.target};
      ConstBody(g, run, first.env, calls1, rest, errDeclared || t.checked, aliases, errHolds);
      ReassignsFirst(body);
      hide Reassigns;
    }
  }

  lemma ReassignsFirst(body: seq<Statement>)
    requires body != []
    ensures Reassigns(body) <==> (body[0].target == "err" && AnyCheck(body[1..])) || Reassigns(body[1..])
  {
    var rest := body[1..];
    if i, j :| 0 <= i < j < |body| && body[i].target == "err" && body[j].checked {
      assert body[j] == rest[j - 1];
      if i > 0 {
        assert body[i] == rest[i - 1];
      }
    }
    if body[0].target == "err" && AnyCheck(rest) {
      var t :| t in rest && t.checked;
      var j :| 0 <= j < |rest| && rest[j] == t;
      assert body[j + 1] == t;
    }
    if i, j :| 0 <= i < j < |rest| && rest[i].target == "err" && rest[j].checked {
      assert body[i + 1] == rest[i] && body[j + 1] == rest[j];
    }
  }

  lemma EmittedFits(g: Graph, vars: map<Key, string>, out: seq<Key>)
    requires Named(g, vars) && forall k :: k in out ==> k in g && g[k].Provided? && g[k].IsBuilt()
    ensures Fitting(g, EmitAll(g, vars, out))
    ensures forall k :: k in out ==> vars[k] in Targets(EmitAll(g, vars, out))
    ensures AnyCheck(EmitAll(g, vars, out)) <==> exists k :: k in out && IsChecked(g, k)
  {
    var body := EmitAll(g, vars, out);
    forall i | 0 <= i < |out| ensures body[i] == Emit(g, vars, out[i]) && body[i] in body && out[i] in out {
    }
    forall k | k in out ensures vars[k] in Targets(body) && Emit(g, vars, k) in body {
      var i :| 0 <= i < |out| && out[i] == k;
      assert body[i] in body;
    }
    if t :| t in body && t.checked {
      var i :| 0 <= i < |body| && body[i] == t;
      assert IsChecked(g, out[i]) && out[i] in out;
    }
    if k :| k in out && IsChecked(g, k) {
      assert Emit(g, vars, k).checked;
    }
  }

  lemma WireRuns(g: Graph, vars: map<Key, string>, names: Names, keys: seq<Key>, run: Behaviour)
    requires Compilable(g, vars) && Elements(keys) == g.Keys && Constant(run) && forall k :: k in keys ==> k in g
    requires WireCompiles(g, vars, names, EmitAll(g, vars, Emission(g, keys)))
    ensures var body := EmitAll(g, vars, Emission(g, keys));
            var wire := RunBody(g, run, Parameters(g, vars), [], body).0;
            && wire.Wired? && (forall k :: k in g && !g[k].IsTransient() ==> vars[k] in wire.env)
            && (("err" in Parameters(g, vars) && AnyCheck(body)) || Reassigns(body) ==>
                  "err" in wire.env && wire.env["err"] == NIL)
  {
    hide Reassigns, AnyCheck, BodyCompiles, RunBody, Emission, Fitting, Injective, Targets, Closed, Acyclic, SingletonsOnly;
    var out := Emission(g, keys);
    EmittedAll(g, keys);
    EmittedFits(g, vars, out);
    ParametersKeys(g, vars);
    ConstBody(g, run, Parameters(g, vars), [], EmitAll(g, vars, out), false, names.packages, names.errHolds);
  }

  /** When everything succeeds, a service called err beside a check ends up nil. */
  lemma WireReassigns(g: Graph, vars: map<Key, string>, names: Names, keys: seq<Key>, run: Behaviour, key: Key)
    requires Compilable(g, vars) && Elements(keys) == g.Keys && names.packages.Keys == g.Keys && Constant(run)
    requires forall k :: k in keys ==> k in g
    requires WireCompiles(g, vars, names, EmitAll(g, vars, Emission(g, keys)))
    requires key in g && !g[key].IsTransient() && key in vars && vars[key] == "err" && SomeChecked(g)
    ensures var wire := RunBody(g, run, Parameters(g, vars), [], EmitAll(g, vars, Emission(g, keys))).0;
            wire.Wired? && "err" in wire.env && wire.env["err"] == NIL
  {
    hide WireClear, Reassigns, AnyCheck, WireCompiles, RunBody, Emission, Injective, Parameters;
    var out := Emission(g, keys);
    EmittedAll(g, keys);
    EmittedFits(g, vars, out);
    WireCompilesExactly(g, vars, names, keys);
    WireRuns(g, vars, names, keys, run);
    ParametersKeys(g, vars);
    var k :| IsChecked(g, k);
    assert k in out;
    if g[key].IsBuilt() {
      ErrComesFirst(g, vars, names, out, key, k);
    }
  }

  lemma EmittedAll(g: Graph, keys: seq<Key>)
    requires Closed(g) && Acyclic(g) && SingletonsOnly(g) && Elements(keys) == g.Keys
    ensures forall k :: k in keys ==> k in g
    ensures forall k :: k in Emission(g, keys) <==> k in g && g[k].Provided? && g[k].IsBuilt()
  {
    EmissionInOrder(g, keys);
  }

  lemma ParametersKeys(g: Graph, vars: map<Key, string>)
    requires Named(g, vars) && Injective(vars)
    ensures forall k :: k in g && g[k].Instance? ==> vars[k] in Parameters(g, vars)
  {
  }

  lemma ErrComesFirst(g: Graph, vars: map<Key, string>, names: Names, out: seq<Key>, key: Key, k: Key)
    requires Named(g, vars) && names.packages.Keys == g.Keys && forall j :: j in out ==> j in g && g[j].Provided?
    requires WireClear(g, vars, names.packages, names.errHolds, out)
    requires key in out && vars[key] == "err" && k in out && IsChecked(g, k)
    ensures Reassigns(EmitAll(g, vars, out))
  {
    var body := EmitAll(g, vars, out);
    var a :| 0 <= a < |out| && out[a] == key;
    var b :| 0 <= b < |out| && out[b] == k;
    assert CanFault(g, out[b]);
    assert a < b;
    assert body[a].target == "err" && body[b].checked;
  }

  /** What WireIsResolve concludes. */
  ghost predicate WireResolves(g: Graph, vars: map<Key, string>, run: Behaviour, keys: seq<Key>)
    requires Compilable(g, vars) && forall k :: k in keys ==> k in g
  {
    var (wire, calls) := RunBody(g, run, Parameters(g, vars), [], EmitAll(g, vars, Emission(g, keys)));
    var (r, s) := ResolveSingletons(g, run, keys);
    && calls == s.calls
    && (r.Err? ==> wire.Failed? && Origin(r.error) == Some((wire.callee, wire.fault)))
    && (r.Ok? ==>
          && wire.Wired?
          && forall k :: k in g && !g[k].IsTransient() ==>
               && Ready(g, s, k)
               && vars[k] in wire.env && wire.env[vars[k]] == InstanceOf(g, s, k))
  }

  /** What `Instance` accepts: no nil. */
  ghost predicate NoNil(g: Graph) {
    forall k :: k in g && g[k].Instance? ==> g[k].value != NIL
  }

  lemma AnyConstant() returns (run: Behaviour)
    ensures Constant(run)
  {
    run := (calls, key, args) => Return(1, None);
  }

  /** When everything succeeds, every singleton has a value that is not nil. */
  lemma ConstInstances(g: Graph, run: Behaviour, keys: seq<Key>, key: Key)
    requires Closed(g) && Acyclic(g) && NoNil(g) && Constant(run) && Elements(keys) == g.Keys
    requires (forall k :: k in keys ==> k in g) && key in g && !g[key].IsTransient()
    ensures var (r, s) := ResolveSingletons(g, run, keys);
            r.Ok? && AllOne(s) && (Ready(g, s, key) ==> InstanceOf(g, s, key) != NIL)
            && Resolve(g, run, s, key, []).0 == Ok(Given(g, key)) && Given(g, key) != NIL
  {
    ConstSingletons(g, run, Store(map[], []), Singletons(g, keys));
    ConstResolve(g, run, ResolveSingletons(g, run, keys).1, key, []);
  }

  /** Compiler correctness holds of every behaviour of the constructors exactly when no
      singleton is called err beside a checked statement. */
  lemma WireIsResolveExactly(g: Graph, vars: map<Key, string>, names: Names, keys: seq<Key>)
    requires Compilable(g, vars) && Elements(keys) == g.Keys && names.packages.Keys == g.Keys && NoNil(g)
    requires forall k :: k in keys ==> k in g
    requires WireCompiles(g, vars, names, EmitAll(g, vars, Emission(g, keys)))
    ensures ErrFree(g, vars) <==> forall run :: WireResolves(g, vars, run, keys)
  {
    hide RunBody, ResolveSingletons, WireCompiles, Emission, Parameters;
    if ErrFree(g, vars) {
      forall run ensures WireResolves(g, vars, run, keys) {
        WireIsResolve(g, vars, run, keys);
      }
    } else {
      var k, j :| IsChecked(g, k) && j in g && j in vars && !g[j].IsTransient() && vars[j] == "err";
      var run := AnyConstant();
      WireReassigns(g, vars, names, keys, run, j);
      ConstInstances(g, run, keys, j);
      assert !WireResolves(g, vars, run, keys);
    }
  }

  // ----- factories

  predicate HasCheck(g: Graph, services: map<Key, Service>, inputs: seq<Key>) {
    exists c :: c in inputs && Checked(g, services, c)
  }

  function VarsOf(g: Graph, services: map<Key, Service>, inputs: seq<Key>): set<string> {
    set d | d in inputs && d in g && d in services && g[d].IsTransient() :: services[d].varName
  }

  /** What the calls of a factory leave when everything succeeds: every local, and err
      nil if a check came after it. */
  ghost predicate CallsEnd(g: Graph, services: map<Key, Service>, inputs: seq<Key>, locals: map<string, Value>,
                           made: Result<map<string, Value>, Stop>)
  {
    && made.Ok? && made.value.Keys == locals.Keys + VarsOf(g, services, inputs)
    && ("err" in locals && locals["err"] == NIL ==> made.value["err"] == NIL)
    && (HasCheck(g, services, inputs) && "err" in made.value ==> made.value["err"] == NIL)
  }

  lemma CallFirst(g: Graph, services: map<Key, Service>, mentioned: set<string>, errHolds: bool, inputs: seq<Key>,
                  locals: map<string, Value>, errDeclared: bool, made: Result<map<string, Value>, Stop>)
    requires inputs != [] && (forall d :: d in inputs ==> d in g && d in services) && g[inputs[0]].IsTransient()
    requires var d := services[inputs[0]];
             InputsClear(g, services, mentioned, {RECEIVER} + locals.Keys + {d.varName}, errDeclared || d.factoryErr,
                         errHolds, inputs[1..])
    requires var d := services[inputs[0]];
             && d.varName !in locals && (d.factoryErr ==> d.varName != "err")
             && CallsEnd(g, services, inputs[1..], AfterCheck(locals, d.factoryErr)[d.varName := 1], made)
    ensures CallsEnd(g, services, inputs, locals, made)
  {
    hide Unmentioned, TransientsDiffer, ErrFirst;
    var first, rest := inputs[0], inputs[1..];
    assert forall d :: d in inputs <==> d == first || d in rest;
    assert VarsOf(g, services, inputs) == {services[first].varName} + VarsOf(g, services, rest);
    if HasCheck(g, services, inputs) && !HasCheck(g, services, rest) {
      assert Checked(g, services, first);
      assert "err" !in VarsOf(g, services, rest);
    }
  }

  lemma {:induction false} ConstFactory(g: Graph, services: map<Key, Service>, run: Behaviour, names: Names,
      fields: map<string, Value>, calls: seq<Call>, key: Key, stack: seq<Key>)
    requires Described(g, services) && Collected(g, services, FactoriesOf(g, services))
    requires FactoriesCompile(g, services, FactoriesOf(g, services), names) && fields.Keys == FieldNames(g, services)
    requires Constant(run) && key in g && g[key].IsTransient() && IsPath(g, stack + [key])
    ensures var (made, calls') := RunFactory(g, run, names, FactoriesOf(g, services), fields, calls, key, stack);
            && made == Ok(1) && LastCall(g, services, calls', key)
    decreases g.Keys - Elements(stack), 1, 0
  {
    hide RunFactory, RunCalls, LastCall, CallsEnd, InputsClear, FactoryCompiles, Mentioned;
    if key in stack {
      CycleOfIsCycle(g, stack, key);
    }
    assert key in g.Keys - Elements(stack) && key !in g.Keys - Elements(stack + [key]);
    var inputs := g[key].inputs;
    InputsOfKey(g, services, key, stack);
    CompiledIsClear(g, services, names, key);
    var none: map<string, Value> := map[];
    assert {RECEIVER} + none.Keys == {RECEIVER};
    ConstCalls(g, services, run, names, Mentioned(names, key), fields, calls, inputs, none, false, stack + [key]);
    FactoryEnds(g, services, run, names, fields, calls, key, stack);
  }

  /** The last call is the constructor's, with nil for an input called err beside a check. */
  ghost predicate LastCall(g: Graph, services: map<Key, Service>, calls: seq<Call>, key: Key)
    requires key in g && g[key].Provided?
  {
    && calls != [] && calls[|calls| - 1].key == key && |calls[|calls| - 1].args| == |g[key].inputs|
    && (HasCheck(g, services, g[key].inputs) ==>
          forall i :: 0 <= i < |g[key].inputs| ==>
            var d := g[key].inputs[i];
            d in g && d in services && g[d].IsTransient() && services[d].varName == "err" ==>
              calls[|calls| - 1].args[i] == NIL)
  }

  lemma CompiledIsClear(g: Graph, services: map<Key, Service>, names: Names, key: Key)
    requires Described(g, services) && Collected(g, services, FactoriesOf(g, services))
    requires FactoriesCompile(g, services, FactoriesOf(g, services), names) && key in g && g[key].IsTransient()
    ensures InputsClear(g, services, Mentioned(names, key), {RECEIVER}, false, names.errHolds, g[key].inputs)
  {
    hide FactoryCompiles, InputsClear;
    FactoryCompilesExactly(g, services, FactoriesOf(g, services), names, key);
  }

  lemma FactoryEnds(g: Graph, services: map<Key, Service>, run: Behaviour, names: Names, fields: map<string, Value>,
                    calls: seq<Call>, key: Key, stack: seq<Key>)
    requires Described(g, services) && key in g && g[key].IsTransient() && key !in stack && Constant(run)
    requires FactoryCompiles(g, names, fields.Keys, FactoriesOf(g, services), key) && fields.Keys == FieldNames(g, services)
    requires forall d :: d in g[key].inputs ==> d in g && d in services
    requires var made := RunCalls(g, run, names, FactoriesOf(g, services), fields, calls,
                                  CallsFor(g, services, g[key].inputs), map[], stack + [key]).0;
             CallsEnd(g, services, g[key].inputs, map[], made)
    ensures var (made, calls') := RunFactory(g, run, names, FactoriesOf(g, services), fields, calls, key, stack);
            && made == Ok(1) && LastCall(g, services, calls', key)
  {
    var f := FactoryFor(g, services, key);
    var (locals, calls1) := RunCalls(g, run, names, FactoriesOf(g, services), fields, calls, f.body, map[], stack + [key]);
    LocalsDefine(g, services, fields, locals.value, g[key].inputs);
    var args := ArgumentValues(fields, locals.value, f.args);
    hide FactoryCompiles, RunCalls;
  }

  lemma LocalsDefine(g: Graph, services: map<Key, Service>, fields: map<string, Value>, locals: map<string, Value>,
                     inputs: seq<Key>)
    requires forall d :: d in inputs ==> d in g && d in services
    requires fields.Keys == FieldNames(g, services) && VarsOf(g, services, inputs) <= locals.Keys
    ensures Defined(fields, locals, ArgumentsFor(g, services, inputs))
    ensures var values := ArgumentValues(fields, locals, ArgumentsFor(g, services, inputs));
            && |values| == |inputs|
            && forall i :: 0 <= i < |inputs| && g[inputs[i]].IsTransient() ==>
                 services[inputs[i]].varName in locals && values[i] == locals[services[inputs[i]].varName]
  {
    var args := ArgumentsFor(g, services, inputs);
    forall i | 0 <= i < |inputs| ensures args[i] == ArgumentFor(g, services, inputs[i])
      && ArgumentValue(fields, locals, args[i]).Some?
      && (g[inputs[i]].IsTransient() ==> services[inputs[i]].varName in locals)
    {
      assert inputs[i] in inputs;
      if g[inputs[i]].IsTransient() {
        assert services[inputs[i]].varName in VarsOf(g, services, inputs);
      }
    }
    forall a | a in args ensures ArgumentValue(fields, locals, a).Some? {
      var i :| 0 <= i < |args| && args[i] == a;
    }
  }

  lemma {:induction false} ConstCalls(g: Graph, services: map<Key, Service>, run: Behaviour, names: Names,
      mentioned: set<string>, fields: map<string, Value>, calls: seq<Call>, inputs: seq<Key>, locals: map<string, Value>,
      errDeclared: bool, stack: seq<Key>)
    requires Described(g, services) && Collected(g, services, FactoriesOf(g, services))
    requires FactoriesCompile(g, services, FactoriesOf(g, services), names) && fields.Keys == FieldNames(g, services)
    requires Constant(run) && forall d :: d in inputs ==> d in g && d in services && IsPath(g, stack + [d])
    requires InputsClear(g, services, mentioned, {RECEIVER} + locals.Keys, errDeclared, names.errHolds, inputs)
    ensures var made := RunCalls(g, run, names, FactoriesOf(g, services), fields, calls, CallsFor(g, services, inputs),
                                 locals, stack).0;
            CallsEnd(g, services, inputs, locals, made)
    decreases g.Keys - Elements(stack), 2, |inputs|
  {
    hide FactoryCompiles, FactoriesCompile, InputsClear, CallsEnd, RunFactory, RunCalls, CallsFor;
    if inputs == [] {
      NoCalls(g, services, run, names, fields, calls, locals, stack);
    } else if g[inputs[0]].IsTransient() {
      var d := inputs[0];
      var call := FactoryCall(services[d].varName, d, services[d].factoryErr);
      CallsOfFirst(g, services, inputs);
      FirstClear(g, services, mentioned, {RECEIVER} + locals.Keys, errDeclared, names.errHolds, inputs);
      ConstFactory(g, services, run, names, fields, calls, d, stack);
      var calls1 := RunFactory(g, run, names, FactoriesOf(g, services), fields, calls, d, stack).1;
      var locals1 := AfterCheck(locals, call.checked)[call.target := 1];
      assert {RECEIVER} + locals1.Keys == {RECEIVER} + locals.Keys + {call.target};
      ConstCalls(g, services, run, names, mentioned, fields, calls1, inputs[1..], locals1, errDeclared || call.checked, stack);
      var made := RunCalls(g, run, names, FactoriesOf(g, services), fields, calls1, CallsFor(g, services, inputs[1..]),
                           locals1, stack).0;
      CallRuns(g, run, names, FactoriesOf(g, services), fields, calls, call, CallsFor(g, services, inputs[1..]), locals, stack);
      CallFirst(g, services, mentioned, names.errHolds, inputs, locals, errDeclared, made);
    } else {
      FieldClear(g, services, mentioned, {RECEIVER} + locals.Keys, errDeclared, names.errHolds, inputs);
      ConstCalls(g, services, run, names, mentioned, fields, calls, inputs[1..], locals, errDeclared, stack);
      FieldEnds(g, services, inputs, locals,
                RunCalls(g, run, names, FactoriesOf(g, services), fields, calls, CallsFor(g, services, inputs[1..]), locals, stack).0);
    }
  }

  lemma NoCalls(g: Graph, services: map<Key, Service>, run: Behaviour, names: Names, fields: map<string, Value>,
                calls: seq<Call>, locals: map<string, Value>, stack: seq<Key>)
    requires Described(g, services)
    ensures var made := RunCalls(g, run, names, FactoriesOf(g, services), fields, calls, CallsFor(g, services, []),
                                 locals, stack).0;
            CallsEnd(g, services, [], locals, made)
  {
  }

  lemma CallsOfFirst(g: Graph, services: map<Key, Service>, inputs: seq<Key>)
    requires inputs != [] && (forall d :: d in inputs ==> d in g && d in services) && g[inputs[0]].IsTransient()
    ensures var d := inputs[0];
            CallsFor(g, services, inputs) ==
            [FactoryCall(services[d].varName, d, services[d].factoryErr)] + CallsFor(g, services, inputs[1..])
  {
  }

  /** A call that succeeds. */
  lemma CallRuns(g: Graph, run: Behaviour, names: Names, factories: map<Key, Factory>, fields: map<string, Value>,
                 calls: seq<Call>, call: FactoryCall, rest: seq<FactoryCall>, locals: map<string, Value>, stack: seq<Key>)
    requires call.target !in locals
    requires RunFactory(g, run, names, factories, fields, calls, call.dependency, stack).0 == Ok(1)
    ensures RunCalls(g, run, names, factories, fields, calls, [call] + rest, locals, stack) ==
            RunCalls(g, run, names, factories, fields,
                     RunFactory(g, run, names, factories, fields, calls, call.dependency, stack).1, rest,
                     AfterCheck(locals, call.checked)[call.target := 1], stack)
  {
    hide RunFactory;
    assert ([call] + rest)[1..] == rest;
  }

  lemma FieldEnds(g: Graph, services: map<Key, Service>, inputs: seq<Key>, locals: map<string, Value>,
                  made: Result<map<string, Value>, Stop>)
    requires inputs != [] && inputs[0] in g && !g[inputs[0]].IsTransient()
    requires CallsEnd(g, services, inputs[1..], locals, made)
    ensures CallsEnd(g, services, inputs, locals, made)
  {
    assert forall d :: d in inputs <==> d == inputs[0] || d in inputs[1..];
  }

  // ----- the file as a whole

  lemma AskOne(g: Graph, services: map<Key, Service>, run: Behaviour, names: Names, fields: map<string, Value>,
               calls: seq<Call>, key: Key)
    requires Described(g, services) && key in g
    ensures var (made, calls1) := Ask(g, services, run, names, fields, calls, key);
            AskEach(g, services, run, names, fields, calls, [key]) == ([made], calls1)
  {
    hide Ask;
    var (made, calls1) := Ask(g, services, run, names, fields, calls, key);
    assert [key][1..] == [] && AskEach(g, services, run, names, fields, calls1, []) == ([], calls1);
    assert [made] + [] == [made];
  }

  lemma ResolveOne(g: Graph, run: Behaviour, s: Store, key: Key)
    ensures var (r, s1) := Resolve(g, run, s, key, []); ResolveEach(g, run, s, [key]) == ([r], s1)
  {
    hide Resolve;
    var (r, s1) := Resolve(g, run, s, key, []);
    assert [key][1..] == [] && ResolveEach(g, run, s1, []) == ([], s1);
    assert [r] + [] == [r];
  }

  /** One service that Services and the container do not give alike. */
  lemma DiffersAt(g: Graph, services: map<Key, Service>, names: Names, keys: seq<Key>, run: Behaviour, key: Key)
    requires Compilable(g, VarNames(services)) && FieldsApart(services) && Described(g, services)
    requires (forall k :: k in keys ==> k in g) && key in g
    requires var (wire, calls) := RunWire(g, services, run, keys);
             var (r, s) := ResolveSingletons(g, run, keys);
             r.Ok? && (wire.Ok? ==>
                         var (made, calls1) := Ask(g, services, run, names, wire.value, calls, key);
                         var (one, s1) := Resolve(g, run, s, key, []);
                         calls1 != s1.calls || !SameEnd(made, one))
    ensures (forall k :: k in [key] ==> k in g) && !BehavesAsContainer(g, services, names, keys, run, [key])
  {
    hide RunWire, ResolveSingletons, Ask, AskEach, Resolve, ResolveEach, SameEnd, Compilable;
    var (wire, calls) := RunWire(g, services, run, keys);
    var (r, s) := ResolveSingletons(g, run, keys);
    if wire.Ok? {
      AskOne(g, services, run, names, wire.value, calls, key);
      ResolveOne(g, run, s, key);
      var made, one := Ask(g, services, run, names, wire.value, calls, key).0, Resolve(g, run, s, key, []).0;
      assert AllSameEnd([made], [one]) ==> SameEnd([made][0], [one][0]);
    }
  }

  /** A singleton called err beside a checked statement: its field is nil. */
  lemma FieldDiffers(g: Graph, services: map<Key, Service>, names: Names, keys: seq<Key>, run: Behaviour, key: Key)
    requires Compilable(g, VarNames(services)) && FieldsApart(services) && Described(g, services) && NoNil(g)
    requires Elements(keys) == g.Keys == services.Keys == names.packages.Keys && forall k :: k in keys ==> k in g
    requires WireCompiles(g, VarNames(services), names, EmitAll(g, VarNames(services), Emission(g, keys)))
    requires key in g && !g[key].IsTransient() && services[key].varName == "err" && SomeChecked(g) && Constant(run)
    ensures !BehavesAsContainer(g, services, names, keys, run, [key])
  {
    hide RunWire, ResolveSingletons, WireCompiles, Resolve, Compilable, BehavesAsContainer;
    CompilableIsSound(g, VarNames(services));
    FieldIsNil(g, services, names, keys, run, key);
    ConstInstances(g, run, keys, key);
    DiffersAt(g, services, names, keys, run, key);
  }

  lemma FieldIsNil(g: Graph, services: map<Key, Service>, names: Names, keys: seq<Key>, run: Behaviour, key: Key)
    requires Compilable(g, VarNames(services)) && FieldsApart(services)
    requires Elements(keys) == g.Keys == services.Keys == names.packages.Keys && forall k :: k in keys ==> k in g
    requires (forall k :: k in Emission(g, keys) ==> k in g && g[k].Provided?)
    requires WireCompiles(g, VarNames(services), names, EmitAll(g, VarNames(services), Emission(g, keys)))
    requires key in g && !g[key].IsTransient() && services[key].varName == "err" && SomeChecked(g) && Constant(run)
    ensures var wire := RunWire(g, services, run, keys).0;
            && wire.Ok? && services[key].fieldName in wire.value && wire.value[services[key].fieldName] == NIL
  {
    hide WireCompiles, RunBody, Emission, Parameters, SomeChecked;
    var vars := VarNames(services);
    assert forall k :: k in services ==> vars[k] == services[k].varName;
    WireReassigns(g, vars, names, keys, run, key);
    WireRuns(g, vars, names, keys, run);
    var env := RunBody(g, run, Parameters(g, vars), [], EmitAll(g, vars, Emission(g, keys))).0.env;
    FieldFromVariable(g, services, env, key);
  }

  lemma CompilableIsSound(g: Graph, vars: map<Key, string>)
    requires Compilable(g, vars)
    ensures Closed(g) && Acyclic(g)
  {
  }

  lemma FieldFromVariable(g: Graph, services: map<Key, Service>, env: map<string, Value>, key: Key)
    requires FieldsApart(services) && key in g && key in services && !g[key].IsTransient()
    requires forall k :: k in g && k in services && !g[k].IsTransient() ==> services[k].varName in env
    ensures var fields := ServicesOf(g, services, env);
            services[key].fieldName in fields && fields[services[key].fieldName] == env[services[key].varName]
  {
    assert services[key].fieldName in FieldNames(g, services);
  }

  /** A factory with a local called err beside a checked call: its constructor gets nil. */
  lemma FactoryDiffers(g: Graph, services: map<Key, Service>, names: Names, keys: seq<Key>, run: Behaviour, key: Key)
    requires Runnable(g, VarNames(services)) && FieldsApart(services) && Described(g, services)
    requires Collected(g, services, FactoriesOf(g, services))
    requires FactoriesCompile(g, services, FactoriesOf(g, services), names)
    requires Elements(keys) == g.Keys == services.Keys && (forall k :: k in keys ==> k in g) && Constant(run)
    requires key in g && g[key].IsTransient() && !ErrFreeInputs(g, services, g[key].inputs)
    ensures !BehavesAsContainer(g, services, names, keys, run, [key])
  {
    hide RunWire, ResolveSingletons, RunFactory, Resolve, FactoriesCompile, Collected, Runnable, BehavesAsContainer,
      LastCall, ErrFreeInputs, GivenAll;
    RunnableIsSound(g, VarNames(services));
    WireSettles(g, services, run, keys);
    var (wire, calls) := RunWire(g, services, run, keys);
    var (r, s) := ResolveSingletons(g, run, keys);
    AllSingletonsOne(g, run, keys);
    assert IsPath(g, [] + [key]);
    ConstFactory(g, services, run, names, wire.value, calls, key, []);
    ConstResolve(g, run, s, key, []);
    NilArgument(g, services, Ask(g, services, run, names, wire.value, calls, key).1, Resolve(g, run, s, key, []).1.calls, key);
    DiffersAt(g, services, names, keys, run, key);
  }

  lemma NilArgument(g: Graph, services: map<Key, Service>, calls: seq<Call>, calls': seq<Call>, key: Key)
    requires key in g && g[key].Provided? && !ErrFreeInputs(g, services, g[key].inputs)
    requires LastCall(g, services, calls, key)
    requires calls' != [] && calls'[|calls'| - 1] == Call(key, GivenAll(g, g[key].inputs), Built(1))
    ensures calls != calls'
  {
    var inputs := g[key].inputs;
    var c, d :| c in inputs && Checked(g, services, c) && d in inputs && d in g && d in services && g[d].IsTransient()
                && services[d].varName == "err";
    var i :| 0 <= i < |inputs| && inputs[i] == d;
    assert GivenAll(g, inputs)[i] == Given(g, d) == 1;
  }

  lemma RunnableIsSound(g: Graph, vars: map<Key, string>)
    requires Runnable(g, vars)
    ensures Compilable(g, vars) && Closed(g) && Acyclic(g)
  {
  }

  lemma AllSingletonsOne(g: Graph, run: Behaviour, keys: seq<Key>)
    requires Closed(g) && Acyclic(g) && Constant(run) && forall k :: k in keys ==> k in g
    ensures var (r, s) := ResolveSingletons(g, run, keys); r.Ok? && AllOne(s)
  {
    ConstSingletons(g, run, Store(map[], []), Singletons(g, keys));
  }

  /** The condition is exact: a file Go accepts behaves as the container, for every
      behaviour of the constructors and any services asked for, if and only if no check
      assigns a service. */
  lemma GeneratedIsContainerExactly(g: Graph, reserved: set<string>, naming: Naming, keys: seq<Key>,
                                    services: map<Key, Service>, imports: map<string, string>, names: Names)
    requires Accepted(g, reserved, naming, keys, services, imports) && names.packages.Keys == names.mentioned.Keys == g.Keys
    requires Described(g, services) && (forall k :: k in keys ==> k in g) && NoNil(g)
    requires FileCompiles(g, services, names, keys)
    ensures FieldsApart(services)
    ensures FileErrFree(g, services) <==>
            forall run: Behaviour, asked: seq<Key> :: (forall k :: k in asked ==> k in g) ==>
              BehavesAsContainer(g, services, names, keys, run, asked)
  {
    hide BehavesAsContainer, WireCompiles, FactoriesCompile, Collected, FieldsApart, Compilable, FileErrFree, VarsChosen,
      FieldsDiffer, FieldsNamed, FactoriesMarked, DistinctNames;
    AcceptedIsCollected(g, reserved, naming, keys, services, imports);
    if FileErrFree(g, services) {
      forall run: Behaviour, asked: seq<Key> | forall k :: k in asked ==> k in g
        ensures BehavesAsContainer(g, services, names, keys, run, asked)
      {
        GeneratedIsContainer(g, reserved, naming, keys, services, imports, names, run, asked);
      }
    } else {
      var run := AnyConstant();
      var key := SomeDifference(g, services, names, keys, run);
      assert forall k :: k in [key] ==> k in g;
    }
  }

  lemma SomeDifference(g: Graph, services: map<Key, Service>, names: Names, keys: seq<Key>, run: Behaviour)
    returns (key: Key)
    requires Compilable(g, VarNames(services)) && FieldsApart(services) && Described(g, services) && NoNil(g)
    requires Collected(g, services, FactoriesOf(g, services))
    requires Elements(keys) == g.Keys == services.Keys == names.packages.Keys && forall k :: k in keys ==> k in g
    requires FileCompiles(g, services, names, keys) && !FileErrFree(g, services) && Constant(run)
    ensures key in g && !BehavesAsContainer(g, services, names, keys, run, [key])
  {
    hide BehavesAsContainer, WireCompiles, FactoriesCompile, Collected, FieldsApart, Compilable, ErrFreeInputs;
    var vars := VarNames(services);
    if !ErrFree(g, vars) {
      var k, j :| IsChecked(g, k) && j in g && j in vars && !g[j].IsTransient() && vars[j] == "err";
      key := j;
      FieldDiffers(g, services, names, keys, run, key);
    } else {
      key :| key in g && g[key].IsTransient() && !ErrFreeInputs(g, services, g[key].inputs);
      FactoryDiffers(g, services, names, keys, run, key);
    }
  }
}
