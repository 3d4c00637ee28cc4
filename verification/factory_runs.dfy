/**
  What the factory methods of the generated file do (wiring.go), and the proof that
  a program using the generated Services gets what it would get from the container.
  */
module FactoryRuns {
  import opened Wrappers
  import opened Sequences
  import opened Container
  import opened Resolution
  import opened Wiring
  import opened Generator
  import opened WireScope
  import opened Factories

  // ---------------------------------------------------------------------------
  // Running a factory
  // ---------------------------------------------------------------------------

  datatype Stop = FromCallee(callee: Key, fault: Fault) | DoesNotCompile

  function ArgumentValue(fields: map<string, Value>, locals: map<string, Value>, a: Argument): Option<Value> {
    match a
    case FieldOf(n) => if n in fields then Some(fields[n]) else None
    case Local(n) => if n in locals then Some(locals[n]) else None
  }

  predicate Defined(fields: map<string, Value>, locals: map<string, Value>, args: seq<Argument>) {
    forall a :: a in args ==> ArgumentValue(fields, locals, a).Some?
  }

  function ArgumentValues(fields: map<string, Value>, locals: map<string, Value>, args: seq<Argument>): seq<Value>
    requires Defined(fields, locals, args)
  {
    seq(|args|, i requires 0 <= i < |args| => assert args[i] in args; ArgumentValue(fields, locals, args[i]).value)
  }

  /** Calling `s.NewX()`, if Go accepts it. */
  function RunFactory(g: Graph, run: Behaviour, names: Names, factories: map<Key, Factory>,
                      fields: map<string, Value>,
                      calls: seq<Call>, key: Key, stack: seq<Key>): (Result<Value, Stop>, seq<Call>)
    decreases g.Keys - Elements(stack), 1, 0
  {
    if key in stack || key !in g || !FactoryCompiles(g, names, fields.Keys, factories, key) then
      (Err(DoesNotCompile), calls)
    else
      assert key in g.Keys - Elements(stack) && key !in g.Keys - Elements(stack + [key]);
      var f := factories[key];
      var (locals, calls1) := RunCalls(g, run, names, factories, fields, calls, f.body, map[], stack + [key]);
      if locals.Err? then (Err(locals.error), calls1)
      else if !Defined(fields, locals.value, f.args) then (Err(DoesNotCompile), calls1)
      else
        var (outcome, s) := Construct(run, Store(map[], calls1), key, g[key].fallible,
                                      ArgumentValues(fields, locals.value, f.args));
        match outcome
        case Built(value) => (Ok(value), s.calls)
        case Faulted(fault) => (Err(FromCallee(key, fault)), s.calls)
  }

  function RunCalls(g: Graph, run: Behaviour, names: Names, factories: map<Key, Factory>,
                    fields: map<string, Value>,
                    calls: seq<Call>, body: seq<FactoryCall>, locals: map<string, Value>, stack: seq<Key>)
    : (Result<map<string, Value>, Stop>, seq<Call>)
    decreases g.Keys - Elements(stack), 2, |body|
  {
    if body == [] then (Ok(locals), calls)
    else
      var c := body[0];
      if c.target in locals then (Err(DoesNotCompile), calls)
      else
        var (made, calls1) := RunFactory(g, run, names, factories, fields, calls, c.dependency, stack);
        if made.Err? then (Err(made.error), calls1)
        else
          RunCalls(g, run, names, factories, fields, calls1, body[1..],
                   AfterCheck(locals, c.checked)[c.target := made.value], stack)
  }

  // ---------------------------------------------------------------------------
  // A factory does what resolve does
  // ---------------------------------------------------------------------------

  /** After Wire: every singleton is ready and its field holds the instance. */
  ghost predicate Settled(g: Graph, services: map<Key, Service>, s: Store, fields: map<string, Value>) {
    && fields.Keys == FieldNames(g, services)
    && forall k :: k in g && k in services && !g[k].IsTransient() ==>
         && Ready(g, s, k)
         && services[k].fieldName in fields && fields[services[k].fieldName] == InstanceOf(g, s, k)
  }

  ghost predicate SameEnd(made: Result<Value, Stop>, r: Resolved) {
    match r
    case Ok(value) => made == Ok(value)
    case Err(e) => made.Err? && made.error.FromCallee? && Origin(e) == Some((made.error.callee, made.error.fault))
  }

  /** Go accepts every factory. */
  ghost predicate FactoriesCompile(g: Graph, services: map<Key, Service>, factories: map<Key, Factory>, names: Names) {
    && names.packages.Keys == names.mentioned.Keys == g.Keys
    && forall k :: k in g && g[k].IsTransient() ==>
         FactoryCompiles(g, names, FieldNames(g, services), factories, k)
  }

  /** No transient input is called err beside one whose factory can fail. */
  ghost predicate ErrFreeInputs(g: Graph, services: map<Key, Service>, inputs: seq<Key>) {
    forall c, d :: c in inputs && Checked(g, services, c) && d in inputs && d in g && d in services && g[d].IsTransient() ==>
      services[d].varName != "err"
  }

  ghost predicate FactoriesErrFree(g: Graph, services: map<Key, Service>) {
    forall k :: k in g && g[k].IsTransient() ==> ErrFreeInputs(g, services, g[k].inputs)
  }

  /** A check among these inputs would find no local called err. */
  ghost predicate NoErrLocal(g: Graph, services: map<Key, Service>, inputs: seq<Key>, locals: map<string, Value>) {
    (exists c :: c in inputs && Checked(g, services, c)) ==> "err" !in locals
  }

  lemma CompiledInputsDiffer(g: Graph, services: map<Key, Service>, factories: map<Key, Factory>, names: Names, key: Key)
    requires Collected(g, services, factories) && FactoriesCompile(g, services, factories, names)
    requires key in g && g[key].IsTransient()
    ensures TransientsDiffer(g, g[key].inputs)
  {
    hide FactoryCompiles, TransientsDiffer;
    FactoryCompilesExactly(g, services, factories, names, key);
  }

  /** Calling the factory of a transient service makes the constructor calls
      resolving it makes, with the same result or the same first error, and
      leaves the singletons alone. */
  lemma {:induction false} FactoryIsResolve(g: Graph, services: map<Key, Service>, factories: map<Key, Factory>,
      run: Behaviour, names: Names, s: Store, fields: map<string, Value>, key: Key, stack: seq<Key>)
    requires Collected(g, services, factories) && FactoriesCompile(g, services, factories, names) && Settled(g, services, s, fields)
    requires FactoriesErrFree(g, services)
    requires key in g && g[key].IsTransient() && IsPath(g, stack + [key])
    ensures var (made, calls) := RunFactory(g, run, names, factories, fields, s.calls, key, stack);
            var (r, s') := Resolve(g, run, s, key, stack);
            s' == s.(calls := calls) && SameEnd(made, r)
    decreases g.Keys - Elements(stack), 1, 0
  {
    if key in stack {
      CycleOfIsCycle(g, stack, key);
    }
    assert key in g.Keys - Elements(stack) && key !in g.Keys - Elements(stack + [key]);
    var inputs := g[key].inputs;
    InputsOfKey(g, services, key, stack);
    CompiledInputsDiffer(g, services, factories, names, key);
    CallsAreArguments(g, services, factories, run, names, s, fields, inputs, map[], stack + [key]);
    FactoryMatches(g, services, factories, run, names, s, fields, key, stack);
  }

  lemma InputsOfKey(g: Graph, services: map<Key, Service>, key: Key, stack: seq<Key>)
    requires Closed(g) && Described(g, services) && key in g && g[key].Provided? && IsPath(g, stack + [key])
    ensures forall d :: d in g[key].inputs ==> d in g && d in services && IsPath(g, stack + [key] + [d])
  {
    forall d | d in g[key].inputs ensures d in g && d in services && IsPath(g, stack + [key] + [d]) {
      assert Edge(g, key, d);
      ExtendPath(g, stack + [key], d);
    }
  }

  /** The locals and fields give each input the value it was resolved to. */
  ghost predicate Supplies(g: Graph, services: map<Key, Service>, fields: map<string, Value>,
                           locals: map<string, Value>, inputs: seq<Key>, values: seq<Value>) {
    && |values| == |inputs|
    && forall i :: 0 <= i < |inputs| ==>
         && inputs[i] in g && inputs[i] in services
         && ArgumentValue(fields, locals, ArgumentFor(g, services, inputs[i])) == Some(values[i])
  }

  lemma FinalCall(g: Graph, services: map<Key, Service>, run: Behaviour, s: Store, fields: map<string, Value>,
                  key: Key, locals: map<string, Value>, args: seq<Value>)
    requires Described(g, services) && key in g && g[key].Provided?
    requires Supplies(g, services, fields, locals, g[key].inputs, args)
    ensures var f := FactoryFor(g, services, key);
            && Defined(fields, locals, f.args)
            && ArgumentValues(fields, locals, f.args) == args
            && Construct(run, Store(map[], s.calls), key, g[key].fallible, args).0
               == Construct(run, s, key, g[key].fallible, args).0
            && Construct(run, Store(map[], s.calls), key, g[key].fallible, args).1.calls
               == Construct(run, s, key, g[key].fallible, args).1.calls
  {
    var f := FactoryFor(g, services, key);
    forall a | a in f.args ensures ArgumentValue(fields, locals, a).Some? {
      var i :| 0 <= i < |f.args| && f.args[i] == a;
      assert f.args[i] == ArgumentFor(g, services, g[key].inputs[i]);
    }
  }

  /** The calls to other factories, against the resolution of the inputs. */
  ghost predicate CallsMatch(g: Graph, services: map<Key, Service>, factories: map<Key, Factory>, run: Behaviour, names: Names,
      s: Store, fields: map<string, Value>, inputs: seq<Key>, locals: map<string, Value>, stack: seq<Key>)
    requires forall d :: d in inputs ==> d in g && d in services
  {
    var (r, s') := Arguments(g, run, s, inputs, stack);
    var (made, calls) := RunCalls(g, run, names, factories, fields, s.calls, CallsFor(g, services, inputs), locals, stack);
    && s' == s.(calls := calls)
    && match r
       case Ok(values) =>
         && made.Ok?
         && (forall n :: n in locals ==> n in made.value && made.value[n] == locals[n])
         && Supplies(g, services, fields, made.value, inputs, values)
       case Err(e) => made.Err? && made.error.FromCallee? && Origin(e) == Some((made.error.callee, made.error.fault))
  }

  lemma FieldFirst(g: Graph, services: map<Key, Service>, factories: map<Key, Factory>, run: Behaviour, names: Names,
      s: Store, fields: map<string, Value>, inputs: seq<Key>, locals: map<string, Value>, stack: seq<Key>)
    requires forall d :: d in inputs ==> d in g && d in services
    requires inputs != [] && inputs[0] !in stack && !g[inputs[0]].IsTransient() && Settled(g, services, s, fields)
    requires CallsMatch(g, services, factories, run, names, s, fields, inputs[1..], locals, stack)
    ensures CallsMatch(g, services, factories, run, names, s, fields, inputs, locals, stack)
  {
    FieldResolves(g, run, s, inputs, stack);
    hide Arguments, Resolve, RunFactory, FactoryCompiles;
    assert CallsFor(g, services, inputs) == CallsFor(g, services, inputs[1..]);
    FieldSupplied(g, services, s, fields, inputs);
  }

  lemma FieldResolves(g: Graph, run: Behaviour, s: Store, inputs: seq<Key>, stack: seq<Key>)
    requires inputs != [] && inputs[0] !in stack && Ready(g, s, inputs[0])
    ensures var (rest, s') := Arguments(g, run, s, inputs[1..], stack);
            Arguments(g, run, s, inputs, stack) == (if rest.Ok? then Ok([InstanceOf(g, s, inputs[0])] + rest.value) else rest, s')
  {
    assert Resolve(g, run, s, inputs[0], stack) == (Ok(InstanceOf(g, s, inputs[0])), s);
  }

  lemma FieldSupplied(g: Graph, services: map<Key, Service>, s: Store, fields: map<string, Value>, inputs: seq<Key>)
    requires inputs != [] && inputs[0] in g && inputs[0] in services && !g[inputs[0]].IsTransient()
    requires Settled(g, services, s, fields)
    ensures forall locals, values :: Supplies(g, services, fields, locals, inputs[1..], values) ==>
              Supplies(g, services, fields, locals, inputs, [InstanceOf(g, s, inputs[0])] + values)
  {
  }

  lemma TransientFirst(g: Graph, services: map<Key, Service>, factories: map<Key, Factory>, run: Behaviour, names: Names,
      s: Store, fields: map<string, Value>, inputs: seq<Key>, locals: map<string, Value>, stack: seq<Key>)
    requires forall d :: d in inputs ==> d in g && d in services
    requires inputs != [] && g[inputs[0]].IsTransient()
    requires inputs[0] in factories && factories[inputs[0]].returnsError == services[inputs[0]].factoryErr
    requires services[inputs[0]].varName !in locals && NoErrLocal(g, services, inputs, locals)
    requires var (made, calls) := RunFactory(g, run, names, factories, fields, s.calls, inputs[0], stack);
             var (r, s1) := Resolve(g, run, s, inputs[0], stack);
             && s1 == s.(calls := calls) && SameEnd(made, r)
             && (r.Ok? ==> CallsMatch(g, services, factories, run, names, s1, fields, inputs[1..],
                                      locals[services[inputs[0]].varName := r.value], stack))
    ensures CallsMatch(g, services, factories, run, names, s, fields, inputs, locals, stack)
  {
    var body := CallsFor(g, services, inputs);
    assert body[0] == FactoryCall(services[inputs[0]].varName, inputs[0], services[inputs[0]].factoryErr);
    assert body[1..] == CallsFor(g, services, inputs[1..]);
    assert AfterCheck(locals, body[0].checked) == locals by {
      assert body[0].checked ==> Checked(g, services, inputs[0]);
    }
  }

  /** The calls followed by the constructor. */
  lemma FactoryMatches(g: Graph, services: map<Key, Service>, factories: map<Key, Factory>, run: Behaviour, names: Names,
      s: Store, fields: map<string, Value>, key: Key, stack: seq<Key>)
    requires Described(g, services) && key in g && g[key].IsTransient() && key !in stack
    requires FactoryCompiles(g, names, fields.Keys, factories, key) && factories[key] == FactoryFor(g, services, key)
    requires forall d :: d in g[key].inputs ==> d in g && d in services
    requires CallsMatch(g, services, factories, run, names, s, fields, g[key].inputs, map[], stack + [key])
    ensures var (made, calls) := RunFactory(g, run, names, factories, fields, s.calls, key, stack);
            var (r, s') := Resolve(g, run, s, key, stack);
            s' == s.(calls := calls) && SameEnd(made, r)
  {
    var (args, s1) := Arguments(g, run, s, g[key].inputs, stack + [key]);
    if args.Ok? {
      var locals := RunCalls(g, run, names, factories, fields, s.calls, factories[key].body, map[], stack + [key]).0;
      FinalCall(g, services, run, s1, fields, key, locals.value, args.value);
    }
  }

  lemma LocalsStayFree(g: Graph, services: map<Key, Service>, inputs: seq<Key>, locals: map<string, Value>, value: Value)
    requires Injective(VarNames(services)) && TransientsDiffer(g, inputs)
    requires forall d :: d in inputs ==> d in g && d in services
    requires forall d :: d in inputs && g[d].IsTransient() ==> services[d].varName !in locals
    requires inputs != [] && g[inputs[0]].IsTransient()
    ensures TransientsDiffer(g, inputs[1..])
    ensures forall k :: k in inputs[1..] && g[k].IsTransient() ==>
              services[k].varName !in locals[services[inputs[0]].varName := value]
  {
    FirstDiffers(g, inputs);
    forall k | k in inputs[1..] && g[k].IsTransient()
      ensures services[k].varName !in locals[services[inputs[0]].varName := value]
    {
      assert VarNames(services)[k] != VarNames(services)[inputs[0]];
    }
  }

  lemma ErrStaysFree(g: Graph, services: map<Key, Service>, inputs: seq<Key>, locals: map<string, Value>, value: Value)
    requires inputs != [] && inputs[0] in g && inputs[0] in services
    requires ErrFreeInputs(g, services, inputs) && NoErrLocal(g, services, inputs, locals)
    ensures ErrFreeInputs(g, services, inputs[1..]) && NoErrLocal(g, services, inputs[1..], locals)
    ensures g[inputs[0]].IsTransient() ==> NoErrLocal(g, services, inputs[1..], locals[services[inputs[0]].varName := value])
  {
    var rest := inputs[1..];
    assert forall d :: d in inputs <==> d == inputs[0] || d in rest;
  }

  lemma SettledStays(g: Graph, services: map<Key, Service>, s: Store, s': Store, fields: map<string, Value>)
    requires Settled(g, services, s, fields) && s'.instances == s.instances
    ensures Settled(g, services, s', fields)
  {
  }

  lemma {:induction false} CallsAreArguments(g: Graph, services: map<Key, Service>, factories: map<Key, Factory>,
      run: Behaviour, names: Names, s: Store, fields: map<string, Value>, inputs: seq<Key>, locals: map<string, Value>, stack: seq<Key>)
    requires Collected(g, services, factories) && FactoriesCompile(g, services, factories, names) && Settled(g, services, s, fields)
    requires FactoriesErrFree(g, services)
    requires forall d :: d in inputs ==> d in g && d in services && IsPath(g, stack + [d])
    requires TransientsDiffer(g, inputs)
    requires forall d :: d in inputs && g[d].IsTransient() ==> services[d].varName !in locals
    requires ErrFreeInputs(g, services, inputs) && NoErrLocal(g, services, inputs, locals)
    ensures CallsMatch(g, services, factories, run, names, s, fields, inputs, locals, stack)
    decreases g.Keys - Elements(stack), 2, |inputs|
  {
    hide FactoryCompiles, FactoriesCompile, TransientsDiffer, Settled, RunFactory, Injective, ErrFreeInputs, NoErrLocal;
    if inputs != [] {
      var d := inputs[0];
      assert d in inputs;
      if d in stack {
        CycleOfIsCycle(g, stack, d);
      }
      if g[d].IsTransient() {
        FactoryIsResolve(g, services, factories, run, names, s, fields, d, stack);
        var (first, s1) := Resolve(g, run, s, d, stack);
        SettledStays(g, services, s, s1, fields);
        if first.Ok? {
          LocalsStayFree(g, services, inputs, locals, first.value);
          ErrStaysFree(g, services, inputs, locals, first.value);
          CallsAreArguments(g, services, factories, run, names, s1, fields, inputs[1..], locals[services[d].varName := first.value], stack);
        }
        TransientFirst(g, services, factories, run, names, s, fields, inputs, locals, stack);
      } else {
        FirstDiffers(g, inputs);
        ErrStaysFree(g, services, inputs, locals, NIL);
        CallsAreArguments(g, services, factories, run, names, s, fields, inputs[1..], locals, stack);
        FieldFirst(g, services, factories, run, names, s, fields, inputs, locals, stack);
      }
    }
  }

  // ---------------------------------------------------------------------------
  // The generated file and the container
  // ---------------------------------------------------------------------------

  ghost predicate FieldsApart(services: map<Key, Service>) {
    forall a, b :: a in services && b in services && a != b ==> services[a].fieldName != services[b].fieldName
  }

  /** What a successful `collect` leaves, with the factories rendered from it. */
  lemma AcceptedIsCollected(g: Graph, reserved: set<string>, naming: Naming, keys: seq<Key>, services: map<Key, Service>,
                            imports: map<string, string>)
    requires Accepted(g, reserved, naming, keys, services, imports)
    ensures Described(g, services) && Collected(g, services, FactoriesOf(g, services)) && FieldsApart(services)
  {
    hide CanFail, FactoryFor, VarsChosen;
    forall a, b | a in services && b in services && a != b ensures services[a].fieldName != services[b].fieldName {
      assert a in Elements(keys) && b in Elements(keys);
      var i :| 0 <= i < |keys| && keys[i] == a;
      var j :| 0 <= j < |keys| && keys[j] == b;
    }
  }

  /** The closing literal of Wire: every field of Services from its variable. */
  function ServicesOf(g: Graph, services: map<Key, Service>, env: map<string, Value>): (fields: map<string, Value>)
    requires FieldsApart(services)
    requires forall k :: k in g && k in services && !g[k].IsTransient() ==> services[k].varName in env
    ensures fields.Keys == FieldNames(g, services)
  {
    map k | k in g && k in services && !g[k].IsTransient() :: services[k].fieldName := env[services[k].varName]
  }

  /** Wire with its closing literal. */
  function RunWire(g: Graph, services: map<Key, Service>, run: Behaviour, keys: seq<Key>)
    : (Result<map<string, Value>, Stop>, seq<Call>)
    requires Compilable(g, VarNames(services)) && FieldsApart(services) && forall k :: k in keys ==> k in g
  {
    var vars := VarNames(services);
    var (wire, calls) := RunBody(g, run, Parameters(g, vars), [], EmitAll(g, vars, Emission(g, keys)));
    match wire
    case Failed(callee, fault) => (Err(FromCallee(callee, fault)), calls)
    case Stuck => (Err(DoesNotCompile), calls)
    case Wired(env) =>
      if forall k :: k in g && k in services && !g[k].IsTransient() ==> services[k].varName in env then
        (Ok(ServicesOf(g, services, env)), calls)
      else (Err(DoesNotCompile), calls)
  }

  ghost predicate SameEnds<T>(wire: Result<map<string, Value>, Stop>, r: Result<T, ResolveError>) {
    match r
    case Ok(_) => wire.Ok?
    case Err(e) => wire.Err? && wire.error.FromCallee? && Origin(e) == Some((wire.error.callee, wire.error.fault))
  }

  /** Wire makes the calls that resolving every singleton makes, fails as that does,
      and otherwise fills every field with the container's instance. */
  lemma WireSettles(g: Graph, services: map<Key, Service>, run: Behaviour, keys: seq<Key>)
    requires Runnable(g, VarNames(services)) && FieldsApart(services) && Elements(keys) == g.Keys == services.Keys
    ensures forall k :: k in keys ==> k in g
    ensures var (wire, calls) := RunWire(g, services, run, keys);
            var (r, s) := ResolveSingletons(g, run, keys);
            calls == s.calls && SameEnds(wire, r) && (r.Ok? ==> Settled(g, services, s, wire.value))
  {
    hide RunBody, Resolve, Arguments, ErrFree;
    WireIsResolve(g, VarNames(services), run, keys);
    var (wire, calls) := RunBody(g, run, Parameters(g, VarNames(services)), [], EmitAll(g, VarNames(services), Emission(g, keys)));
    var (r, s) := ResolveSingletons(g, run, keys);
    if r.Ok? {
      forall k | k in g && k in services && !g[k].IsTransient()
        ensures Ready(g, s, k) && services[k].varName in wire.env && wire.env[services[k].varName] == InstanceOf(g, s, k)
      {
        assert VarNames(services)[k] == services[k].varName;
      }
      LiteralSettles(g, services, s, wire.env);
    }
  }

  lemma LiteralSettles(g: Graph, services: map<Key, Service>, s: Store, env: map<string, Value>)
    requires FieldsApart(services)
    requires forall k :: k in g && k in services && !g[k].IsTransient() ==>
               Ready(g, s, k) && services[k].varName in env && env[services[k].varName] == InstanceOf(g, s, k)
    ensures Settled(g, services, s, ServicesOf(g, services, env))
  {
    var fields := ServicesOf(g, services, env);
    forall k | k in g && k in services && !g[k].IsTransient()
      ensures services[k].fieldName in fields && fields[services[k].fieldName] == InstanceOf(g, s, k)
    {
      assert services[k].fieldName in FieldNames(g, services);
    }
  }

  /** What a program gets from Services: a field, or the result of a factory. */
  function Ask(g: Graph, services: map<Key, Service>, run: Behaviour, names: Names, fields: map<string, Value>,
               calls: seq<Call>, key: Key): (Result<Value, Stop>, seq<Call>)
    requires Described(g, services) && key in g
  {
    if g[key].IsTransient() then RunFactory(g, run, names, FactoriesOf(g, services), fields, calls, key, [])
    else if services[key].fieldName in fields then (Ok(fields[services[key].fieldName]), calls)
    else (Err(DoesNotCompile), calls)
  }

  function AskEach(g: Graph, services: map<Key, Service>, run: Behaviour, names: Names, fields: map<string, Value>,
                   calls: seq<Call>, keys: seq<Key>): (seq<Result<Value, Stop>>, seq<Call>)
    requires Described(g, services) && forall k :: k in keys ==> k in g
    decreases keys
  {
    if keys == [] then ([], calls)
    else
      var (first, calls1) := Ask(g, services, run, names, fields, calls, keys[0]);
      var (rest, calls2) := AskEach(g, services, run, names, fields, calls1, keys[1..]);
      ([first] + rest, calls2)
  }

  ghost predicate AllSameEnd(made: seq<Result<Value, Stop>>, r: seq<Resolved>) {
    |made| == |r| && forall i :: 0 <= i < |r| ==> SameEnd(made[i], r[i])
  }

  lemma AskIsResolve(g: Graph, services: map<Key, Service>, run: Behaviour, names: Names, s: Store,
                     fields: map<string, Value>, key: Key)
    requires Described(g, services) && Collected(g, services, FactoriesOf(g, services))
    requires FactoriesCompile(g, services, FactoriesOf(g, services), names) && FactoriesErrFree(g, services)
    requires Settled(g, services, s, fields) && key in g
    ensures var (made, calls) := Ask(g, services, run, names, fields, s.calls, key);
            var (r, s') := Resolve(g, run, s, key, []);
            s' == s.(calls := calls) && SameEnd(made, r)
  {
    hide FactoriesCompile, Collected, RunFactory, FactoriesErrFree;
    if g[key].IsTransient() {
      FactoryIsResolve(g, services, FactoriesOf(g, services), run, names, s, fields, key, []);
    }
  }

  lemma {:induction false} AskEachIsResolveEach(g: Graph, services: map<Key, Service>, run: Behaviour, names: Names,
                                                s: Store, fields: map<string, Value>, keys: seq<Key>)
    requires Described(g, services) && Collected(g, services, FactoriesOf(g, services))
    requires FactoriesCompile(g, services, FactoriesOf(g, services), names) && FactoriesErrFree(g, services)
    requires Settled(g, services, s, fields) && forall k :: k in keys ==> k in g
    ensures var (made, calls) := AskEach(g, services, run, names, fields, s.calls, keys);
            var (r, s') := ResolveEach(g, run, s, keys);
            s' == s.(calls := calls) && AllSameEnd(made, r)
    decreases keys
  {
    hide FactoriesCompile, Collected, Settled, Ask, Resolve, SameEnd, FactoriesErrFree;
    if keys != [] {
      AskIsResolve(g, services, run, names, s, fields, keys[0]);
      var s1 := Resolve(g, run, s, keys[0], []).1;
      SettledStays(g, services, s, s1, fields);
      AskEachIsResolveEach(g, services, run, names, s1, fields, keys[1..]);
    }
  }
}
