/**
  What constructor calls say about the generated file (wiring.go): Wire and the factories
  report what the constructors returned and fail exactly when one of them did.
  */
module GeneratedHistory {
  import opened Wrappers
  import opened Sequences
  import opened Container
  import opened Resolution
  import opened Wiring
  import opened Generator
  import opened WireScope
  import opened Factories
  import opened FactoryRuns
  import opened GeneratedFile
  import opened CallHistory

  function FailureOf(wire: WireOutcome): Option<(Key, Fault)> {
    if wire.Failed? then Some((wire.callee, wire.fault)) else None
  }

  /** Running statements, whatever they are: they add what the constructors returned, and
      the last call failed if they report it, and no other. */
  lemma {:induction false} BodyTells(g: Graph, run: Behaviour, env: map<string, Value>, calls: seq<Call>, body: seq<Statement>)
    requires AllAnswered(g, run, calls)
    ensures var (wire, calls') := RunBody(g, run, env, calls, body);
            AllAnswered(g, run, calls') && calls <= calls' && EndsIn(calls', |calls|, FailureOf(wire))
    decreases |body|
  {
    hide AllAnswered, RunStatement, AfterCheck;
    if body != [] {
      StatementTells(g, run, env, calls, body[0]);
      var (first, calls1) := RunStatement(g, run, env, calls, body[0]);
      if first.Wired? {
        BodyTells(g, run, first.env, calls1, body[1..]);
      }
    }
  }

  lemma StatementTells(g: Graph, run: Behaviour, env: map<string, Value>, calls: seq<Call>, t: Statement)
    requires AllAnswered(g, run, calls)
    ensures var (wire, calls') := RunStatement(g, run, env, calls, t);
            AllAnswered(g, run, calls') && calls <= calls' && EndsIn(calls', |calls|, FailureOf(wire))
  {
    hide AllAnswered, AfterCheck, Construct, Supplied;
    if (forall n :: n in t.args ==> n in env) && t.callee in g && g[t.callee].Provided? {
      CallIsAnswered(g, run, Store(map[], calls), t.callee, Values(env, t.args));
    }
  }

  function StopOf<T>(r: Result<T, Stop>): Option<(Key, Fault)> {
    match r
    case Err(FromCallee(callee, fault)) => Some((callee, fault))
    case _ => None
  }

  /** A factory, likewise; and a value it returns was returned by the last call. */
  lemma {:induction false} FactoryTells(g: Graph, run: Behaviour, names: Names, factories: map<Key, Factory>,
      fields: map<string, Value>, calls: seq<Call>, key: Key, stack: seq<Key>)
    requires AllAnswered(g, run, calls)
    ensures var (made, calls') := RunFactory(g, run, names, factories, fields, calls, key, stack);
            && AllAnswered(g, run, calls') && calls <= calls' && EndsIn(calls', |calls|, StopOf(made))
            && (made.Ok? ==> FreshlyBuilt(calls', |calls|, key, made.value))
    decreases g.Keys - Elements(stack), 1, 0
  {
    hide AllAnswered, Construct, FactoryCompiles, ArgumentValues, Defined, Supplied;
    if key !in stack && key in g && FactoryCompiles(g, names, fields.Keys, factories, key) {
      CompiledIsThere(g, names, fields.Keys, factories, key);
      assert key in g.Keys - Elements(stack) && key !in g.Keys - Elements(stack + [key]);
      var f := factories[key];
      CallsTell(g, run, names, factories, fields, calls, f.body, map[], stack + [key]);
      var (locals, calls1) := RunCalls(g, run, names, factories, fields, calls, f.body, map[], stack + [key]);
      if locals.Ok? && Defined(fields, locals.value, f.args) {
        CallIsAnswered(g, run, Store(map[], calls1), key, ArgumentValues(fields, locals.value, f.args));
      }
    }
  }

  lemma CompiledIsThere(g: Graph, names: Names, fields: set<string>, factories: map<Key, Factory>, key: Key)
    requires FactoryCompiles(g, names, fields, factories, key)
    ensures key in factories && key in g && g[key].Provided?
  {
  }

  lemma {:induction false} CallsTell(g: Graph, run: Behaviour, names: Names, factories: map<Key, Factory>,
      fields: map<string, Value>, calls: seq<Call>, body: seq<FactoryCall>, locals: map<string, Value>, stack: seq<Key>)
    requires AllAnswered(g, run, calls)
    ensures var (r, calls') := RunCalls(g, run, names, factories, fields, calls, body, locals, stack);
            AllAnswered(g, run, calls') && calls <= calls' && EndsIn(calls', |calls|, StopOf(r))
    decreases g.Keys - Elements(stack), 2, |body|
  {
    hide AllAnswered, AfterCheck;
    if body != [] && body[0].target !in locals {
      var c := body[0];
      FactoryTells(g, run, names, factories, fields, calls, c.dependency, stack);
      var (made, calls1) := RunFactory(g, run, names, factories, fields, calls, c.dependency, stack);
      if made.Ok? {
        CallsTell(g, run, names, factories, fields, calls1, body[1..], AfterCheck(locals, c.checked)[c.target := made.value], stack);
      }
    }
  }

  /** The errors a program gets from Services, by the constructors they come from. */
  function Stops(made: seq<Result<Value, Stop>>): seq<(Key, Fault)> {
    if made == [] then [] else (if StopOf(made[0]).Some? then [StopOf(made[0]).value] else []) + Stops(made[1..])
  }

  lemma AskTells(g: Graph, services: map<Key, Service>, run: Behaviour, names: Names, fields: map<string, Value>,
                 calls: seq<Call>, key: Key)
    requires Described(g, services) && key in g && AllAnswered(g, run, calls)
    ensures var (made, calls') := Ask(g, services, run, names, fields, calls, key);
            AllAnswered(g, run, calls') && calls <= calls' && EndsIn(calls', |calls|, StopOf(made))
  {
    hide AllAnswered, RunFactory;
    FactoryTells(g, run, names, FactoriesOf(g, services), fields, calls, key, []);
  }

  lemma NoStops()
    ensures Stops([]) == []
  {
  }

  lemma StopsCons(first: Result<Value, Stop>, rest: seq<Result<Value, Stop>>)
    ensures Stops([first] + rest) == (if StopOf(first).Some? then [StopOf(first).value] else []) + Stops(rest)
  {
    assert ([first] + rest)[1..] == rest;
  }

  lemma {:induction false} AskEachTells(g: Graph, services: map<Key, Service>, run: Behaviour, names: Names,
                                        fields: map<string, Value>, calls: seq<Call>, asked: seq<Key>)
    requires Described(g, services) && (forall k :: k in asked ==> k in g) && AllAnswered(g, run, calls)
    ensures var (made, calls') := AskEach(g, services, run, names, fields, calls, asked);
            && AllAnswered(g, run, calls') && calls <= calls' && |made| == |asked|
            && Faults(calls') == Faults(calls) + Stops(made)
    decreases asked
  {
    hide AllAnswered, Ask, Faults, Stops, StopOf, EndsIn;
    NoStops();
    if asked != [] {
      AskTells(g, services, run, names, fields, calls, asked[0]);
      var (first, calls1) := Ask(g, services, run, names, fields, calls, asked[0]);
      AskEachTells(g, services, run, names, fields, calls1, asked[1..]);
      NewFaults(calls1, |calls|, StopOf(first));
      assert calls1[..|calls|] == calls;
      StopsCons(first, AskEach(g, services, run, names, fields, calls1, asked[1..]).0);
    }
  }

  /** A program that calls Wire and takes services from its result: every constructor
      call reports what the constructor returned, Wire fails exactly when its last call
      did, and then the errors are those of the failed calls, all of them and in order. */
  lemma ProgramTells(g: Graph, services: map<Key, Service>, names: Names, keys: seq<Key>, run: Behaviour, asked: seq<Key>)
    requires Compilable(g, VarNames(services)) && FieldsApart(services) && Described(g, services)
    requires (forall k :: k in keys ==> k in g) && (forall k :: k in asked ==> k in g)
    ensures var (wire, calls) := RunWire(g, services, run, keys);
            && AllAnswered(g, run, calls) && EndsIn(calls, 0, StopOf(wire))
            && (wire.Ok? ==>
                  var (made, calls') := AskEach(g, services, run, names, wire.value, calls, asked);
                  && AllAnswered(g, run, calls') && calls <= calls' && |made| == |asked|
                  && Faults(calls') == Stops(made))
  {
    hide AllAnswered, AskEach, RunBody, Closed, Acyclic, SingletonsOnly, Described, FieldsApart, Stops, Supplied;
    NothingAnswered(g, run);
    BodyTells(g, run, Parameters(g, VarNames(services)), [], EmitAll(g, VarNames(services), Emission(g, keys)));
    var (wire, calls) := RunWire(g, services, run, keys);
    if wire.Ok? {
      AskEachTells(g, services, run, names, wire.value, calls, asked);
      NoNewFaults(calls, 0);
    }
  }

  lemma NothingAnswered(g: Graph, run: Behaviour)
    ensures AllAnswered(g, run, [])
  {
  }

  /** The generated file, accepted and with no service assigned by a check: moreover every
      constructor gets values of its inputs, every field and every service taken is a value
      of its service, and every error is that of the one failed call behind it. */
  lemma GeneratedTells(g: Graph, reserved: set<string>, naming: Naming, keys: seq<Key>, services: map<Key, Service>,
                       imports: map<string, string>, names: Names, run: Behaviour, asked: seq<Key>)
    requires Accepted(g, reserved, naming, keys, services, imports) && names.packages.Keys == names.mentioned.Keys == g.Keys
    requires Described(g, services) && (forall k :: k in keys ==> k in g) && (forall k :: k in asked ==> k in g)
    requires FileCompiles(g, services, names, keys) && FileErrFree(g, services)
    ensures FieldsApart(services)
    ensures var (wire, calls) := RunWire(g, services, run, keys);
            && Authentic(g, run, calls) && EndsIn(calls, 0, StopOf(wire)) && (wire.Err? ==> StopOf(wire).Some?)
            && (wire.Ok? ==>
                  var (made, calls') := AskEach(g, services, run, names, wire.value, calls, asked);
                  && Authentic(g, run, calls') && Faults(calls') == Stops(made)
                  && FieldsSupplied(g, services, calls, wire.value) && AskedSupplied(g, calls', asked, made))
  {
    hide AskEach, ResolveEach, RunWire, FieldsApart, FileCompiles, FactoriesErrFree, VarsChosen, FieldsDiffer,
      FieldsNamed, FactoriesMarked, Faults, Stops, Supplied, Authentic, Resolve, Arguments, AllAnswered,
      FieldsSupplied, AskedSupplied, ErrFree, Closed, Acyclic, SingletonsOnly, Named, AllSameEnd;
    AcceptedIsCollected(g, reserved, naming, keys, services, imports);
    GeneratedIsContainer(g, reserved, naming, keys, services, imports, names, run, asked);
    ProgramTells(g, services, names, keys, run, asked);
    FreshIsTold(g, run);
    ArgumentsTell(g, run, Store(map[], []), Singletons(g, keys), []);
    var (r, s) := ResolveSingletons(g, run, keys);
    if r.Ok? {
      var (wire, calls) := RunWire(g, services, run, keys);
      WireSettles(g, services, run, keys);
      ResolutionsTell(g, run, s, asked);
      FieldsAreSupplied(g, services, run, s, wire.value);
      AskedAreSupplied(g, ResolveEach(g, run, s, asked).1.calls, asked, AskEach(g, services, run, names, wire.value, calls, asked).0,
                       ResolveEach(g, run, s, asked).0);
    }
  }

  /** Every field holds a value of its service. */
  ghost predicate FieldsSupplied(g: Graph, services: map<Key, Service>, calls: seq<Call>, fields: map<string, Value>) {
    forall k :: k in g && k in services && !g[k].IsTransient() ==>
      services[k].fieldName in fields && Supplied(g, calls, k, fields[services[k].fieldName])
  }

  /** So does every service taken, or its error is a constructor's. */
  ghost predicate AskedSupplied(g: Graph, calls: seq<Call>, asked: seq<Key>, made: seq<Result<Value, Stop>>) {
    && |made| == |asked|
    && forall i :: 0 <= i < |asked| ==>
         match made[i]
         case Ok(value) => Supplied(g, calls, asked[i], value)
         case Err(_) => StopOf(made[i]).Some?
  }

  lemma AskedAreSupplied(g: Graph, calls: seq<Call>, asked: seq<Key>, made: seq<Result<Value, Stop>>, results: seq<Resolved>)
    requires AllSameEnd(made, results) && |results| == |asked|
    requires forall i :: 0 <= i < |asked| && results[i].Ok? ==> Supplied(g, calls, asked[i], results[i].value)
    ensures AskedSupplied(g, calls, asked, made)
  {
    hide Supplied;
  }

  lemma FreshIsTold(g: Graph, run: Behaviour)
    ensures Told(g, run, Store(map[], []))
  {
  }

  lemma FieldsAreSupplied(g: Graph, services: map<Key, Service>, run: Behaviour, s: Store, fields: map<string, Value>)
    requires Settled(g, services, s, fields) && Told(g, run, s)
    ensures FieldsSupplied(g, services, s.calls, fields)
  {
    hide Supplied, Authentic;
    forall k | k in g && g[k].Instance? ensures Supplied(g, s.calls, k, g[k].value) {
      GivenIsSupplied(g, s.calls, k);
    }
  }
}
