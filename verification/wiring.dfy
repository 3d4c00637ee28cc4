/**
  The wiring compiler (wiring.go): the order in which `collect` emits singleton
  constructors, the statements of the generated `Wire` function as a small
  abstract syntax, a semantics for them, and the proof that running them does
  exactly what `Container.resolve` does.
  */
module Wiring {
  import opened Wrappers
  import opened Sequences
  import opened Container
  import opened Resolution

  // ---------------------------------------------------------------------------
  // The emission order of collect
  // ---------------------------------------------------------------------------

  /** No singleton a constructor builds depends on a transient service. */
  ghost predicate SingletonsOnly(g: Graph) {
    forall k, d :: Edge(g, k, d) && d in g && g[k].IsBuilt() ==> !g[d].IsTransient()
  }

  /** The depth-first closure of `collect`: the visited keys afterwards, and the
      constructors it appended. */
  function Visit(g: Graph, visited: set<Key>, key: Key): (r: (set<Key>, seq<Key>))
    requires Closed(g) && key in g
    ensures visited + {key} <= r.0
    ensures forall k :: k in r.1 ==> k in g && g[k].IsBuilt()
    decreases g.Keys - visited, 0, 0
  {
    if key in visited then (visited, [])
    else
      assert key in g.Keys - visited && key !in g.Keys - (visited + {key});
      assert forall d :: d in g[key].Inputs() ==> Edge(g, key, d);
      var (seen, out) := VisitAll(g, visited + {key}, g[key].Inputs());
      (seen, out + if g[key].IsBuilt() then [key] else [])
  }

  function VisitAll(g: Graph, visited: set<Key>, inputs: seq<Key>): (r: (set<Key>, seq<Key>))
    requires Closed(g) && forall d :: d in inputs ==> d in g
    ensures visited + Elements(inputs) <= r.0
    ensures forall k :: k in r.1 ==> k in g && g[k].IsBuilt()
    decreases g.Keys - visited, 1, |inputs|
  {
    if inputs == [] then (visited, [])
    else
      var (seen, out) := Visit(g, visited, inputs[0]);
      var (seen', out') := VisitAll(g, seen, inputs[1..]);
      (seen', out + out')
  }

  function Singletons(g: Graph, keys: seq<Key>): (r: seq<Key>)
    requires forall k :: k in keys ==> k in g
    ensures forall k :: k in r <==> k in keys && !g[k].IsTransient()
  {
    if keys == [] then []
    else (if g[keys[0]].IsTransient() then [] else [keys[0]]) + Singletons(g, keys[1..])
  }

  /** What `collect` leaves in `ordered`, visiting the singletons in key order. */
  function Emission(g: Graph, keys: seq<Key>): seq<Key>
    requires Closed(g) && forall k :: k in keys ==> k in g
  {
    VisitAll(g, {}, Singletons(g, keys)).1
  }

  // ---------------------------------------------------------------------------
  // The generated Wire function
  // ---------------------------------------------------------------------------

  /** `target := constructor(args)`, or with `checked`
      `target, err := constructor(args)` and a return when `err` is not nil.
      A constructor is named by the service it was registered for. */
  datatype Statement = Statement(target: string, callee: Key, args: seq<string>, checked: bool)

  datatype WireOutcome =
    | Wired(env: map<string, Value>)
    | Failed(callee: Key, fault: Fault)
    | Stuck   // an argument is not defined, or the results do not fit

  function ArgumentNames(vars: map<Key, string>, inputs: seq<Key>): seq<string>
    requires forall d :: d in inputs ==> d in vars
  {
    seq(|inputs|, i requires 0 <= i < |inputs| => assert inputs[i] in inputs; vars[inputs[i]])
  }

  predicate Named(g: Graph, vars: map<Key, string>) {
    vars.Keys == g.Keys && forall k, d :: k in g && d in g[k].Inputs() ==> d in vars
  }

  function Emit(g: Graph, vars: map<Key, string>, key: Key): Statement
    requires Named(g, vars) && key in g && g[key].Provided?
  {
    Statement(vars[key], key, ArgumentNames(vars, g[key].inputs), g[key].fallible)
  }

  function EmitAll(g: Graph, vars: map<Key, string>, keys: seq<Key>): seq<Statement>
    requires Named(g, vars) && forall k :: k in keys ==> k in g && g[k].Provided?
  {
    seq(|keys|, i requires 0 <= i < |keys| => assert keys[i] in keys; Emit(g, vars, keys[i]))
  }

  function Values(env: map<string, Value>, names: seq<string>): seq<Value>
    requires forall n :: n in names ==> n in env
  {
    seq(|names|, i requires 0 <= i < |names| => assert names[i] in names; env[names[i]])
  }

  /** A check assigns err. When a service's variable is called err, and its type lets
      it hold an error, `:=` assigns that one; it is nil when the check goes on. */
  function AfterCheck(env: map<string, Value>, checked: bool): map<string, Value> {
    if checked && "err" in env then env["err" := NIL] else env
  }

  /** One statement. It runs when its arguments are defined and it takes as many
      results as the constructor returns. */
  function RunStatement(g: Graph, run: Behaviour, env: map<string, Value>, calls: seq<Call>, t: Statement)
    : (WireOutcome, seq<Call>)
  {
    if !(forall n :: n in t.args ==> n in env) || t.callee !in g || g[t.callee].Instance?
       || g[t.callee].fallible != t.checked then
      (Stuck, calls)
    else
      var (outcome, s) := Construct(run, Store(map[], calls), t.callee, t.checked, Values(env, t.args));
      match outcome
      case Built(value) => (Wired(AfterCheck(env, t.checked)[t.target := value]), s.calls)
      case Faulted(fault) => (Failed(t.callee, fault), s.calls)
  }

  function RunBody(g: Graph, run: Behaviour, env: map<string, Value>, calls: seq<Call>, body: seq<Statement>)
    : (WireOutcome, seq<Call>)
    decreases |body|
  {
    if body == [] then (Wired(env), calls)
    else
      var (first, calls1) := RunStatement(g, run, env, calls, body[0]);
      if first.Wired? then RunBody(g, run, first.env, calls1, body[1..]) else (first, calls1)
  }

  lemma {:induction false} RunBodyAppend(g: Graph, run: Behaviour, env: map<string, Value>, calls: seq<Call>,
                                         a: seq<Statement>, b: seq<Statement>)
    ensures var (first, calls1) := RunBody(g, run, env, calls, a);
            RunBody(g, run, env, calls, a + b) ==
            if first.Wired? then RunBody(g, run, first.env, calls1, b) else (first, calls1)
    decreases |a|
  {
    if a == [] {
      assert a + b == b;
    } else {
      assert (a + b)[1..] == a[1..] + b;
      var (first, calls1) := RunStatement(g, run, env, calls, a[0]);
      if first.Wired? {
        RunBodyAppend(g, run, first.env, calls1, a[1..], b);
      }
    }
  }

  lemma RunEmitted(g: Graph, vars: map<Key, string>, run: Behaviour, env: map<string, Value>, calls: seq<Call>,
                   a: seq<Key>, b: seq<Key>)
    requires Named(g, vars) && (forall k :: k in a || k in b ==> k in g && g[k].Provided?)
    ensures var (first, calls1) := RunBody(g, run, env, calls, EmitAll(g, vars, a));
            RunBody(g, run, env, calls, EmitAll(g, vars, a + b)) ==
            if first.Wired? then RunBody(g, run, first.env, calls1, EmitAll(g, vars, b)) else (first, calls1)
  {
    assert EmitAll(g, vars, a + b) == EmitAll(g, vars, a) + EmitAll(g, vars, b);
    RunBodyAppend(g, run, env, calls, EmitAll(g, vars, a), EmitAll(g, vars, b));
  }

  // ---------------------------------------------------------------------------
  // Simulation: the emitted statements do what resolve does
  // ---------------------------------------------------------------------------

  predicate Injective(vars: map<Key, string>) {
    forall a, b :: a in vars && b in vars && a != b ==> vars[a] != vars[b]
  }

  /** A checked statement is written for this key. */
  predicate IsChecked(g: Graph, key: Key) {
    key in g && g[key].IsBuilt() && g[key].fallible
  }

  /** No singleton is called err beside a checked statement. */
  ghost predicate ErrFree(g: Graph, vars: map<Key, string>) {
    forall k, j :: IsChecked(g, k) && j in g && j in vars && !g[j].IsTransient() ==> vars[j] != "err"
  }

  ghost predicate SomeChecked(g: Graph) {
    exists k :: IsChecked(g, k)
  }

  /** Every ready singleton is in its variable, and no check can assign one. */
  ghost predicate Agree(g: Graph, vars: map<Key, string>, s: Store, env: map<string, Value>) {
    && (forall k :: k in vars && Ready(g, s, k) ==> vars[k] in env && env[vars[k]] == InstanceOf(g, s, k))
    && (SomeChecked(g) ==> "err" !in env)
  }

  /** The visited singletons are the ready ones and those under construction. */
  ghost predicate Tracks(g: Graph, s: Store, visited: set<Key>, stack: seq<Key>) {
    forall k :: k in g && g[k].IsBuilt() ==> (k in visited <==> k in s.instances || k in stack)
  }

  ghost predicate Compilable(g: Graph, vars: map<Key, string>) {
    Closed(g) && Acyclic(g) && SingletonsOnly(g) && Named(g, vars) && Injective(vars)
  }

  ghost predicate Runnable(g: Graph, vars: map<Key, string>) {
    Compilable(g, vars) && ErrFree(g, vars)
  }

  /** The outcome of the statements, against the resolution they replace. */
  ghost predicate Matches(g: Graph, vars: map<Key, string>, visited: set<Key>, stack: seq<Key>,
                          error: Option<ResolveError>, s: Store, wire: (WireOutcome, seq<Call>)) {
    && wire.1 == s.calls
    && match error
       case None => wire.0.Wired? && Agree(g, vars, s, wire.0.env) && Tracks(g, s, visited, stack)
       case Some(e) => wire.0.Failed? && Origin(e) == Some((wire.0.callee, wire.0.fault))
  }

  ghost predicate AllReady(g: Graph, s: Store, inputs: seq<Key>, values: seq<Value>) {
    && |values| == |inputs|
    && forall i :: 0 <= i < |inputs| ==> Ready(g, s, inputs[i]) && values[i] == InstanceOf(g, s, inputs[i])
  }

  /** Singletons a resolution with this stack may ask for next. */
  ghost predicate Reachable(g: Graph, inputs: seq<Key>, stack: seq<Key>) {
    forall d :: d in inputs ==> d in g && !g[d].IsTransient() && IsPath(g, stack + [d])
  }

  lemma InputsReachable(g: Graph, key: Key, stack: seq<Key>)
    requires Closed(g) && SingletonsOnly(g) && key in g && g[key].IsBuilt() && IsPath(g, stack + [key])
    ensures Reachable(g, g[key].inputs, stack + [key])
  {
    forall d | d in g[key].inputs ensures d in g && !g[d].IsTransient() && IsPath(g, stack + [key] + [d]) {
      assert Edge(g, key, d);
      ExtendPath(g, stack + [key], d);
    }
  }

  function ErrorOf<T>(r: Result<T, ResolveError>): Option<ResolveError> {
    match r case Ok(_) => None case Err(e) => Some(e)
  }

  lemma {:induction false} VisitSimulates(g: Graph, vars: map<Key, string>, run: Behaviour, s: Store,
                                          env: map<string, Value>, visited: set<Key>, key: Key, stack: seq<Key>)
    requires Runnable(g, vars) && key in g && !g[key].IsTransient() && IsPath(g, stack + [key])
    requires Agree(g, vars, s, env) && Tracks(g, s, visited, stack)
    ensures var (visited', out) := Visit(g, visited, key);
            var (r, s') := Resolve(g, run, s, key, stack);
            Matches(g, vars, visited', stack, ErrorOf(r), s', RunBody(g, run, env, s.calls, EmitAll(g, vars, out)))
    decreases g.Keys - visited, 0, 0
  {
    if key in stack {
      CycleOfIsCycle(g, stack, key);
    }
    if g[key].Instance? {
    } else if key !in visited {
      assert key in g.Keys - visited && key !in g.Keys - (visited + {key});
      InputsReachable(g, key, stack);
      InputsSimulate(g, vars, run, s, env, visited + {key}, g[key].inputs, stack + [key]);
      BuildSimulates(g, vars, run, s, env, visited, key, stack);
    }
  }

  /** The statements for a constructor's inputs followed by its own. */
  lemma BuildSimulates(g: Graph, vars: map<Key, string>, run: Behaviour, s: Store,
                       env: map<string, Value>, visited: set<Key>, key: Key, stack: seq<Key>)
    requires Runnable(g, vars) && key in g && g[key].IsBuilt() && key !in stack && key !in visited
    requires !Ready(g, s, key)
    requires var (seen, out) := VisitAll(g, visited + {key}, g[key].inputs);
             var (args, s1) := Arguments(g, run, s, g[key].inputs, stack + [key]);
             && Matches(g, vars, seen, stack + [key], ErrorOf(args), s1,
                        RunBody(g, run, env, s.calls, EmitAll(g, vars, out)))
             && (args.Ok? ==> AllReady(g, s1, g[key].inputs, args.value))
    ensures var (visited', out) := Visit(g, visited, key);
            var (r, s') := Resolve(g, run, s, key, stack);
            Matches(g, vars, visited', stack, ErrorOf(r), s', RunBody(g, run, env, s.calls, EmitAll(g, vars, out)))
  {
    var (seen, out) := VisitAll(g, visited + {key}, g[key].inputs);
    var (args, s1) := Arguments(g, run, s, g[key].inputs, stack + [key]);
    RunEmitted(g, vars, run, env, s.calls, out, [key]);
    if args.Ok? {
      LastStatement(g, vars, run, s1, RunBody(g, run, env, s.calls, EmitAll(g, vars, out)).0.env, key, args.value, seen, stack);
    }
  }

  /** What `resolve` does once the arguments of a singleton are there. */
  function FinishBuild(g: Graph, run: Behaviour, s: Store, key: Key, args: seq<Value>): (Option<ResolveError>, Store)
    requires key in g && g[key].Provided?
  {
    var (outcome, s') := Construct(run, s, key, g[key].fallible, args);
    match outcome
    case Faulted(fault) => (Some(Building(key, Resolution.Raised(fault))), s')
    case Built(value) => (None, s'.(instances := s'.instances[key := value]))
  }

  lemma LastStatement(g: Graph, vars: map<Key, string>, run: Behaviour, s: Store, env: map<string, Value>,
                      key: Key, args: seq<Value>, visited: set<Key>, stack: seq<Key>)
    requires Runnable(g, vars) && key in g && g[key].IsBuilt() && Agree(g, vars, s, env)
    requires AllReady(g, s, g[key].inputs, args) && Tracks(g, s, visited, stack + [key])
    ensures var (error, s') := FinishBuild(g, run, s, key, args);
            Matches(g, vars, visited, stack, error, s', RunBody(g, run, env, s.calls, EmitAll(g, vars, [key])))
  {
    var t := Emit(g, vars, key);
    assert EmitAll(g, vars, [key]) == [t];
    forall n | n in t.args ensures n in env {
    }
    assert Values(env, t.args) == args;
    var (outcome, s') := Construct(run, s, key, g[key].fallible, args);
    assert RunStatement(g, run, env, s.calls, t).1 == s'.calls;
    assert RunBody(g, run, env, s.calls, [t]) == RunStatement(g, run, env, s.calls, t);
    assert key in stack + [key];
    if outcome.Built? {
      AgreeOneMore(g, vars, s, env, key, outcome.value, s'.calls);
      hide Agree;
    }
  }

  /** A statement that stores a new instance. */
  lemma AgreeOneMore(g: Graph, vars: map<Key, string>, s: Store, env: map<string, Value>, key: Key, value: Value,
                     calls: seq<Call>)
    requires Runnable(g, vars) && key in g && g[key].IsBuilt() && Agree(g, vars, s, env)
    ensures AfterCheck(env, g[key].fallible) == env
    ensures Agree(g, vars, Store(s.instances[key := value], calls), env[vars[key] := value])
  {
    assert g[key].fallible ==> IsChecked(g, key);
    hide Closed, Acyclic, SingletonsOnly;
  }

  lemma {:induction false} InputsSimulate(g: Graph, vars: map<Key, string>, run: Behaviour, s: Store,
                                          env: map<string, Value>, visited: set<Key>, inputs: seq<Key>, stack: seq<Key>)
    requires Runnable(g, vars) && Reachable(g, inputs, stack)
    requires Agree(g, vars, s, env) && Tracks(g, s, visited, stack)
    ensures var (visited', out) := VisitAll(g, visited, inputs);
            var (r, s') := Arguments(g, run, s, inputs, stack);
            && Matches(g, vars, visited', stack, ErrorOf(r), s', RunBody(g, run, env, s.calls, EmitAll(g, vars, out)))
            && (r.Ok? ==> AllReady(g, s', inputs, r.value))
    decreases g.Keys - visited, 1, |inputs|
  {
    if inputs != [] {
      assert Reachable(g, inputs[1..], stack);
      VisitSimulates(g, vars, run, s, env, visited, inputs[0], stack);
      ResolveKeeps(g, run, s, inputs[0], stack);
      var (seen, out) := Visit(g, visited, inputs[0]);
      var (first, s1) := Resolve(g, run, s, inputs[0], stack);
      var out' := VisitAll(g, seen, inputs[1..]).1;
      if first.Ok? {
        var env1 := RunBody(g, run, env, s.calls, EmitAll(g, vars, out)).0.env;
        InputsSimulate(g, vars, run, s1, env1, seen, inputs[1..], stack);
        ArgumentsKeep(g, run, s1, inputs[1..], stack);
        var (rest, s2) := Arguments(g, run, s1, inputs[1..], stack);
        if rest.Ok? {
          PrependReady(g, s1, s2, inputs, first.value, rest.value, stack);
        }
      }
      RunEmitted(g, vars, run, env, s.calls, out, out');
    }
  }

  lemma PrependReady(g: Graph, s1: Store, s2: Store, inputs: seq<Key>, first: Value, rest: seq<Value>, stack: seq<Key>)
    requires |inputs| > 0 && Keeps(g, s1, s2, stack)
    requires Ready(g, s1, inputs[0]) && first == InstanceOf(g, s1, inputs[0])
    requires AllReady(g, s2, inputs[1..], rest)
    ensures AllReady(g, s2, inputs, [first] + rest)
  {
    forall i | 0 <= i < |inputs| ensures Ready(g, s2, inputs[i]) && ([first] + rest)[i] == InstanceOf(g, s2, inputs[i]) {
      if i > 0 {
        assert inputs[i] == inputs[1..][i - 1];
      }
    }
  }

  // ---------------------------------------------------------------------------
  // Compiler correctness
  // ---------------------------------------------------------------------------

  /** The arguments Wire is called with: the registered instances. */
  function Parameters(g: Graph, vars: map<Key, string>): (env: map<string, Value>)
    requires Named(g, vars) && Injective(vars)
  {
    map k | k in g && g[k].Instance? :: vars[k] := g[k].value
  }

  /** The container calling `resolve` on every singleton in turn, up to the first
      error, with nothing built yet. */
  function ResolveSingletons(g: Graph, run: Behaviour, keys: seq<Key>): (Result<seq<Value>, ResolveError>, Store)
    requires forall k :: k in keys ==> k in g
  {
    Arguments(g, run, Store(map[], []), Singletons(g, keys), [])
  }

  /** The generated Wire function makes the same constructor calls, in the same
      order and with the same arguments and results, as resolving every singleton
      through the container; it fails exactly when that does, at the same
      constructor with the same error; and otherwise every singleton's variable holds
      the container's instance. ErrVariable.WireIsResolveExactly says that this needs
      the variables to be clear of err, FactoryRuns.WireSettles fills the fields. */
  lemma WireIsResolve(g: Graph, vars: map<Key, string>, run: Behaviour, keys: seq<Key>)
    requires Runnable(g, vars) && Elements(keys) == g.Keys
    ensures forall k :: k in keys ==> k in g
    ensures var (wire, calls) := RunBody(g, run, Parameters(g, vars), [], EmitAll(g, vars, Emission(g, keys)));
            var (r, s) := ResolveSingletons(g, run, keys);
            && calls == s.calls
            && (r.Err? ==> wire.Failed? && Origin(r.error) == Some((wire.callee, wire.fault)))
            && (r.Ok? ==>
                  && wire.Wired?
                  && forall k :: k in g && !g[k].IsTransient() ==>
                       && Ready(g, s, k)
                       && vars[k] in wire.env && wire.env[vars[k]] == InstanceOf(g, s, k))
  {
    forall k | k in keys ensures k in g {
      assert k in Elements(keys);
    }
    var s0 := Store(map[], []);
    StartReachable(g, Singletons(g, keys));
    ParametersAgree(g, vars, s0);
    InputsSimulate(g, vars, run, s0, Parameters(g, vars), {}, Singletons(g, keys), []);
    var (r, s) := ResolveSingletons(g, run, keys);
    if r.Ok? {
      EveryoneReady(g, keys, s, r.value);
    }
  }

  lemma StartReachable(g: Graph, inputs: seq<Key>)
    requires forall d :: d in inputs ==> d in g && !g[d].IsTransient()
    ensures Reachable(g, inputs, [])
  {
  }

  lemma ParametersAgree(g: Graph, vars: map<Key, string>, s: Store)
    requires Runnable(g, vars) && s.instances == map[]
    ensures Agree(g, vars, s, Parameters(g, vars))
  {
  }

  lemma EveryoneReady(g: Graph, keys: seq<Key>, s: Store, values: seq<Value>)
    requires Elements(keys) == g.Keys && forall k :: k in keys ==> k in g
    requires AllReady(g, s, Singletons(g, keys), values)
    ensures forall k :: k in g && !g[k].IsTransient() ==> Ready(g, s, k)
  {
    forall k | k in g && !g[k].IsTransient() ensures Ready(g, s, k) {
      assert k in Elements(keys);
      assert k in Singletons(g, keys);
    }
  }

  // ---------------------------------------------------------------------------
  // Order and scope of the generated statements
  // ---------------------------------------------------------------------------

  /** Constructors after the constructors they take arguments from, each once. */
  ghost predicate InOrder(g: Graph, out: seq<Key>) {
    && NoDuplicates(out)
    && (forall i :: 0 <= i < |out| ==> out[i] in g && g[out[i]].IsBuilt())
    && (forall i, d :: 0 <= i < |out| && Edge(g, out[i], d) && d in g && g[d].IsBuilt() ==> d in out[..i])
  }

  ghost predicate Emitted(g: Graph, visited: set<Key>, stack: seq<Key>, out: seq<Key>) {
    forall k :: k in g && g[k].IsBuilt() ==> (k in visited <==> k in out || k in stack) && !(k in out && k in stack)
  }

  lemma {:induction false} VisitInOrder(g: Graph, visited: set<Key>, key: Key, stack: seq<Key>, before: seq<Key>)
    requires Closed(g) && Acyclic(g) && SingletonsOnly(g)
    requires key in g && !g[key].IsTransient() && IsPath(g, stack + [key])
    requires InOrder(g, before) && Emitted(g, visited, stack, before)
    ensures var (visited', out) := Visit(g, visited, key);
            InOrder(g, before + out) && Emitted(g, visited', stack, before + out)
    decreases g.Keys - visited, 0, 0
  {
    if key in stack {
      CycleOfIsCycle(g, stack, key);
    }
    if key in visited {
      assert before + [] == before;
    } else {
      assert key in g.Keys - visited && key !in g.Keys - (visited + {key});
      if g[key].IsBuilt() {
        InputsReachable(g, key, stack);
        assert key in stack + [key];
        NotOnStack(g, g[key].inputs, stack + [key]);
        InputsInOrder(g, visited + {key}, g[key].inputs, stack + [key], before);
        var (seen, out) := VisitAll(g, visited + {key}, g[key].inputs);
        AppendInOrder(g, seen, key, stack, before + out);
        Associative(before, out, [key]);
      } else {
        assert before + [] == before;
      }
    }
  }

  lemma NotOnStack(g: Graph, inputs: seq<Key>, stack: seq<Key>)
    requires Acyclic(g) && Reachable(g, inputs, stack)
    ensures forall d :: d in inputs ==> d !in stack
  {
    forall d | d in inputs ensures d !in stack {
      if d in stack {
        CycleOfIsCycle(g, stack, d);
      }
    }
  }

  lemma AppendInOrder(g: Graph, seen: set<Key>, key: Key, stack: seq<Key>, out: seq<Key>)
    requires key in g && g[key].IsBuilt() && key !in out && key !in stack
    requires InOrder(g, out) && Emitted(g, seen, stack + [key], out)
    requires forall d :: d in g[key].inputs ==> d in seen && d !in stack + [key]
    ensures InOrder(g, out + [key]) && Emitted(g, seen, stack, out + [key])
  {
    var longer := out + [key];
    forall i, d | 0 <= i < |longer| && Edge(g, longer[i], d) && d in g && g[d].IsBuilt() ensures d in longer[..i] {
      assert longer[..i] == out[..i];
    }
    assert key in stack + [key];
  }

  lemma {:induction false} InputsInOrder(g: Graph, visited: set<Key>, inputs: seq<Key>, stack: seq<Key>, before: seq<Key>)
    requires Closed(g) && Acyclic(g) && SingletonsOnly(g) && Reachable(g, inputs, stack)
    requires InOrder(g, before) && Emitted(g, visited, stack, before)
    ensures var (visited', out) := VisitAll(g, visited, inputs);
            InOrder(g, before + out) && Emitted(g, visited', stack, before + out)
    decreases g.Keys - visited, 1, |inputs|
  {
    if inputs == [] {
      assert before + [] == before;
    } else {
      assert inputs[0] in inputs;
      VisitInOrder(g, visited, inputs[0], stack, before);
      var (seen, out) := Visit(g, visited, inputs[0]);
      assert Reachable(g, inputs[1..], stack);
      InputsInOrder(g, seen, inputs[1..], stack, before + out);
      Associative(before, out, VisitAll(g, seen, inputs[1..]).1);
    }
  }

  /** `ordered` lists every singleton a constructor builds, once, after everything
      its constructor takes. */
  lemma EmissionInOrder(g: Graph, keys: seq<Key>)
    requires Closed(g) && Acyclic(g) && SingletonsOnly(g) && Elements(keys) == g.Keys
    ensures forall k :: k in keys ==> k in g
    ensures InOrder(g, Emission(g, keys))
    ensures forall k :: k in g && g[k].IsBuilt() ==> k in Emission(g, keys)
  {
    forall k | k in keys ensures k in g {
      assert k in Elements(keys);
    }
    InputsInOrder(g, {}, Singletons(g, keys), [], []);
    assert [] + Emission(g, keys) == Emission(g, keys);
    forall k | k in g && g[k].IsBuilt() ensures k in Emission(g, keys) {
      assert k in Elements(keys);
      assert k in Elements(Singletons(g, keys));
    }
  }
}
