/**
  `Container.resolve` and `build` (container.go): an interpreter of the
  dependency graph. Constructors are arbitrary functions of every call made so
  far, so nothing below depends on what a constructor does.
  */
module Resolution {
  import opened Wrappers
  import opened Sequences
  import opened Container

  /** What a constructor returned: `(T, error)`, the error None for a plain `T`. */
  datatype Return = Return(value: Value, fault: Option<Fault>)
  datatype Outcome = Built(value: Value) | Faulted(fault: Fault)
  datatype Call = Call(key: Key, args: seq<Value>, outcome: Outcome)
  type Behaviour = (seq<Call>, Key, seq<Value>) -> Return

  /** The container's mutable part: the instances of ready singletons. `calls` is
      the history of constructor calls, the one effect `resolve` has outside. */
  datatype Store = Store(instances: map<Key, Value>, calls: seq<Call>)

  datatype ResolveError =
    | Circular(cycle: seq<Key>)
    | Unregistered(key: Key)
    | Raised(fault: Fault)
    | Building(key: Key, cause: ResolveError)

  type Resolved = Result<Value, ResolveError>

  // ---------------------------------------------------------------------------
  // The specification of resolve and build
  // ---------------------------------------------------------------------------

  /** One constructor call. Only a constructor registered with an error result
      has that result looked at. */
  function Construct(run: Behaviour, s: Store, key: Key, fallible: bool, args: seq<Value>): (Outcome, Store) {
    var back := run(s.calls, key, args);
    var outcome := if fallible && back.fault.Some? then Faulted(back.fault.value) else Built(back.value);
    (outcome, s.(calls := s.calls + [Call(key, args, outcome)]))
  }

  /** A singleton whose instance exists: given at registration, or built. */
  predicate Ready(g: Graph, s: Store, key: Key) {
    key in g && (g[key].Instance? || (g[key].IsBuilt() && key in s.instances))
  }

  function InstanceOf(g: Graph, s: Store, key: Key): Value
    requires Ready(g, s, key)
  {
    if g[key].Instance? then g[key].value else s.instances[key]
  }

  function Resolve(g: Graph, run: Behaviour, s: Store, key: Key, stack: seq<Key>): (Resolved, Store)
    decreases g.Keys - Elements(stack), 1, 0
  {
    if key in stack then
      (Err(Circular(CycleOf(stack, key))), s)
    else if key !in g then
      (Err(Unregistered(key)), s)
    else if g[key].IsTransient() then
      Build(g, run, s, key, stack)
    else if Ready(g, s, key) then
      (Ok(InstanceOf(g, s, key)), s)
    else
      var (r, s') := Build(g, run, s, key, stack);
      (r, if r.Ok? then s'.(instances := s'.instances[key := r.value]) else s')
  }

  function Build(g: Graph, run: Behaviour, s: Store, key: Key, stack: seq<Key>): (Resolved, Store)
    requires key in g && key !in stack && g[key].Provided?
    decreases g.Keys - Elements(stack), 0, 0
  {
    assert key in g.Keys - Elements(stack) && key !in g.Keys - Elements(stack + [key]);
    var (args, s1) := Arguments(g, run, s, g[key].inputs, stack + [key]);
    if args.Err? then
      (Err(Building(key, args.error)), s1)
    else
      var (outcome, s2) := Construct(run, s1, key, g[key].fallible, args.value);
      match outcome
      case Faulted(fault) => (Err(Building(key, Raised(fault))), s2)
      case Built(value) => (Ok(value), s2)
  }

  /** The arguments of a constructor, resolved left to right up to the first error. */
  function Arguments(g: Graph, run: Behaviour, s: Store, inputs: seq<Key>, stack: seq<Key>)
    : (Result<seq<Value>, ResolveError>, Store)
    decreases g.Keys - Elements(stack), 2, |inputs|
  {
    if inputs == [] then
      (Ok([]), s)
    else
      var (first, s1) := Resolve(g, run, s, inputs[0], stack);
      if first.Err? then
        (Err(first.error), s1)
      else
        var (rest, s2) := Arguments(g, run, s1, inputs[1..], stack);
        (if rest.Ok? then Ok([first.value] + rest.value) else rest, s2)
  }

  // ---------------------------------------------------------------------------
  // One successful construction per singleton, on every graph
  // ---------------------------------------------------------------------------

  /** The values constructor calls for `key` returned, in order. */
  function Successes(calls: seq<Call>, key: Key): seq<Value> {
    if calls == [] then []
    else
      var last := calls[|calls| - 1];
      Successes(calls[..|calls| - 1], key)
      + (if last.key == key && last.outcome.Built? then [last.outcome.value] else [])
  }

  /** Each built singleton has one successful call behind it, the one that made
      its instance; a singleton not yet ready has none. */
  ghost predicate OncePerSingleton(g: Graph, s: Store) {
    && (forall k :: k in s.instances ==> k in g && g[k].IsBuilt())
    && (forall k :: k in g && g[k].IsBuilt() ==>
          Successes(s.calls, k) == if k in s.instances then [s.instances[k]] else [])
  }

  /** What any part of a resolution leaves alone: ready instances, the calls
      already made, and everything about the keys being built above it. */
  ghost predicate Keeps(g: Graph, s: Store, s': Store, stack: seq<Key>) {
    && s.calls <= s'.calls
    && (forall k :: k in s.instances ==> k in s'.instances && s'.instances[k] == s.instances[k])
    && (forall k :: k in stack ==> (k in s'.instances <==> k in s.instances))
    && (forall k :: k in stack ==> Successes(s'.calls, k) == Successes(s.calls, k))
    && (OncePerSingleton(g, s) ==> OncePerSingleton(g, s'))
  }

  lemma {:induction false} ResolveKeeps(g: Graph, run: Behaviour, s: Store, key: Key, stack: seq<Key>)
    ensures var (r, s') := Resolve(g, run, s, key, stack);
            && Keeps(g, s, s', stack)
            && (r.Ok? ==> key in g)
            && (r.Ok? && !g[key].IsTransient() ==> Ready(g, s', key) && InstanceOf(g, s', key) == r.value)
    decreases g.Keys - Elements(stack), 1, 0
  {
    if key !in stack && key in g && g[key].Provided? && !Ready(g, s, key) {
      BuildKeeps(g, run, s, key, stack);
    }
  }

  lemma {:induction false} BuildKeeps(g: Graph, run: Behaviour, s: Store, key: Key, stack: seq<Key>)
    requires key in g && key !in stack && g[key].Provided?
    requires !Ready(g, s, key)
    ensures var (r, s') := Build(g, run, s, key, stack);
            var s'' := if r.Ok? && g[key].IsBuilt() then s'.(instances := s'.instances[key := r.value]) else s';
            Keeps(g, s, s'', stack)
    decreases g.Keys - Elements(stack), 0, 0
  {
    assert key in g.Keys - Elements(stack) && key !in g.Keys - Elements(stack + [key]);
    ArgumentsKeep(g, run, s, g[key].inputs, stack + [key]);
    var (args, s1) := Arguments(g, run, s, g[key].inputs, stack + [key]);
    if args.Ok? {
      CallKeeps(g, run, s, s1, key, args.value, stack);
    } else {
      assert forall k :: k in stack ==> k in stack + [key];
    }
  }

  lemma AppendCall(calls: seq<Call>, call: Call, key: Key)
    ensures Successes(calls + [call], key)
         == Successes(calls, key) + (if call.key == key && call.outcome.Built? then [call.outcome.value] else [])
  {
    assert (calls + [call])[..|calls|] == calls;
  }

  lemma CallKeeps(g: Graph, run: Behaviour, s: Store, s1: Store, key: Key, args: seq<Value>, stack: seq<Key>)
    requires key in g && key !in stack && g[key].Provided? && !Ready(g, s, key)
    requires Keeps(g, s, s1, stack + [key])
    ensures var (outcome, s2) := Construct(run, s1, key, g[key].fallible, args);
            var built := outcome.Built? && g[key].IsBuilt();
            Keeps(g, s, if built then s2.(instances := s2.instances[key := outcome.value]) else s2, stack)
  {
    var (outcome, s2) := Construct(run, s1, key, g[key].fallible, args);
    var built := outcome.Built? && g[key].IsBuilt();
    var s3 := if built then s2.(instances := s2.instances[key := outcome.value]) else s2;
    assert key in stack + [key];
    assert key !in s.instances || !g[key].IsBuilt();
    forall k | k in stack
      ensures k in s3.instances <==> k in s.instances
      ensures Successes(s3.calls, k) == Successes(s.calls, k)
    {
      assert k in stack + [key] && k != key;
      AppendCall(s1.calls, Call(key, args, outcome), k);
    }
    if OncePerSingleton(g, s) {
      forall k | k in g && g[k].IsBuilt()
        ensures Successes(s3.calls, k) == if k in s3.instances then [s3.instances[k]] else []
      {
        AppendCall(s1.calls, Call(key, args, outcome), k);
        if k == key {
          assert Successes(s1.calls, k) == Successes(s.calls, k) == [];
        }
      }
      assert OncePerSingleton(g, s3);
    }
    assert s.calls <= s3.calls;
    assert (forall k :: k in s.instances ==> k in s3.instances && s3.instances[k] == s.instances[k]);
    assert Keeps(g, s, s3, stack);
  }

  lemma {:induction false} ArgumentsKeep(g: Graph, run: Behaviour, s: Store, inputs: seq<Key>, stack: seq<Key>)
    ensures Keeps(g, s, Arguments(g, run, s, inputs, stack).1, stack)
    decreases g.Keys - Elements(stack), 2, |inputs|
  {
    if inputs != [] {
      ResolveKeeps(g, run, s, inputs[0], stack);
      var (first, s1) := Resolve(g, run, s, inputs[0], stack);
      if first.Ok? {
        ArgumentsKeep(g, run, s1, inputs[1..], stack);
      }
    }
  }

  /** Any number of resolutions, one after another, each from an empty stack. */
  function ResolveEach(g: Graph, run: Behaviour, s: Store, keys: seq<Key>): (seq<Resolved>, Store)
    decreases |keys|
  {
    if keys == [] then ([], s)
    else
      var (first, s1) := Resolve(g, run, s, keys[0], []);
      var (rest, s2) := ResolveEach(g, run, s1, keys[1..]);
      ([first] + rest, s2)
  }

  /** Over a whole run of resolutions a singleton is constructed successfully at
      most once, and every caller that got it got that one value. */
  lemma {:induction false} SingletonIsShared(g: Graph, run: Behaviour, s: Store, keys: seq<Key>)
    requires OncePerSingleton(g, s)
    ensures var (results, s') := ResolveEach(g, run, s, keys);
            && |results| == |keys|
            && Keeps(g, s, s', [])
            && OncePerSingleton(g, s')
            && forall i :: 0 <= i < |keys| && results[i].Ok? ==>
                 keys[i] in g
                 && (!g[keys[i]].IsTransient() ==>
                       Ready(g, s', keys[i]) && results[i].value == InstanceOf(g, s', keys[i]))
    decreases |keys|
  {
    if keys != [] {
      ResolveKeeps(g, run, s, keys[0], []);
      var s1 := Resolve(g, run, s, keys[0], []).1;
      SingletonIsShared(g, run, s1, keys[1..]);
    }
  }

  // ---------------------------------------------------------------------------
  // Resolution on a validated graph
  // ---------------------------------------------------------------------------

  /** The constructor call an error comes from, if it comes from one: the key
      whose constructor failed and the error it returned. */
  function Origin(e: ResolveError): Option<(Key, Fault)> {
    match e
    case Building(key, Raised(fault)) => Some((key, fault))
    case Building(_, cause) => Origin(cause)
    case _ => None
  }

  /** `Validate` having succeeded, `resolve` never reports a cycle or a missing
      service: every error it returns is some constructor's own. */
  lemma {:induction false} ValidatedResolve(g: Graph, run: Behaviour, s: Store, key: Key, stack: seq<Key>)
    requires Closed(g) && Acyclic(g) && key in g && IsPath(g, stack + [key])
    ensures var r := Resolve(g, run, s, key, stack).0;
            r.Err? ==> Origin(r.error).Some?
    decreases g.Keys - Elements(stack), 1, 0
  {
    if key in stack {
      CycleOfIsCycle(g, stack, key);
    } else if g[key].Provided? && !Ready(g, s, key) {
      assert key in g.Keys - Elements(stack) && key !in g.Keys - Elements(stack + [key]);
      ValidatedArguments(g, run, s, g[key].inputs, stack + [key]);
    }
  }

  lemma {:induction false} ValidatedArguments(g: Graph, run: Behaviour, s: Store, inputs: seq<Key>, stack: seq<Key>)
    requires Closed(g) && Acyclic(g) && IsPath(g, stack) && |stack| > 0
    requires forall j :: 0 <= j < |inputs| ==> Edge(g, stack[|stack| - 1], inputs[j])
    ensures var r := Arguments(g, run, s, inputs, stack).0;
            r.Err? ==> r.error.Building? && Origin(r.error).Some?
    decreases g.Keys - Elements(stack), 2, |inputs|
  {
    if inputs != [] {
      ExtendPath(g, stack, inputs[0]);
      ValidatedResolve(g, run, s, inputs[0], stack);
      var (first, s1) := Resolve(g, run, s, inputs[0], stack);
      if first.Ok? {
        ValidatedArguments(g, run, s1, inputs[1..], stack);
      }
    }
  }

  // ---------------------------------------------------------------------------
  // The container itself
  // ---------------------------------------------------------------------------

  class ServiceContainer {
    var registrations: Graph
    var instances: map<Key, Value>
    var calls: seq<Call>

    ghost function View(): Store
      reads this
    {
      Store(instances, calls)
    }

    constructor ()
      ensures registrations == map[] && View() == Store(map[], [])
    {
      registrations, instances, calls := map[], map[], [];
    }

    /** A key is registered once; a second registration changes nothing. */
    method AddRegistration(key: Key, registration: Registration) returns (added: bool)
      modifies this`registrations
      ensures added <==> key !in old(registrations)
      ensures registrations == if added then old(registrations)[key := registration] else old(registrations)
    {
      if key in registrations {
        return false;
      }
      registrations := registrations[key := registration];
      return true;
    }

    /** `resolve`. The lookup of a ready instance and the recording of a new one
        happen under the registration's lock; see ConcurrentResolution. */
    method ResolveKey(run: Behaviour, key: Key, stack: seq<Key>) returns (r: Resolved)
      modifies this
      ensures registrations == old(registrations)
      ensures (r, View()) == Resolve(registrations, run, old(View()), key, stack)
      decreases registrations.Keys - Elements(stack), 1
    {
      var i := 0;
      while i < |stack|
        invariant 0 <= i <= |stack| && key !in stack[..i]
      {
        if stack[i] == key {
          return Err(Circular(CycleOf(stack, key)));
        }
        i := i + 1;
      }
      assert stack[..i] == stack;
      if key !in registrations {
        return Err(Unregistered(key));
      }
      var registration := registrations[key];
      if registration.IsTransient() {
        r := BuildKey(run, key, stack);
        return;
      }
      if registration.Instance? {
        return Ok(registration.value);
      }
      if key in instances {
        return Ok(instances[key]);
      }
      r := BuildKey(run, key, stack);
      if r.Ok? {
        instances := instances[key := r.value];
      }
    }

    method BuildKey(run: Behaviour, key: Key, stack: seq<Key>) returns (r: Resolved)
      requires key in registrations && key !in stack && registrations[key].Provided?
      modifies this
      ensures registrations == old(registrations)
      ensures (r, View()) == Build(registrations, run, old(View()), key, stack)
      decreases registrations.Keys - Elements(stack), 0
    {
      var inputs := registrations[key].inputs;
      var arguments: seq<Value> := [];
      ghost var whole := Arguments(registrations, run, View(), inputs, stack + [key]);
      assert key in registrations.Keys - Elements(stack) && key !in registrations.Keys - Elements(stack + [key]);
      assert inputs[0..] == inputs && forall vs: seq<Value> :: [] + vs == vs;
      var i := 0;
      while i < |inputs|
        invariant 0 <= i <= |inputs| && registrations == old(registrations)
        invariant var (rest, s) := Arguments(registrations, run, View(), inputs[i..], stack + [key]);
                  whole == (if rest.Ok? then Ok(arguments + rest.value) else rest, s)
      {
        assert inputs[i..][1..] == inputs[i + 1..];
        r := ResolveKey(run, inputs[i], stack + [key]);
        if r.Err? {
          return Err(Building(key, r.error));
        }
        ghost var before := arguments;
        arguments := arguments + [r.value];
        assert forall vs: seq<Value> :: before + ([r.value] + vs) == arguments + vs;
        i := i + 1;
      }
      assert inputs[i..] == [] && arguments + [] == arguments;
      var (outcome, s) := Construct(run, Store(instances, calls), key, registrations[key].fallible, arguments);
      calls := s.calls;
      match outcome
      case Faulted(fault) => return Err(Building(key, Raised(fault)));
      case Built(value) => return Ok(value);
    }
  }
}
