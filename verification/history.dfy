/**
  What constructor calls say about results (container.go, wiring.go). A history holds
  what the constructors returned, on the arguments their services are to have; and a
  resolution fails exactly when a constructor it called did. Nothing in these statements
  mentions how a resolution or the generated file works.
  */
module CallHistory {
  import opened Wrappers
  import opened Sequences
  import opened Container
  import opened Resolution

  // ----- what a history is to be

  /** Call i reports what the constructor returned, given the calls before it: the error,
      if it returns one and did, and otherwise the value. */
  predicate Answered(g: Graph, run: Behaviour, calls: seq<Call>, i: nat)
    requires i < |calls|
  {
    var c := calls[i];
    && c.key in g && g[c.key].Provided?
    && var back := run(calls[..i], c.key, c.args);
       match c.outcome
       case Faulted(fault) => g[c.key].fallible && back.fault == Some(fault)
       case Built(value) => value == back.value && (g[c.key].fallible ==> back.fault.None?)
  }

  /** Some constructor call returned this value for the service, or it is the instance
      that was registered. */
  predicate Supplied(g: Graph, calls: seq<Call>, key: Key, value: Value) {
    && key in g
    && match g[key]
       case Instance(given) => value == given
       case Provided(_, _, _) => exists m :: 0 <= m < |calls| && calls[m].key == key && calls[m].outcome == Built(value)
  }

  predicate SuppliedEach(g: Graph, calls: seq<Call>, inputs: seq<Key>, values: seq<Value>) {
    |values| == |inputs| && forall j :: 0 <= j < |inputs| ==> Supplied(g, calls, inputs[j], values[j])
  }

  /** Call i was made on values of the inputs of its constructor, in their order. */
  predicate Fed(g: Graph, calls: seq<Call>, i: nat)
    requires i < |calls|
  {
    calls[i].key in g && SuppliedEach(g, calls[..i], g[calls[i].key].Inputs(), calls[i].args)
  }

  ghost predicate AllAnswered(g: Graph, run: Behaviour, calls: seq<Call>) {
    forall i :: 0 <= i < |calls| ==> Answered(g, run, calls, i)
  }

  ghost predicate Authentic(g: Graph, run: Behaviour, calls: seq<Call>) {
    AllAnswered(g, run, calls) && forall i :: 0 <= i < |calls| ==> Fed(g, calls, i)
  }

  /** From this call on, no constructor failed; or the last call did, and no other. */
  predicate EndsIn(calls: seq<Call>, from: nat, origin: Option<(Key, Fault)>) {
    match origin
    case None => forall i :: from <= i < |calls| ==> calls[i].outcome.Built?
    case Some((key, fault)) =>
      && from < |calls| && calls[|calls| - 1].key == key && calls[|calls| - 1].outcome == Faulted(fault)
      && forall i :: from <= i < |calls| - 1 ==> calls[i].outcome.Built?
  }

  /** An error that reaches a caller names the service being built. */
  predicate NotRaised<T>(r: Result<T, ResolveError>) {
    r.Err? ==> !r.error.Raised?
  }

  function OriginOf<T>(r: Result<T, ResolveError>): Option<(Key, Fault)> {
    match r case Ok(_) => None case Err(e) => Origin(e)
  }

  // ----- one more call

  lemma SuppliedLater(g: Graph, calls: seq<Call>, calls': seq<Call>, key: Key, value: Value)
    requires Supplied(g, calls, key, value) && calls <= calls'
    ensures Supplied(g, calls', key, value)
  {
    if g[key].Provided? {
      var m :| 0 <= m < |calls| && calls[m].key == key && calls[m].outcome == Built(value);
      assert calls'[m] == calls[m];
    }
  }

  lemma SuppliedEachLater(g: Graph, calls: seq<Call>, calls': seq<Call>, inputs: seq<Key>, values: seq<Value>)
    requires SuppliedEach(g, calls, inputs, values) && calls <= calls'
    ensures SuppliedEach(g, calls', inputs, values)
  {
    forall j | 0 <= j < |inputs| ensures Supplied(g, calls', inputs[j], values[j]) {
      SuppliedLater(g, calls, calls', inputs[j], values[j]);
    }
  }

  lemma AnsweredEarlier(g: Graph, run: Behaviour, calls: seq<Call>, call: Call, i: nat)
    requires i < |calls|
    ensures Answered(g, run, calls + [call], i) <==> Answered(g, run, calls, i)
    ensures Fed(g, calls + [call], i) <==> Fed(g, calls, i)
  {
    assert (calls + [call])[..i] == calls[..i];
  }

  lemma CallIsAnswered(g: Graph, run: Behaviour, s: Store, key: Key, args: seq<Value>)
    requires AllAnswered(g, run, s.calls) && key in g && g[key].Provided?
    ensures var (outcome, s') := Construct(run, s, key, g[key].fallible, args);
            && AllAnswered(g, run, s'.calls) && s'.calls == s.calls + [Call(key, args, outcome)]
            && s'.instances == s.instances
            && (outcome.Built? ==> Supplied(g, s'.calls, key, outcome.value))
  {
    var (outcome, s') := Construct(run, s, key, g[key].fallible, args);
    var n := |s.calls|;
    assert s'.calls[..n] == s.calls && s'.calls[n] == Call(key, args, outcome);
    forall i | 0 <= i < |s'.calls| ensures Answered(g, run, s'.calls, i) {
      if i < n {
        AnsweredEarlier(g, run, s.calls, Call(key, args, outcome), i);
      }
    }
  }

  lemma CallIsAuthentic(g: Graph, run: Behaviour, s: Store, key: Key, args: seq<Value>)
    requires Authentic(g, run, s.calls) && key in g && g[key].Provided? && SuppliedEach(g, s.calls, g[key].inputs, args)
    ensures Authentic(g, run, Construct(run, s, key, g[key].fallible, args).1.calls)
  {
    CallIsAnswered(g, run, s, key, args);
    var (outcome, s') := Construct(run, s, key, g[key].fallible, args);
    hide Answered, Construct, SuppliedEach;
    assert s'.calls[..|s.calls|] == s.calls;
    forall i | 0 <= i < |s'.calls| ensures Fed(g, s'.calls, i) {
      if i < |s.calls| {
        AnsweredEarlier(g, run, s.calls, Call(key, args, outcome), i);
      }
    }
  }

  // ----- resolve

  /** The instances are results of constructor calls. */
  ghost predicate Backed(g: Graph, s: Store) {
    forall k :: k in s.instances ==> k in g && g[k].IsBuilt() && Supplied(g, s.calls, k, s.instances[k])
  }

  ghost predicate Told(g: Graph, run: Behaviour, s: Store) {
    Authentic(g, run, s.calls) && Backed(g, s)
  }

  lemma BackedLater(g: Graph, s: Store, calls: seq<Call>)
    requires Backed(g, s) && s.calls <= calls
    ensures Backed(g, Store(s.instances, calls))
  {
    forall k | k in s.instances ensures Supplied(g, calls, k, s.instances[k]) {
      SuppliedLater(g, s.calls, calls, k, s.instances[k]);
    }
  }

  /** One resolution: the history stays authentic, the value is one of the service, and it
      fails exactly when its last constructor call did, the others having succeeded. */
  lemma {:induction false} ResolveTells(g: Graph, run: Behaviour, s: Store, key: Key, stack: seq<Key>)
    requires Told(g, run, s)
    ensures var (r, s') := Resolve(g, run, s, key, stack);
            && Told(g, run, s') && s.calls <= s'.calls && EndsIn(s'.calls, |s.calls|, OriginOf(r)) && NotRaised(r)
            && (r.Ok? ==> Supplied(g, s'.calls, key, r.value))
    decreases g.Keys - Elements(stack), 1, 0
  {
    hide Authentic, Supplied, Construct;
    if key !in stack && key in g {
      if g[key].Instance? {
        GivenIsSupplied(g, s.calls, key);
      } else if !Ready(g, s, key) || g[key].IsTransient() {
        BuildTells(g, run, s, key, stack);
      }
    }
  }

  lemma GivenIsSupplied(g: Graph, calls: seq<Call>, key: Key)
    requires key in g && g[key].Instance?
    ensures Supplied(g, calls, key, g[key].value)
  {
  }

  lemma {:induction false} BuildTells(g: Graph, run: Behaviour, s: Store, key: Key, stack: seq<Key>)
    requires Told(g, run, s) && key in g && key !in stack && g[key].Provided?
    ensures var (r, s') := Build(g, run, s, key, stack);
            && Told(g, run, s') && s.calls <= s'.calls && EndsIn(s'.calls, |s.calls|, OriginOf(r)) && NotRaised(r)
            && (r.Ok? ==> Supplied(g, s'.calls, key, r.value))
            && (r.Ok? ==> FreshlyBuilt(s'.calls, |s.calls|, key, r.value))
    decreases g.Keys - Elements(stack), 0, 0
  {
    hide Authentic, Supplied, Construct, SuppliedEach;
    assert key in g.Keys - Elements(stack) && key !in g.Keys - Elements(stack + [key]);
    ArgumentsTell(g, run, s, g[key].inputs, stack + [key]);
    var (args, s1) := Arguments(g, run, s, g[key].inputs, stack + [key]);
    if args.Ok? {
      AuthenticIsAnswered(g, run, s1.calls);
      CallIsAnswered(g, run, s1, key, args.value);
      CallIsAuthentic(g, run, s1, key, args.value);
      BackedLater(g, s1, Construct(run, s1, key, g[key].fallible, args.value).1.calls);
    }
  }

  lemma AuthenticIsAnswered(g: Graph, run: Behaviour, calls: seq<Call>)
    requires Authentic(g, run, calls)
    ensures AllAnswered(g, run, calls)
  {
  }

  /** The value was returned by the last call, which is a new one. */
  predicate FreshlyBuilt(calls: seq<Call>, from: nat, key: Key, value: Value) {
    from < |calls| && calls[|calls| - 1].key == key && calls[|calls| - 1].outcome == Built(value)
  }

  lemma {:induction false} ArgumentsTell(g: Graph, run: Behaviour, s: Store, inputs: seq<Key>, stack: seq<Key>)
    requires Told(g, run, s)
    ensures var (r, s') := Arguments(g, run, s, inputs, stack);
            && Told(g, run, s') && s.calls <= s'.calls && EndsIn(s'.calls, |s.calls|, OriginOf(r)) && NotRaised(r)
            && (r.Ok? ==> SuppliedEach(g, s'.calls, inputs, r.value))
    decreases g.Keys - Elements(stack), 2, |inputs|
  {
    hide Told, Supplied;
    if inputs != [] {
      ResolveTells(g, run, s, inputs[0], stack);
      var (first, s1) := Resolve(g, run, s, inputs[0], stack);
      if first.Ok? {
        ArgumentsTell(g, run, s1, inputs[1..], stack);
        SuppliedLater(g, s1.calls, Arguments(g, run, s1, inputs[1..], stack).1.calls, inputs[0], first.value);
      }
    }
  }

  /** A transient service is built anew for every resolution. */
  lemma TransientIsFresh(g: Graph, run: Behaviour, s: Store, key: Key)
    requires Told(g, run, s) && key in g && g[key].IsTransient()
    ensures var (r, s') := Resolve(g, run, s, key, []);
            r.Ok? ==> FreshlyBuilt(s'.calls, |s.calls|, key, r.value)
  {
    BuildTells(g, run, s, key, []);
  }

  // ----- any number of resolutions

  /** The failed calls of a history, in order. */
  function Faults(calls: seq<Call>): seq<(Key, Fault)> {
    if calls == [] then []
    else
      var last := calls[|calls| - 1];
      Faults(calls[..|calls| - 1]) + if last.outcome.Faulted? then [(last.key, last.outcome.fault)] else []
  }

  /** The errors of a sequence of results, by the constructors they come from. */
  function Origins(results: seq<Resolved>): seq<(Key, Fault)> {
    if results == [] then []
    else (if OriginOf(results[0]).Some? then [OriginOf(results[0]).value] else []) + Origins(results[1..])
  }

  lemma FaultsAppend(calls: seq<Call>, call: Call)
    ensures Faults(calls + [call]) ==
            Faults(calls) + if call.outcome.Faulted? then [(call.key, call.outcome.fault)] else []
  {
    assert (calls + [call])[..|calls|] == calls;
  }

  lemma {:induction false} NoNewFaults(calls: seq<Call>, n: nat)
    requires n <= |calls| && EndsIn(calls, n, None)
    ensures Faults(calls) == Faults(calls[..n])
  {
    if n < |calls| {
      NoNewFaults(calls[..|calls| - 1], n);
      assert calls[..|calls| - 1][..n] == calls[..n];
    } else {
      assert calls[..n] == calls;
    }
  }

  lemma NewFaults(calls: seq<Call>, n: nat, origin: Option<(Key, Fault)>)
    requires n <= |calls| && EndsIn(calls, n, origin)
    ensures Faults(calls) == Faults(calls[..n]) + if origin.Some? then [origin.value] else []
  {
    hide Faults;
    if origin.None? {
      NoNewFaults(calls, n);
    } else {
      var rest := calls[..|calls| - 1];
      NoNewFaults(rest, n);
      assert rest[..n] == calls[..n] && calls == rest + [calls[|calls| - 1]];
      FaultsAppend(rest, calls[|calls| - 1]);
    }
  }

  /** Any resolutions, one after another, on any container: the history is what the
      constructors returned, each value is one of its service, and the errors returned
      are those of the constructors, all of them and in order. */
  lemma {:induction false} ResolutionsTell(g: Graph, run: Behaviour, s: Store, keys: seq<Key>)
    requires Told(g, run, s)
    ensures var (results, s') := ResolveEach(g, run, s, keys);
            && Told(g, run, s') && s.calls <= s'.calls && |results| == |keys|
            && Faults(s'.calls) == Faults(s.calls) + Origins(results)
            && forall i :: 0 <= i < |keys| && results[i].Ok? ==> Supplied(g, s'.calls, keys[i], results[i].value)
    decreases keys
  {
    hide Told, Supplied, Resolve, Faults, Origins, OriginOf, EndsIn, NotRaised;
    NoOrigins();
    if keys != [] {
      ResolveTells(g, run, s, keys[0], []);
      var (first, s1) := Resolve(g, run, s, keys[0], []);
      var (rest, s2) := ResolveEach(g, run, s1, keys[1..]);
      ResolutionsTell(g, run, s1, keys[1..]);
      NewFaults(s1.calls, |s.calls|, OriginOf(first));
      assert s1.calls[..|s.calls|] == s.calls;
      if first.Ok? {
        SuppliedLater(g, s1.calls, s2.calls, keys[0], first.value);
      }
      OriginsCons(first, rest);
    }
  }

  lemma NoOrigins()
    ensures Origins([]) == []
  {
  }

  lemma OriginsCons(first: Resolved, rest: seq<Resolved>)
    ensures Origins([first] + rest) == (if OriginOf(first).Some? then [OriginOf(first).value] else []) + Origins(rest)
  {
    assert ([first] + rest)[1..] == rest;
  }

  /** On a validated container, a resolution returns an error exactly when a constructor
      it called did, and it is that constructor's error. */
  lemma FailsExactlyWhenConstructorFails(g: Graph, run: Behaviour, s: Store, key: Key)
    requires Told(g, run, s) && Closed(g) && Acyclic(g) && key in g
    ensures var (r, s') := Resolve(g, run, s, key, []);
            && (r.Err? <==> exists i :: |s.calls| <= i < |s'.calls| && s'.calls[i].outcome.Faulted?)
            && (forall i :: |s.calls| <= i < |s'.calls| && s'.calls[i].outcome.Faulted? ==>
                  r.Err? && Origin(r.error) == Some((s'.calls[i].key, s'.calls[i].outcome.fault)))
  {
    hide Told, Resolve, Supplied;
    ResolveTells(g, run, s, key, []);
    assert IsPath(g, [] + [key]);
    ValidatedResolve(g, run, s, key, []);
    var (r, s') := Resolve(g, run, s, key, []);
    if r.Err? {
      assert s'.calls[|s'.calls| - 1].outcome.Faulted?;
    }
  }

  // ----- errors on any container, validated or not

  /** What an error says is so: its cause is a closed path, a key that is not registered, or
      a constructor's error, found by going from each service that was being built to one
      of its inputs. */
  ghost predicate True(g: Graph, key: Key, e: ResolveError)
    decreases e
  {
    match e
    case Circular(cycle) => IsCycle(g, cycle) && key in cycle
    case Unregistered(missing) => missing == key && key !in g
    case Raised(_) => false
    case Building(k, cause) =>
      && k == key && k in g && g[k].Provided?
      && (cause.Raised? || exists d :: d in g[k].inputs && True(g, d, cause))
  }

  lemma {:induction false} ErrorsAreTrue(g: Graph, run: Behaviour, s: Store, key: Key, stack: seq<Key>)
    requires IsPath(g, stack + [key])
    ensures var r := Resolve(g, run, s, key, stack).0; r.Err? ==> True(g, key, r.error)
    decreases g.Keys - Elements(stack), 1, 0
  {
    if key in stack {
      CycleOfIsCycle(g, stack, key);
      CycleHasKey(stack, key);
    } else if key in g && g[key].Provided? {
      assert key in g.Keys - Elements(stack) && key !in g.Keys - Elements(stack + [key]);
      ArgumentErrorsAreTrue(g, run, s, g[key].inputs, stack + [key]);
    }
  }

  lemma CycleHasKey(stack: seq<Key>, key: Key)
    requires key in stack
    ensures key in CycleOf(stack, key)
  {
  }

  lemma {:induction false} ArgumentErrorsAreTrue(g: Graph, run: Behaviour, s: Store, inputs: seq<Key>, stack: seq<Key>)
    requires stack != [] && IsPath(g, stack)
    requires forall j :: 0 <= j < |inputs| ==> Edge(g, stack[|stack| - 1], inputs[j])
    ensures var r := Arguments(g, run, s, inputs, stack).0;
            r.Err? ==> exists d :: d in inputs && True(g, d, r.error)
    decreases g.Keys - Elements(stack), 2, |inputs|
  {
    hide True;
    if inputs != [] {
      ExtendPath(g, stack, inputs[0]);
      ErrorsAreTrue(g, run, s, inputs[0], stack);
      var (first, s1) := Resolve(g, run, s, inputs[0], stack);
      if first.Ok? {
        ArgumentErrorsAreTrue(g, run, s1, inputs[1..], stack);
      } else {
        assert inputs[0] in inputs;
      }
    }
  }
}
