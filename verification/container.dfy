/**
  The service container (container.go): registrations, the three-colour walk of
  `Validate`, and `resolve` as an interpreter of the dependency graph.
  */
module Container {
  import opened Wrappers
  import opened Sequences

  /** A service type, known only by its printed name. */
  type Key = string
  /** The identity of a built service, and of an error a constructor returned. */
  type Value = nat
  const NIL: Value := 0
  type Fault = nat

  datatype Lifetime = SingletonLifetime | TransientLifetime

  /** A registration made by `Instance`, or one made by `Provide`/`ProvideAs`.
      `fallible` says the constructor returns `(T, error)` rather than `T`. */
  datatype Registration =
    | Instance(value: Value)
    | Provided(inputs: seq<Key>, lifetime: Lifetime, fallible: bool)
  {
    function Inputs(): seq<Key> {
      if Provided? then inputs else []
    }

    predicate IsTransient() {
      Provided? && lifetime == TransientLifetime
    }

    /** A singleton that a constructor has to build. */
    predicate IsBuilt() {
      Provided? && lifetime == SingletonLifetime
    }
  }

  type Graph = map<Key, Registration>

  // ---------------------------------------------------------------------------
  // The dependency graph
  // ---------------------------------------------------------------------------

  predicate Edge(g: Graph, a: Key, b: Key) {
    a in g && b in g[a].Inputs()
  }

  ghost predicate IsPath(g: Graph, p: seq<Key>) {
    forall i, j :: 0 <= i < j < |p| && j == i + 1 ==> Edge(g, p[i], p[j])
  }

  /** A closed path: back where it started after at least one edge. */
  ghost predicate IsCycle(g: Graph, p: seq<Key>) {
    |p| >= 2 && IsPath(g, p) && p[0] == p[|p| - 1]
  }

  ghost predicate Acyclic(g: Graph) {
    forall p :: !IsCycle(g, p)
  }

  ghost predicate Closed(g: Graph) {
    forall k, d :: Edge(g, k, d) ==> d in g
  }

  /** Every key is listed after everything it depends on. */
  ghost predicate Topological(g: Graph, order: seq<Key>) {
    && NoDuplicates(order)
    && (forall i :: 0 <= i < |order| ==> order[i] in g)
    && (forall i, d :: 0 <= i < |order| && Edge(g, order[i], d) ==> d in order[..i])
  }

  /** Along a path, positions in a topological order strictly fall. */
  lemma {:induction false} PathDescends(g: Graph, order: seq<Key>, p: seq<Key>)
    requires Topological(g, order) && IsPath(g, p)
    requires |p| >= 2 && p[0] in order
    ensures p[|p| - 1] in order
    ensures IndexOf(order, p[|p| - 1]) < IndexOf(order, p[0])
  {
    var i := IndexOf(order, p[0]);
    assert Edge(g, p[0], p[1]);
    assert p[1] in order[..i];
    var j :| 0 <= j < i && order[j] == p[1];
    IndexIsUnique(order, j);
    if |p| > 2 {
      PathDescends(g, order, p[1..]);
    }
  }

  /** A graph that can be listed in dependency order has no cycle and no gap. */
  lemma TopologicalMeansSound(g: Graph, order: seq<Key>)
    requires Topological(g, order) && Elements(order) == g.Keys
    ensures Closed(g) && Acyclic(g)
  {
    forall k, d | Edge(g, k, d) ensures d in g {
      assert k in Elements(order);
      var i := IndexOf(order, k);
      assert d in order[..i];
    }
    forall p ensures !IsCycle(g, p) {
      if IsCycle(g, p) {
        assert Edge(g, p[0], p[1]);
        assert p[0] in Elements(order);
        PathDescends(g, order, p);
      }
    }
  }

  // ---------------------------------------------------------------------------
  // Validate
  // ---------------------------------------------------------------------------

  datatype GraphError =
    | CircularDependency(cycle: seq<Key>)
    | UnregisteredService(key: Key)
    | UnregisteredInput(key: Key, input: Key)

  /** What an error reported by `Validate` says about the graph. */
  ghost predicate Genuine(g: Graph, e: GraphError) {
    match e
    case CircularDependency(cycle) => IsCycle(g, cycle)
    case UnregisteredService(key) => key !in g
    case UnregisteredInput(key, input) => Edge(g, key, input) && input !in g
  }

  /** The cycle `circularDependencyError` prints: the path from the first
      occurrence of the repeated key (or from the start), and that key again. */
  function CycleOf(path: seq<Key>, repeated: Key): seq<Key> {
    var start := if repeated in path then IndexOf(path, repeated) else 0;
    path[start..] + [repeated]
  }

  lemma CycleOfIsCycle(g: Graph, path: seq<Key>, repeated: Key)
    requires repeated in path && IsPath(g, path + [repeated])
    ensures IsCycle(g, CycleOf(path, repeated))
  {
    var start := IndexOf(path, repeated);
    var c := CycleOf(path, repeated);
    assert c == (path + [repeated])[start..];
  }

  datatype Colour = Gray | Black

  /** What the walk keeps: gray keys are the current path, black keys are closed
      off in dependency order. */
  ghost predicate WalkInvariant(g: Graph, state: map<Key, Colour>, path: seq<Key>, finished: seq<Key>) {
    && state.Keys <= g.Keys
    && (forall k :: k in state && state[k] == Gray <==> k in path)
    && (forall k :: k in state && state[k] == Black <==> k in finished)
    && NoDuplicates(path)
    && IsPath(g, path)
    && Topological(g, finished)
  }

  lemma ExtendPath(g: Graph, path: seq<Key>, next: Key)
    requires IsPath(g, path) && |path| > 0 && Edge(g, path[|path| - 1], next)
    ensures IsPath(g, path + [next])
  {
    var p := path + [next];
  }

  lemma ExtendOrder(g: Graph, order: seq<Key>, key: Key)
    requires Topological(g, order) && key in g && key !in order
    requires forall d :: Edge(g, key, d) ==> d in order
    ensures Topological(g, order + [key])
  {
    var longer := order + [key];
    forall i, d | 0 <= i < |longer| && Edge(g, longer[i], d) ensures d in longer[..i] {
      if i < |order| {
        assert longer[..i] == order[..i];
      } else {
        assert longer[..i] == order;
      }
    }
  }

  lemma StartKey(g: Graph, state: map<Key, Colour>, path: seq<Key>, finished: seq<Key>, key: Key)
    requires WalkInvariant(g, state, path, finished)
    requires key in g && key !in state && IsPath(g, path + [key])
    ensures WalkInvariant(g, state[key := Gray], path + [key], finished)
  {
    var gray := state[key := Gray];
    assert key !in path && key !in finished;
    forall k ensures k in gray && gray[k] == Gray <==> k in path + [key] {
    }
    forall k ensures k in gray && gray[k] == Black <==> k in finished {
    }
  }

  /** Popping the path and blackening its last key keeps the invariant. */
  lemma FinishKey(g: Graph, state: map<Key, Colour>, path: seq<Key>, finished: seq<Key>, key: Key)
    requires WalkInvariant(g, state, path + [key], finished)
    requires forall d :: Edge(g, key, d) ==> d in finished
    ensures WalkInvariant(g, state[key := Black], path, finished + [key])
  {
    var longer := path + [key];
    assert longer[|path|] == key && key in longer;
    assert forall k :: k in path ==> k in longer && k != key by {
      assert forall i :: 0 <= i < |path| ==> longer[i] == path[i] && longer[i] != longer[|path|];
    }
    forall i, j | 0 <= i < j < |path| ensures path[i] != path[j] {
      assert longer[i] != longer[j];
    }
    assert path == longer[..|path|];
    ExtendOrder(g, finished, key);
  }

  /** The variables `Validate` shares with its `visit` closure: the colour map
      and the current path. `finished` records the order keys turned black. */
  class Walk {
    const registrations: Graph
    var state: map<Key, Colour>
    var path: seq<Key>
    ghost var finished: seq<Key>

    ghost predicate Valid()
      reads this
    {
      WalkInvariant(registrations, state, path, finished)
    }

    constructor (registrations: Graph)
      ensures Valid() && path == [] && finished == []
      ensures this.registrations == registrations
    {
      this.registrations := registrations;
      state, path, finished := map[], [], [];
    }

    /** The recursive closure of `Validate`. It terminates because every
        recursive call colours one more registered key. */
    method Visit(key: Key) returns (err: Option<GraphError>)
      requires Valid()
      requires IsPath(registrations, path + [key])
      modifies this
      ensures path == old(path)
      ensures err.None? ==> Valid() && key in finished
      ensures err.None? ==> old(finished) <= finished && old(state.Keys) <= state.Keys
      ensures err.Some? ==> Genuine(registrations, err.value)
      ensures err.Some? && key in registrations ==> !err.value.UnregisteredService?
      decreases registrations.Keys - state.Keys, 0
    {
      if key in state && state[key] == Gray {
        CycleOfIsCycle(registrations, path, key);
        return Some(CircularDependency(CycleOf(path, key)));
      }
      if key in state && state[key] == Black {
        return None;
      }
      if key !in registrations {
        return Some(UnregisteredService(key));
      }
      StartKey(registrations, state, path, finished, key);
      ghost var before := path;
      state := state[key := Gray];
      path := path + [key];
      err := VisitInputs(key);
      if err.None? {
        FinishKey(registrations, state, before, finished, key);
        state := state[key := Black];
        finished := finished + [key];
      }
      path := path[..|path| - 1];
    }

    /** The closure's loop over the inputs of the key at the end of the path. */
    method VisitInputs(key: Key) returns (err: Option<GraphError>)
      requires Valid() && |path| > 0 && path[|path| - 1] == key && key in registrations
      modifies this
      ensures path == old(path)
      ensures err.None? ==> Valid() && forall d :: Edge(registrations, key, d) ==> d in finished
      ensures err.None? ==> old(finished) <= finished && old(state.Keys) <= state.Keys
      ensures err.Some? ==> Genuine(registrations, err.value) && !err.value.UnregisteredService?
      decreases registrations.Keys - state.Keys, 1
    {
      var inputs := registrations[key].Inputs();
      var i := 0;
      while i < |inputs|
        invariant 0 <= i <= |inputs|
        invariant Valid() && path == old(path)
        invariant old(state.Keys) <= state.Keys && old(finished) <= finished
        invariant forall j :: 0 <= j < i ==> inputs[j] in finished
      {
        var dependency := inputs[i];
        assert Edge(registrations, key, dependency);
        if dependency !in registrations {
          return Some(UnregisteredInput(key, dependency));
        }
        ExtendPath(registrations, path, dependency);
        ghost var done := finished;
        err := Visit(dependency);
        if err.Some? {
          return;
        }
        assert forall j :: 0 <= j < i ==> inputs[j] in done;
        i := i + 1;
      }
      return None;
    }
  }

  /** `Validate` succeeds exactly on graphs with every input registered and no
      cycle, whichever order the map is ranged over; an error it reports is one. */
  method Validate(registrations: Graph) returns (err: Option<GraphError>)
    ensures err.None? <==> Closed(registrations) && Acyclic(registrations)
    ensures err.Some? ==> Genuine(registrations, err.value) && !err.value.UnregisteredService?
  {
    var walk := new Walk(registrations);
    var remaining := registrations.Keys;
    while remaining != {}
      invariant walk.Valid() && walk.path == [] && walk.registrations == registrations
      invariant remaining <= registrations.Keys
      invariant forall k :: k in registrations.Keys - remaining ==> k in walk.finished
      decreases remaining
    {
      var key :| key in remaining;
      ghost var done := walk.finished;
      err := walk.Visit(key);
      if err.Some? {
        return;
      }
      assert forall k :: k in done ==> k in walk.finished;
      remaining := remaining - {key};
    }
    assert Elements(walk.finished) == registrations.Keys by {
      assert forall k :: k in registrations.Keys ==> k in walk.finished;
    }
    TopologicalMeansSound(registrations, walk.finished);
    return None;
  }
}
