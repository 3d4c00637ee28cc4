/**
  Services that tell the conditions on the generated file apart (wiring.go): what
  `collect` accepts and Go refuses, and what Go accepts that is not the container.
  */
module Witnesses {
  import opened Wrappers
  import opened Sequences
  import opened Container
  import opened Resolution
  import opened Wiring
  import opened Generator
  import opened WireScope
  import opened Factories
  import opened FactoryRuns
  import opened GeneratedFile
  import opened ErrVariable

  /** A type of a package, the constructor of its service, and its name lowered. */
  datatype Kind = Kind(path: string, name: string, lowered: string, made: Ref)

  /** What reflection says of a service of this kind. */
  ghost predicate Suits(reserved: set<string>, naming: Naming, key: Key, kind: Kind) {
    && naming.nameable(key) && naming.expressible(key) && naming.field(key) == kind.name
    && naming.lowered(kind.name) == kind.lowered && kind.lowered != "" && kind.lowered !in reserved
    && naming.types(key) == [Ref(kind.path, kind.name)] && naming.made(key) == kind.made && naming.predeclared(key) == {}
  }

  /** The naming of two kinds of services; `errs` says whether the first holds errors. */
  function NamingOf(a: Key, x: Kind, y: Kind, errs: bool): Naming {
    Naming(k => true, k => if k == a then x.name else y.name, k => true,
           name => if name == x.name then x.lowered else y.lowered,
           k => if k == a then [Ref(x.path, x.name)] else [Ref(y.path, y.name)], k => {},
           k => if k == a then x.made else y.made, path => path, k => k == a && errs)
  }

  lemma NamingSuits(reserved: set<string>, a: Key, b: Key, x: Kind, y: Kind, errs: bool)
    requires a != b && x.name != y.name
    requires x.lowered != "" && x.lowered !in reserved && y.lowered != "" && y.lowered !in reserved
    ensures var naming := NamingOf(a, x, y, errs);
            Suits(reserved, naming, a, x) && Suits(reserved, naming, b, y) && naming.holdsError(a) == errs && !naming.holdsError(b)
  {
  }

  ghost predicate ImportsFit(g: Graph, naming: Naming, keys: seq<Key>, imports: map<string, string>) {
    Injective(imports) && "fmt" !in imports.Values && imports.Keys == Paths(g, naming, keys)
  }

  /** The service `collect` makes of a kind. */
  function Made(kind: Kind, factoryErr: bool): Service {
    Service(kind.name, kind.lowered, factoryErr)
  }

  lemma PairIsAccepted(g: Graph, reserved: set<string>, naming: Naming, a: Key, b: Key, x: Kind, y: Kind, services: map<Key, Service>,
                       imports: map<string, string>)
    requires a != b && g.Keys == services.Keys == {a, b} && Closed(g) && Acyclic(g) && SingletonsOnly(g)
    requires Suits(reserved, naming, a, x) && Suits(reserved, naming, b, y) && x.name != y.name && x.lowered != y.lowered
    requires services[a] == Made(x, services[a].factoryErr) && services[b] == Made(y, services[b].factoryErr)
    requires FactoriesMarked(g, services) && ImportsFit(g, naming, [a, b], imports)
    ensures Accepted(g, reserved, naming, [a, b], services, imports) && Described(g, services)
  {
    PairIsChosen(reserved, naming, a, b, services);
    PairIsCompilable(g, services, a, b);
    hide FactoriesMarked, Paths, Closed, Acyclic, SingletonsOnly, VarsChosen, Compilable, Injective;
    var keys := [a, b];
    assert keys[0] == a && keys[1] == b;
    assert Elements(keys) == {a, b};
  }

  lemma PairIsChosen(reserved: set<string>, naming: Naming, a: Key, b: Key, services: map<Key, Service>)
    requires a != b && a in services && b in services
    requires services[a].varName == naming.lowered(naming.field(a)) && services[b].varName == naming.lowered(naming.field(b))
    requires services[a].varName != "" && services[b].varName != "" && services[a].varName != services[b].varName
    requires services[a].varName !in reserved && services[b].varName !in reserved
    ensures VarsChosen(reserved, naming, [a, b], services)
  {
    var names := NamesIn(services, [a, b]);
    assert names == [services[a].varName, services[b].varName];
    assert names[..0] == [] && names[..1] == [services[a].varName];
    assert ChosenAt(reserved, naming.lowered(naming.field(a)), names, 0);
    assert ChosenAt(reserved, naming.lowered(naming.field(b)), names, 1);
  }

  lemma PairIsCompilable(g: Graph, services: map<Key, Service>, a: Key, b: Key)
    requires g.Keys == services.Keys == {a, b} && services[a].varName != services[b].varName
    requires Closed(g) && Acyclic(g) && SingletonsOnly(g)
    ensures Compilable(g, VarNames(services)) && Described(g, services)
  {
    forall k, d | k in g && d in g[k].Inputs() ensures d in services {
      assert Edge(g, k, d);
    }
  }

  // ----- two services

  function Both(a: Key, r: Registration, b: Key, q: Registration): Graph {
    map[a := r, b := q]
  }

  function Services(a: Key, x: Kind, b: Key, y: Kind, fails: bool): map<Key, Service> {
    map[a := Made(x, fails), b := Made(y, fails)]
  }

  /** The second may take the first, once or twice. */
  ghost predicate Pair(g: Graph, a: Key, b: Key) {
    && a != b && g.Keys == {a, b} && g[a].Inputs() == []
    && (forall d :: d in g[b].Inputs() ==> d == a && (g[b].IsBuilt() ==> !g[a].IsTransient()))
  }

  lemma PairIsSound(g: Graph, a: Key, b: Key)
    requires Pair(g, a, b)
    ensures Closed(g) && Acyclic(g) && SingletonsOnly(g)
  {
    var order := [a, b];
    assert order[..1] == [a] && order[..0] == [];
    assert forall i, d :: 0 <= i < |order| && Edge(g, order[i], d) ==> i == 1 && d == a;
    TopologicalMeansSound(g, order);
  }

  function PathsOf(g: Graph, key: Key, kind: Kind): set<string>
    requires key in g
  {
    {kind.path} + if g[key].Provided? then {kind.made.path} else {}
  }

  lemma RefsOf(g: Graph, reserved: set<string>, naming: Naming, key: Key, kind: Kind)
    requires key in g && Suits(reserved, naming, key, kind)
    ensures Refs(g, naming, key) == [Ref(kind.path, kind.name)] + if g[key].Provided? then [kind.made] else []
    ensures PathsIn(Refs(g, naming, key)) == PathsOf(g, key, kind)
  {
  }

  lemma PairPaths(g: Graph, reserved: set<string>, naming: Naming, a: Key, b: Key, x: Kind, y: Kind)
    requires a in g && b in g && Suits(reserved, naming, a, x) && Suits(reserved, naming, b, y)
    ensures Paths(g, naming, [a, b]) == PathsOf(g, a, x) + PathsOf(g, b, y)
  {
    hide Suits, Refs, PathsIn;
    RefsOf(g, reserved, naming, a, x);
    RefsOf(g, reserved, naming, b, y);
    PathsOneMore(g, naming, [a, b], 0);
    PathsOneMore(g, naming, [a, b], 1);
    assert [a, b][..2] == [a, b] && Paths(g, naming, [a, b][..0]) == {};
  }

  /** What `collect` finds and leaves of two services. */
  ghost predicate Collects(g: Graph, reserved: set<string>, naming: Naming, a: Key, b: Key, x: Kind, y: Kind,
                           services: map<Key, Service>, imports: map<string, string>)
  {
    && Pair(g, a, b) && services.Keys == {a, b} && Suits(reserved, naming, a, x) && Suits(reserved, naming, b, y)
    && x.name != y.name && x.lowered != y.lowered
    && services[a] == Made(x, services[a].factoryErr) && services[b] == Made(y, services[b].factoryErr)
    && FactoriesMarked(g, services)
    && Injective(imports) && "fmt" !in imports.Values && imports.Keys == PathsOf(g, a, x) + PathsOf(g, b, y)
  }

  lemma CollectedIsAccepted(g: Graph, reserved: set<string>, naming: Naming, a: Key, b: Key, x: Kind, y: Kind,
                            services: map<Key, Service>, imports: map<string, string>)
    requires Collects(g, reserved, naming, a, b, x, y, services, imports)
    ensures Accepted(g, reserved, naming, [a, b], services, imports) && Described(g, services)
    ensures Compilable(g, VarNames(services)) && FieldsApart(services) && forall k :: k in [a, b] ==> k in g
    ensures NamesFit(g, NamesOf(g, naming, services, imports))
  {
    hide Suits, FactoriesMarked, Injective, NamesFit, Accepted;
    PairIsSound(g, a, b);
    PairPaths(g, reserved, naming, a, b, x, y);
    PairIsAccepted(g, reserved, naming, a, b, x, y, services, imports);
    PairIsCompilable(g, services, a, b);
    AcceptedIsCollected(g, reserved, naming, [a, b], services, imports);
    NothingPredeclared(g, reserved, naming, a, b, x, y);
    NamesOfFit(g, reserved, naming, [a, b], services, imports);
  }

  lemma NothingPredeclared(g: Graph, reserved: set<string>, naming: Naming, a: Key, b: Key, x: Kind, y: Kind)
    requires g.Keys == {a, b} && Suits(reserved, naming, a, x) && Suits(reserved, naming, b, y)
    ensures PredeclaredFit(g, naming)
  {
  }

  lemma PairEmission(g: Graph, a: Key, b: Key)
    requires Pair(g, a, b) && Closed(g) && g[a].IsBuilt() && g[b].IsBuilt()
    ensures Emission(g, [a, b]) == [a, b]
  {
    assert [a, b][1..] == [b] && [b][1..] == [];
    assert Singletons(g, [b]) == [b];
    assert Singletons(g, [a, b]) == [a, b];
    VisitLeaf(g, {}, a);
    VisitNext(g, a, b);
    assert VisitAll(g, {b} + {a}, []).1 == [] && [b] + [] == [b];
    assert VisitAll(g, {a}, [b]).1 == [b];
    assert {a} + {} == {a} && [a] + [b] == [a, b];
  }

  lemma VisitLeaf(g: Graph, visited: set<Key>, key: Key)
    requires Closed(g) && key in g && key !in visited && g[key].Inputs() == [] && g[key].IsBuilt()
    ensures Visit(g, visited, key) == ({key} + visited, [key])
  {
    assert VisitAll(g, visited + {key}, g[key].Inputs()) == (visited + {key}, []);
    assert [] + [key] == [key] && visited + {key} == {key} + visited;
  }

  lemma {:induction false} VisitedInputs(g: Graph, visited: set<Key>, inputs: seq<Key>)
    requires Closed(g) && forall d :: d in inputs ==> d in g && d in visited
    ensures VisitAll(g, visited, inputs) == (visited, [])
    decreases inputs
  {
    if inputs != [] {
      VisitedInputs(g, visited, inputs[1..]);
      var none: seq<Key> := [];
      assert inputs[0] in inputs && Visit(g, visited, inputs[0]) == (visited, none) && none + none == none;
    }
  }

  lemma VisitNext(g: Graph, a: Key, b: Key)
    requires Pair(g, a, b) && Closed(g) && g[b].IsBuilt()
    ensures Visit(g, {a}, b) == ({b} + {a}, [b])
  {
    assert forall d :: d in g[b].Inputs() ==> d == a && d in g;
    VisitedInputs(g, {a} + {b}, g[b].Inputs());
    assert [] + [b] == [b] && {a} + {b} == {b} + {a};
  }

  /** The names in a file of these two services. */
  lemma PairNames(g: Graph, reserved: set<string>, naming: Naming, a: Key, b: Key, x: Kind, y: Kind,
                  services: map<Key, Service>, imports: map<string, string>)
    requires Collects(g, reserved, naming, a, b, x, y, services, imports)
    ensures var names := NamesOf(g, naming, services, imports);
            && names.imports == imports && names.builtins == {} && names.packages.Keys == names.mentioned.Keys == {a, b}
            && names.packages[a] == AliasOf(imports, x.made.path) && names.packages[b] == AliasOf(imports, y.made.path)
            && (names.errHolds <==> (x.lowered == "err" && naming.holdsError(a)) || (y.lowered == "err" && naming.holdsError(b)))
  {
    hide Pair, FactoriesMarked, Injective, Refs, ReadsLikeErrorf, PathsOf;
    assert g.Keys == {a, b} by {
      PairKeys(g, a, b);
    }
  }

  lemma PairKeys(g: Graph, a: Key, b: Key)
    requires Pair(g, a, b)
    ensures g.Keys == {a, b}
  {
  }

  lemma CollectsPair(g: Graph, reserved: set<string>, naming: Naming, a: Key, b: Key, x: Kind, y: Kind,
                     services: map<Key, Service>, imports: map<string, string>)
    requires Collects(g, reserved, naming, a, b, x, y, services, imports)
    ensures Pair(g, a, b) && services.Keys == {a, b}
    ensures services[a].fieldName == x.name && services[a].varName == x.lowered
    ensures services[b].fieldName == y.name && services[b].varName == y.lowered
  {
  }

  /** An alias of one letter is never fmt, a keyword or another forbidden word. */
  predicate Letter(alias: string) {
    |alias| == 1 && alias != "_"
  }

  lemma LettersAreAllowed(names: Names, checks: bool)
    requires names.builtins == {} && (forall v :: v in names.imports.Values ==> Letter(v))
    requires !names.errorf && (checks ==> "fmt" !in names.imports)
    ensures ImportsClear(names, checks, false)
  {
    KeywordsAreLong();
    hide GO_KEYWORDS;
    assert |"Services"| == 8 && |"Wire"| == 4 && |"Fingerprint"| == 11 && |"init"| == 4 && |"error"| == 5 && |"nil"| == 3;
  }

  lemma KeywordsAreLong()
    ensures forall w :: w in GO_KEYWORDS ==> |w| >= 2
  {
  }

  lemma LettersAreNotErrorf(g: Graph, naming: Naming, services: map<Key, Service>, imports: map<string, string>)
    requires forall v :: v in imports.Values ==> Letter(v)
    ensures !NamesOf(g, naming, services, imports).errorf
  {
    forall path ensures |AliasOf(imports, path)| < 3 {
      if path in imports {
        assert imports[path] in imports.Values;
      }
    }
  }

  lemma ClearSingletons(g: Graph, services: map<Key, Service>, names: Names, out: seq<Key>)
    requires Named(g, VarNames(services)) && Described(g, services) && names.packages.Keys == names.mentioned.Keys == g.Keys
    requires forall k :: k in g ==> !g[k].IsTransient()
    requires (forall k :: k in out ==> k in g) && ImportsClear(names, Checks(g, services), false)
    requires WireClear(g, VarNames(services), names.packages, names.errHolds, out)
    ensures FileClear(g, services, names, out)
  {
    hide ImportsClear, WireClear, Checks;
  }

  // ----- err

  lemma ErrPairCompiles(g: Graph, reserved: set<string>, naming: Naming, a: Key, b: Key, p: string,
                        services: map<Key, Service>, imports: map<string, string>, run: Behaviour)
    requires Letter(p) && imports == map[p := p] && naming.holdsError(a) && Constant(run)
    requires Collects(g, reserved, naming, a, b, Kind(p, "Err", "err", Ref(p, "NewErr")), Kind(p, "X", "x", Ref(p, "NewX")),
                      services, imports)
    requires g[a] == Provided([], SingletonLifetime, false) && g[b] == Provided([a], SingletonLifetime, true)
    ensures Accepted(g, reserved, naming, [a, b], services, imports) && Described(g, services) && FieldsApart(services)
    ensures (forall k :: k in [a, b] ==> k in g) && a in services
    ensures FileCompiles(g, services, NamesOf(g, naming, services, imports), [a, b]) && !FileErrFree(g, services)
    ensures var wire := RunWire(g, services, run, [a, b]).0;
            wire.Ok? && services[a].fieldName in wire.value && wire.value[services[a].fieldName] == NIL
    ensures var (r, s) := ResolveSingletons(g, run, [a, b]); r.Ok? && Ready(g, s, a) && InstanceOf(g, s, a) != NIL
  {
    hide *;
    var x, y := Kind(p, "Err", "err", Ref(p, "NewErr")), Kind(p, "X", "x", Ref(p, "NewX"));
    var names := NamesOf(g, naming, services, imports);
    CollectedIsAccepted(g, reserved, naming, a, b, x, y, services, imports);
    CollectsPair(g, reserved, naming, a, b, x, y, services, imports);
    PairNames(g, reserved, naming, a, b, x, y, services, imports);
    OneImport(p, imports);
    LettersAreNotErrorf(g, naming, services, imports);
    ErrPairShape(g, a, b);
    SingletonsCompile(g, reserved, naming, a, b, services, imports, names);
    ErrPairWire(g, VarNames(services), names.packages, a, b, p);
    ErrPairIsNil(g, services, names, a, b, run);
  }

  /** A singleton called err whose type is an interface that every error has, and a
      fallible constructor, in a package p: `err := p.NewErr(); x, err := p.NewX(err)`. Go
      accepts the file. When everything succeeds the field is nil, and the container's
      instance is not. */
  lemma ErrPair(g: Graph, reserved: set<string>, naming: Naming, a: Key, b: Key, p: string,
                services: map<Key, Service>, imports: map<string, string>, run: Behaviour)
    requires Letter(p) && imports == map[p := p] && naming.holdsError(a) && Constant(run)
    requires Collects(g, reserved, naming, a, b, Kind(p, "Err", "err", Ref(p, "NewErr")), Kind(p, "X", "x", Ref(p, "NewX")),
                      services, imports)
    requires g[a] == Provided([], SingletonLifetime, false) && g[b] == Provided([a], SingletonLifetime, true)
    ensures LeavesNil(g, reserved, naming, [a, b], services, imports, run, a)
  {
    hide Collects, Accepted, FileCompiles, NamesOf, FileErrFree, RunWire, ResolveSingletons, Compilable, FieldsApart, Described;
    ErrPairCompiles(g, reserved, naming, a, b, p, services, imports, run);
  }

  lemma OneImport(p: string, imports: map<string, string>)
    requires Letter(p) && imports == map[p := p]
    ensures (forall v :: v in imports.Values ==> Letter(v)) && "fmt" !in imports && AliasOf(imports, p) == p && |p| == 1
  {
  }

  lemma ErrPairShape(g: Graph, a: Key, b: Key)
    requires a in g && b in g
    requires g[a] == Provided([], SingletonLifetime, false) && g[b] == Provided([a], SingletonLifetime, true)
    ensures g[a].IsBuilt() && g[b].IsBuilt() && g[b].Provided? && g[b].fallible
  {
  }

  /** Two singletons in packages of one letter: what is left to see is Wire. */
  lemma SingletonsCompile(g: Graph, reserved: set<string>, naming: Naming, a: Key, b: Key, services: map<Key, Service>,
                          imports: map<string, string>, names: Names)
    requires Pair(g, a, b) && Accepted(g, reserved, naming, [a, b], services, imports) && NamesFit(g, names)
    requires g[a].IsBuilt() && g[b].IsBuilt() && names.packages.Keys == names.mentioned.Keys == g.Keys
    requires names.builtins == {} && (forall v :: v in names.imports.Values ==> Letter(v)) && !names.errorf
    requires Checks(g, services) ==> "fmt" !in names.imports
    ensures Described(g, services) && Named(g, VarNames(services)) && forall k :: k in [a, b] ==> k in g
    ensures VarNames(services)[a] == services[a].varName && VarNames(services)[b] == services[b].varName
    ensures WireClear(g, VarNames(services), names.packages, names.errHolds, [a, b]) ==>
              FileCompiles(g, services, names, [a, b])
  {
    hide *;
    FileCompilesExactly(g, reserved, naming, [a, b], services, imports, names);
    PairIsSound(g, a, b);
    PairEmission(g, a, b);
    LettersAreAllowed(names, Checks(g, services));
    AcceptedPair(g, reserved, naming, a, b, services, imports);
    if WireClear(g, VarNames(services), names.packages, names.errHolds, [a, b]) {
      ClearSingletons(g, services, names, [a, b]);
    }
  }

  lemma AcceptedPair(g: Graph, reserved: set<string>, naming: Naming, a: Key, b: Key, services: map<Key, Service>,
                     imports: map<string, string>)
    requires Accepted(g, reserved, naming, [a, b], services, imports) && Pair(g, a, b)
    requires g[a].IsBuilt() && g[b].IsBuilt()
    ensures Named(g, VarNames(services)) && a in services && b in services && a in g && b in g
    ensures VarNames(services)[a] == services[a].varName && VarNames(services)[b] == services[b].varName
    ensures forall k :: k in g ==> !g[k].IsTransient()
  {
  }

  lemma ErrPairIsNil(g: Graph, services: map<Key, Service>, names: Names, a: Key, b: Key, run: Behaviour)
    requires Compilable(g, VarNames(services)) && FieldsApart(services) && Described(g, services) && Pair(g, a, b)
    requires (forall k :: k in [a, b] ==> k in g) && services.Keys == {a, b} && Constant(run)
    requires FileCompiles(g, services, names, [a, b]) && names.packages.Keys == g.Keys
    requires g[a] == Provided([], SingletonLifetime, false) && g[b].IsBuilt() && g[b].fallible
    requires services[a].varName == "err"
    ensures !FileErrFree(g, services)
    ensures var wire := RunWire(g, services, run, [a, b]).0;
            wire.Ok? && services[a].fieldName in wire.value && wire.value[services[a].fieldName] == NIL
    ensures var (r, s) := ResolveSingletons(g, run, [a, b]); r.Ok? && Ready(g, s, a) && InstanceOf(g, s, a) != NIL
  {
    hide Compilable, FieldsApart, RunWire, WireCompiles, FactoriesCompile, ImportsCompile, MethodsCompile, FactoriesErrFree;
    CompilableIsSound(g, VarNames(services));
    assert IsChecked(g, b) && VarNames(services)[a] == "err";
    FieldIsNil(g, services, names, [a, b], run, a);
    ConstInstances(g, run, [a, b], a);
    FirstIsReady(g, run, a, b);
  }

  lemma FirstIsReady(g: Graph, run: Behaviour, a: Key, b: Key)
    requires Closed(g) && Acyclic(g) && Pair(g, a, b) && g[a].IsBuilt() && g[b].IsBuilt() && Constant(run)
    requires forall k :: k in [a, b] ==> k in g
    ensures Ready(g, ResolveSingletons(g, run, [a, b]).1, a)
  {
    var start := Store(map[], []);
    assert Singletons(g, [a, b]) == [a, b] by {
      assert [a, b][1..] == [b] && [b][1..] == [] && Singletons(g, [b]) == [b];
    }
    ResolveKeeps(g, run, start, a, []);
    ConstResolve(g, run, start, a, []);
    assert [a, b][1..] == [b];
    ArgumentsKeep(g, run, Resolve(g, run, start, a, []).1, [b], []);
  }

  lemma ErrPairWire(g: Graph, vars: map<Key, string>, aliases: map<Key, string>, a: Key, b: Key, p: string)
    requires Pair(g, a, b) && Named(g, vars) && aliases.Keys == g.Keys && forall k :: k in [a, b] ==> k in g
    requires g[a] == Provided([], SingletonLifetime, false) && g[b] == Provided([a], SingletonLifetime, true)
    requires vars[a] == "err" && vars[b] == "x" && aliases[a] == aliases[b] == p && |p| == 1
    ensures WireClear(g, vars, aliases, true, [a, b])
  {
    assert "err" != "fmt" && "err" != "nil" && |"err"| == 3 && |"x"| == 1 && |"nil"| == 3 && |"Services"| == 8 && |"fmt"| == 3;
  }

  // ----- files Go refuses

  /** `collect` accepts the services, and Go refuses the file. */
  ghost predicate Refused(g: Graph, reserved: set<string>, naming: Naming, keys: seq<Key>, services: map<Key, Service>,
                          imports: map<string, string>)
  {
    && Accepted(g, reserved, naming, keys, services, imports) && Described(g, services) && (forall k :: k in keys ==> k in g)
    && !FileCompiles(g, services, NamesOf(g, naming, services, imports), keys)
  }

  /** A fallible constructor of a type Err: `err, err := ...`. */
  lemma ErrRefused(g: Graph, reserved: set<string>, naming: Naming, a: Key, b: Key, x: Kind, y: Kind,
                   services: map<Key, Service>, imports: map<string, string>)
    requires Collects(g, reserved, naming, a, b, x, y, services, imports) && x.name == "Err" && x.lowered == "err"
    requires g[a] == Provided([], SingletonLifetime, true) && g[b].IsBuilt()
    ensures Refused(g, reserved, naming, [a, b], services, imports)
  {
    hide Collects, NamesOf, Accepted, WireClear, Refused, NamesFit;
    var names := NamesOf(g, naming, services, imports);
    CollectedIsAccepted(g, reserved, naming, a, b, x, y, services, imports);
    CollectsPair(g, reserved, naming, a, b, x, y, services, imports);
    ErrNotClear(g, VarNames(services), names, a, b, services);
    RefusedWire(g, reserved, naming, a, b, services, imports, names);
  }

  lemma ErrNotClear(g: Graph, vars: map<Key, string>, names: Names, a: Key, b: Key, services: map<Key, Service>)
    requires a in g && g[a] == Provided([], SingletonLifetime, true) && a in vars && vars[a] == "err"
    ensures Named(g, vars) && names.packages.Keys == g.Keys && (forall k :: k in [a, b] ==> k in g) ==>
              !WireClear(g, vars, names.packages, names.errHolds, [a, b])
  {
    assert [a, b][0] == a && CanFault(g, a);
  }

  lemma RefusedWire(g: Graph, reserved: set<string>, naming: Naming, a: Key, b: Key, services: map<Key, Service>,
                    imports: map<string, string>, names: Names)
    requires Pair(g, a, b) && Accepted(g, reserved, naming, [a, b], services, imports) && NamesFit(g, names)
    requires g[a].IsBuilt() && g[b].IsBuilt() && names == NamesOf(g, naming, services, imports)
    requires Named(g, VarNames(services)) && names.packages.Keys == g.Keys && (forall k :: k in [a, b] ==> k in g) ==>
               !WireClear(g, VarNames(services), names.packages, names.errHolds, [a, b])
    ensures Refused(g, reserved, naming, [a, b], services, imports)
  {
    hide WireClear, ImportsClear, Accepted, FileCompiles, Emission;
    FileCompilesExactly(g, reserved, naming, [a, b], services, imports, names);
    PairIsSound(g, a, b);
    PairEmission(g, a, b);
  }

  /** Imports Go refuses, whatever else there is. */
  lemma RefusedImports(g: Graph, reserved: set<string>, naming: Naming, a: Key, b: Key, x: Kind, y: Kind,
                       services: map<Key, Service>, imports: map<string, string>)
    requires Collects(g, reserved, naming, a, b, x, y, services, imports)
    requires !ImportsCompile(NamesOf(g, naming, services, imports), Checks(g, services), UsesNew(g, services))
    ensures Refused(g, reserved, naming, [a, b], services, imports)
  {
    hide Collects, Accepted, NamesOf, ImportsCompile, NamesFit;
    CollectedIsAccepted(g, reserved, naming, a, b, x, y, services, imports);
  }

  /** A constructor in a package called Services, as the struct is. */
  lemma ServicesRefused(g: Graph, reserved: set<string>, naming: Naming, a: Key, b: Key, x: Kind, y: Kind,
                        services: map<Key, Service>, imports: map<string, string>)
    requires Collects(g, reserved, naming, a, b, x, y, services, imports)
    requires g[a].Provided? && x.made.path in imports && imports[x.made.path] == "Services" && "fmt" !in imports
    ensures Refused(g, reserved, naming, [a, b], services, imports)
  {
    var names := NamesOf(g, naming, services, imports);
    var final := FinalImports(names, Checks(g, services));
    assert x.made.path != "fmt" && final[x.made.path] == "Services" && "Services" in PACKAGE_NAMES;
    assert "Services" in final.Values && "Services" in Forbidden(names);
    RefusedImports(g, reserved, naming, a, b, x, y, services, imports);
  }

  /** A service of package fmt beside a check: its alias is not fmt, and `render` replaces
      it by fmt. */
  lemma FmtRefused(g: Graph, reserved: set<string>, naming: Naming, a: Key, b: Key, x: Kind, y: Kind,
                   services: map<Key, Service>, imports: map<string, string>)
    requires Collects(g, reserved, naming, a, b, x, y, services, imports)
    requires x.path == "fmt" && IsChecked(g, b)
    ensures Refused(g, reserved, naming, [a, b], services, imports)
  {
    var names := NamesOf(g, naming, services, imports);
    assert "fmt" in imports && imports["fmt"] in imports.Values;
    assert SomeChecked(g) && Checks(g, services);
    assert FinalImports(names, true)["fmt"] == "fmt" != names.imports["fmt"];
    RefusedImports(g, reserved, naming, a, b, x, y, services, imports);
  }

  /** A name that reads like fmt.Errorf, such as xfmt.ErrorfX, and nothing checked: fmt is
      imported and not used. */
  lemma ErrorfRefused(g: Graph, reserved: set<string>, naming: Naming, a: Key, b: Key, x: Kind, y: Kind,
                      services: map<Key, Service>, imports: map<string, string>)
    requires Collects(g, reserved, naming, a, b, x, y, services, imports)
    requires g[a].Provided? && x.made == Ref("xfmt", "ErrorfX") && imports["xfmt"] == "xfmt" && !Checks(g, services)
    ensures Refused(g, reserved, naming, [a, b], services, imports)
  {
    var names := NamesOf(g, naming, services, imports);
    assert x.made in Refs(g, naming, a);
    assert "xfmt"[1..] == "fmt" && "Errorf" <= "ErrorfX";
    assert ReadsLikeErrorf(AliasOf(imports, x.made.path), x.made.symbol);
    assert names.errorf && "fmt" in FinalImports(names, false);
    RefusedImports(g, reserved, naming, a, b, x, y, services, imports);
  }

  /** A transient service whose constructor takes the other, transient too: the other's
      variable is s, as for a type S; or it is err and its factory can fail; or it is the
      alias of the constructor's package, as for a report.Report and report.NewPrinter; or
      it is taken twice. */
  lemma FactoryRefused(g: Graph, reserved: set<string>, naming: Naming, a: Key, b: Key, x: Kind, y: Kind,
                       services: map<Key, Service>, imports: map<string, string>)
    requires Collects(g, reserved, naming, a, b, x, y, services, imports)
    requires g[a].IsTransient() && g[b].IsTransient() && (g[b].inputs == [a] || g[b].inputs == [a, a])
    requires || x.lowered == RECEIVER || (x.lowered == "err" && services[a].factoryErr)
             || (y.made.path in imports && x.lowered == imports[y.made.path]) || |g[b].inputs| == 2
    ensures Refused(g, reserved, naming, [a, b], services, imports)
  {
    hide Collects, NamesOf, Accepted, FactoryClear, Refused;
    var names := NamesOf(g, naming, services, imports);
    CollectsPair(g, reserved, naming, a, b, x, y, services, imports);
    PairNames(g, reserved, naming, a, b, x, y, services, imports);
    FactoryNotClear(g, services, names, a, b, x.lowered);
    hide *;
    CollectedIsAccepted(g, reserved, naming, a, b, x, y, services, imports);
    RefusedFactory(g, reserved, naming, a, b, services, imports, names);
  }

  lemma FactoryNotClear(g: Graph, services: map<Key, Service>, names: Names, a: Key, b: Key, name: string)
    requires Pair(g, a, b) && services.Keys == {a, b} && g[a].IsTransient() && g[b].IsTransient()
    requires (g[b].inputs == [a] || g[b].inputs == [a, a]) && services[a].varName == name
    requires names.packages.Keys == names.mentioned.Keys == {a, b}
    requires || name == RECEIVER || (name == "err" && services[a].factoryErr) || name == names.packages[b] || |g[b].inputs| == 2
    ensures Described(g, services) ==> !FactoryClear(g, services, names, b)
  {
    var inputs := g[b].inputs;
    assert inputs[0] == a && a in inputs;
    if |inputs| == 2 {
      assert inputs[0] == inputs[1];
      assert !TransientsDiffer(g, inputs);
    } else if name == "err" && services[a].factoryErr {
      assert Checked(g, services, inputs[0]);
      assert !ErrFirst(g, services, names.errHolds, inputs) || !Described(g, services);
    }
  }

  lemma RefusedFactory(g: Graph, reserved: set<string>, naming: Naming, a: Key, b: Key, services: map<Key, Service>,
                       imports: map<string, string>, names: Names)
    requires Pair(g, a, b) && Accepted(g, reserved, naming, [a, b], services, imports) && NamesFit(g, names)
    requires g[b].IsTransient() && names == NamesOf(g, naming, services, imports)
    requires Described(g, services) && names.packages.Keys == names.mentioned.Keys == g.Keys
    requires !FactoryClear(g, services, names, b)
    ensures Refused(g, reserved, naming, [a, b], services, imports)
  {
    hide WireClear, ImportsClear, Accepted, FileCompiles, Emission, FactoryClear;
    FileCompilesExactly(g, reserved, naming, [a, b], services, imports, names);
  }

  // ----- safe names are more than is needed

  /** A variable that is an alias does no harm when nothing after it mentions the alias:
      `a := q.NewA(); q := p.NewQ()`. */
  lemma UnsafeCompiles(g: Graph, reserved: set<string>, naming: Naming, a: Key, b: Key, services: map<Key, Service>,
                       imports: map<string, string>)
    requires Collects(g, reserved, naming, a, b, Kind("q", "A", "a", Ref("q", "NewA")), Kind("p", "Q", "q", Ref("p", "NewQ")),
                      services, imports)
    requires g[a] == Provided([], SingletonLifetime, false) && g[b] == Provided([], SingletonLifetime, false)
    requires imports == map["p" := "p", "q" := "q"]
    ensures Accepted(g, reserved, naming, [a, b], services, imports) && Described(g, services)
    ensures forall k :: k in [a, b] ==> k in g
    ensures var names := NamesOf(g, naming, services, imports);
            FileCompiles(g, services, names, [a, b]) && !SafeNames(g, services, names)
  {
    hide Accepted, NamesOf, FileCompiles, SafeNames, NamesFit, WireClear, Collects;
    var x, y := Kind("q", "A", "a", Ref("q", "NewA")), Kind("p", "Q", "q", Ref("p", "NewQ"));
    var names := NamesOf(g, naming, services, imports);
    CollectedIsAccepted(g, reserved, naming, a, b, x, y, services, imports);
    CollectsPair(g, reserved, naming, a, b, x, y, services, imports);
    PairNames(g, reserved, naming, a, b, x, y, services, imports);
    TwoLetters(imports);
    LettersAreNotErrorf(g, naming, services, imports);
    SingletonsCompile(g, reserved, naming, a, b, services, imports, names);
    UnsafeWire(g, VarNames(services), names.packages, names.errHolds, a, b);
    UnsafeNames(g, services, names, b);
  }

  lemma TwoLetters(imports: map<string, string>)
    requires imports == map["p" := "p", "q" := "q"]
    ensures (forall v :: v in imports.Values ==> Letter(v)) && "fmt" !in imports
    ensures AliasOf(imports, "p") == "p" && AliasOf(imports, "q") == "q"
  {
  }

  lemma UnsafeWire(g: Graph, vars: map<Key, string>, aliases: map<Key, string>, errHolds: bool, a: Key, b: Key)
    requires Pair(g, a, b) && Named(g, vars) && aliases.Keys == g.Keys && forall k :: k in [a, b] ==> k in g
    requires g[a] == g[b] == Provided([], SingletonLifetime, false)
    requires vars[a] == "a" && vars[b] == "q" && aliases[a] == "q" && aliases[b] == "p"
    ensures WireClear(g, vars, aliases, errHolds, [a, b])
  {
    assert |"nil"| == 3 && |"Services"| == 8;
  }

  lemma UnsafeNames(g: Graph, services: map<Key, Service>, names: Names, key: Key)
    requires key in services && services[key].varName == "q" && names.imports == map["p" := "p", "q" := "q"]
    ensures !SafeNames(g, services, names)
  {
    assert VarNames(services)[key] in VarNames(services).Values;
    assert names.imports["q"] in names.imports.Values;
  }

  // ----- there are such services

  lemma BothCollect(reserved: set<string>, a: Key, b: Key, x: Kind, y: Kind, r: Registration, q: Registration,
                    errs: bool, fails: bool, imports: map<string, string>)
    requires a != b && x.name != y.name && x.lowered != y.lowered && x.lowered != "" && y.lowered != ""
    requires x.lowered !in reserved && y.lowered !in reserved
    requires r.Inputs() == [] && (forall d :: d in q.Inputs() ==> d == a) && (q.IsBuilt() && q.inputs != [] ==> !r.IsTransient())
    requires r.IsTransient() ==> r.fallible == fails
    requires q.IsTransient() ==> (q.fallible || (q.inputs != [] && r.IsTransient() && fails) <==> fails)
    requires Injective(imports) && "fmt" !in imports.Values
    requires imports.Keys == {x.path, y.path} + (if r.Provided? then {x.made.path} else {}) + if q.Provided? then {y.made.path} else {}
    ensures Collects(Both(a, r, b, q), reserved, NamingOf(a, x, y, errs), a, b, x, y, Services(a, x, b, y, fails), imports)
  {
    hide *;
    var g, services := Both(a, r, b, q), Services(a, x, b, y, fails);
    NamingSuits(reserved, a, b, x, y, errs);
    BothPair(a, r, b, q);
    ServicesMade(a, x, b, y, fails);
    PairIsSound(g, a, b);
    BothMarked(g, services, a, b, fails);
    BothPaths(g, a, b, x, y);
    ThenCollects(g, reserved, NamingOf(a, x, y, errs), a, b, x, y, services, imports);
  }

  lemma BothPaths(g: Graph, a: Key, b: Key, x: Kind, y: Kind)
    requires a in g && b in g
    ensures PathsOf(g, a, x) + PathsOf(g, b, y) ==
            {x.path, y.path} + (if g[a].Provided? then {x.made.path} else {}) + if g[b].Provided? then {y.made.path} else {}
  {
  }

  lemma ThenCollects(g: Graph, reserved: set<string>, naming: Naming, a: Key, b: Key, x: Kind, y: Kind,
                     services: map<Key, Service>, imports: map<string, string>)
    requires Pair(g, a, b) && services.Keys == {a, b} && Suits(reserved, naming, a, x) && Suits(reserved, naming, b, y)
    requires x.name != y.name && x.lowered != y.lowered && FactoriesMarked(g, services)
    requires services[a] == Made(x, services[a].factoryErr) && services[b] == Made(y, services[b].factoryErr)
    requires Injective(imports) && "fmt" !in imports.Values
    requires imports.Keys == PathsOf(g, a, x) + PathsOf(g, b, y)
    ensures Collects(g, reserved, naming, a, b, x, y, services, imports)
  {
  }

  lemma BothPair(a: Key, r: Registration, b: Key, q: Registration)
    requires a != b && r.Inputs() == [] && (forall d :: d in q.Inputs() ==> d == a)
    requires q.IsBuilt() && q.inputs != [] ==> !r.IsTransient()
    ensures Pair(Both(a, r, b, q), a, b)
    ensures var g := Both(a, r, b, q); g.Keys == {a, b} && g[a] == r && g[b] == q
  {
    assert q.Inputs() != [] ==> q.Inputs()[0] in q.Inputs();
  }

  lemma ServicesMade(a: Key, x: Kind, b: Key, y: Kind, fails: bool)
    requires a != b
    ensures var services := Services(a, x, b, y, fails);
            && services.Keys == {a, b} && services[a] == Made(x, fails) && services[b] == Made(y, fails)
            && services[a].factoryErr == services[b].factoryErr == fails
  {
  }

  lemma BothMarked(g: Graph, services: map<Key, Service>, a: Key, b: Key, fails: bool)
    requires Pair(g, a, b) && Closed(g) && services.Keys == {a, b} && services[a].factoryErr == services[b].factoryErr == fails
    requires g[a].IsTransient() ==> g[a].fallible == fails
    requires g[b].IsTransient() ==> (g[b].fallible || (g[b].inputs != [] && g[a].IsTransient() && fails) <==> fails)
    ensures FactoriesMarked(g, services)
  {
    if g[a].IsTransient() {
      CanFailUnfolds(g, a);
    } else {
      SingletonsDoNotFail(g, a);
    }
    if g[b].IsTransient() {
      CanFailUnfolds(g, b);
      if g[b].inputs != [] {
        assert g[b].inputs[0] in g[b].Inputs();
      }
    }
  }

  lemma SingletonsDoNotFail(g: Graph, key: Key)
    requires key in g && !g[key].IsTransient()
    ensures !CanFail(g, key)
  {
  }

  function App(name: string, lowered: string): Kind {
    Kind("app", name, lowered, Ref("app", "New" + name))
  }

  const SINGLETON := Provided([], SingletonLifetime, false)
  const FALLIBLE := Provided([], SingletonLifetime, true)

  lemma NoKeywords()
    ensures "err" !in GO_KEYWORDS && "x" !in GO_KEYWORDS && "stringer" !in GO_KEYWORDS
    ensures "s" !in GO_KEYWORDS && "t" !in GO_KEYWORDS && "report" !in GO_KEYWORDS && "f" !in GO_KEYWORDS
  {
  }

  /** Files with two singletons that `collect` accepts and Go refuses: an Err with a
      fallible constructor; an F of a package Services; a fmt.Stringer beside a check; and
      an X made by xfmt.ErrorfX. */
  lemma RefusedFiles(a: Key, b: Key)
    requires a != b
    ensures Refused(Both(a, FALLIBLE, b, SINGLETON), GO_KEYWORDS, NamingOf(a, App("Err", "err"), App("X", "x"), false), [a, b],
                    Services(a, App("Err", "err"), b, App("X", "x"), false), map["app" := "app"])
    ensures var f := Kind("app/Services", "F", "f", Ref("app/Services", "NewF"));
            Refused(Both(a, SINGLETON, b, SINGLETON), GO_KEYWORDS, NamingOf(a, f, App("X", "x"), false), [a, b],
                    Services(a, f, b, App("X", "x"), false), map["app/Services" := "Services", "app" := "app"])
    ensures var stringer := Kind("fmt", "Stringer", "stringer", Ref("", ""));
            Refused(Both(a, Instance(1), b, FALLIBLE), GO_KEYWORDS, NamingOf(a, stringer, App("X", "x"), false), [a, b],
                    Services(a, stringer, b, App("X", "x"), false), map["fmt" := "fmt2", "app" := "app"])
    ensures var x := Kind("app", "X", "x", Ref("xfmt", "ErrorfX"));
            Refused(Both(a, SINGLETON, b, SINGLETON), GO_KEYWORDS, NamingOf(a, x, App("T", "t"), false), [a, b],
                    Services(a, x, b, App("T", "t"), false), map["xfmt" := "xfmt", "app" := "app"])
  {
    NoKeywords();
    hide GO_KEYWORDS, Collects, Refused;
    RefusedErr(GO_KEYWORDS, a, b);
    RefusedServices(GO_KEYWORDS, a, b);
    RefusedStringer(GO_KEYWORDS, a, b);
    RefusedErrorf(GO_KEYWORDS, a, b);
  }

  lemma RefusedErr(reserved: set<string>, a: Key, b: Key)
    requires a != b && "err" !in reserved && "x" !in reserved
    ensures Refused(Both(a, FALLIBLE, b, SINGLETON), reserved, NamingOf(a, App("Err", "err"), App("X", "x"), false), [a, b],
                    Services(a, App("Err", "err"), b, App("X", "x"), false), map["app" := "app"])
  {
    hide Collects, Refused, NamingOf, Services;
    BothCollect(reserved, a, b, App("Err", "err"), App("X", "x"), FALLIBLE, SINGLETON, false, false, map["app" := "app"]);
    ErrRefused(Both(a, FALLIBLE, b, SINGLETON), reserved, NamingOf(a, App("Err", "err"), App("X", "x"), false), a, b,
               App("Err", "err"), App("X", "x"), Services(a, App("Err", "err"), b, App("X", "x"), false), map["app" := "app"]);
  }

  lemma RefusedServices(reserved: set<string>, a: Key, b: Key)
    requires a != b && "f" !in reserved && "x" !in reserved
    ensures var f := Kind("app/Services", "F", "f", Ref("app/Services", "NewF"));
            Refused(Both(a, SINGLETON, b, SINGLETON), reserved, NamingOf(a, f, App("X", "x"), false), [a, b],
                    Services(a, f, b, App("X", "x"), false), map["app/Services" := "Services", "app" := "app"])
  {
    hide Collects, Refused, NamingOf, Services;
    var f := Kind("app/Services", "F", "f", Ref("app/Services", "NewF"));
    var imports := map["app/Services" := "Services", "app" := "app"];
    BothCollect(reserved, a, b, f, App("X", "x"), SINGLETON, SINGLETON, false, false, imports);
    ServicesRefused(Both(a, SINGLETON, b, SINGLETON), reserved, NamingOf(a, f, App("X", "x"), false), a, b,
                    f, App("X", "x"), Services(a, f, b, App("X", "x"), false), imports);
  }

  lemma RefusedStringer(reserved: set<string>, a: Key, b: Key)
    requires a != b && "stringer" !in reserved && "x" !in reserved
    ensures var stringer := Kind("fmt", "Stringer", "stringer", Ref("", ""));
            Refused(Both(a, Instance(1), b, FALLIBLE), reserved, NamingOf(a, stringer, App("X", "x"), false), [a, b],
                    Services(a, stringer, b, App("X", "x"), false), map["fmt" := "fmt2", "app" := "app"])
  {
    hide Collects, Refused, NamingOf, Services;
    var stringer := Kind("fmt", "Stringer", "stringer", Ref("", ""));
    var imports := map["fmt" := "fmt2", "app" := "app"];
    BothCollect(reserved, a, b, stringer, App("X", "x"), Instance(1), FALLIBLE, false, false, imports);
    FmtRefused(Both(a, Instance(1), b, FALLIBLE), reserved, NamingOf(a, stringer, App("X", "x"), false), a, b,
               stringer, App("X", "x"), Services(a, stringer, b, App("X", "x"), false), imports);
  }

  lemma RefusedErrorf(reserved: set<string>, a: Key, b: Key)
    requires a != b && "t" !in reserved && "x" !in reserved
    ensures var x := Kind("app", "X", "x", Ref("xfmt", "ErrorfX"));
            Refused(Both(a, SINGLETON, b, SINGLETON), reserved, NamingOf(a, x, App("T", "t"), false), [a, b],
                    Services(a, x, b, App("T", "t"), false), map["xfmt" := "xfmt", "app" := "app"])
  {
    hide Collects, Refused, NamingOf, Services;
    var x := Kind("app", "X", "x", Ref("xfmt", "ErrorfX"));
    var imports := map["xfmt" := "xfmt", "app" := "app"];
    BothCollect(reserved, a, b, x, App("T", "t"), SINGLETON, SINGLETON, false, false, imports);
    var g, services := Both(a, SINGLETON, b, SINGLETON), Services(a, x, b, App("T", "t"), false);
    assert !Checks(g, services);
    ErrorfRefused(g, reserved, NamingOf(a, x, App("T", "t"), false), a, b, x, App("T", "t"), services, imports);
  }

  function Taking(inputs: seq<Key>): Registration {
    Provided(inputs, TransientLifetime, false)
  }

  /** Files with two transient services, a T that takes the other, that `collect` accepts
      and Go refuses: an S; an Err whose factory can fail; a report.Report for
      report.NewT; and an X taken twice. */
  lemma RefusedFactories(a: Key, b: Key, fails: bool, x: Kind, y: Kind, twice: bool)
    requires a != b
    requires || (!fails && !twice && x == App("S", "s") && y == App("T", "t"))
             || (fails && !twice && x == App("Err", "err") && y == App("T", "t"))
             || (!fails && !twice && x == Kind("report", "Report", "report", Ref("report", "NewReport"))
                 && y == Kind("report", "T", "t", Ref("report", "NewT")))
             || (!fails && twice && x == App("X", "x") && y == App("T", "t"))
    ensures Refused(Both(a, Provided([], TransientLifetime, fails), b, Taking(if twice then [a, a] else [a])), GO_KEYWORDS,
                    NamingOf(a, x, y, false), [a, b], Services(a, x, b, y, fails), map[x.path := x.path])
  {
    NoKeywords();
    hide GO_KEYWORDS, Collects, Refused, NamingOf;
    var r, q := Provided([], TransientLifetime, fails), Taking(if twice then [a, a] else [a]);
    BothCollect(GO_KEYWORDS, a, b, x, y, r, q, false, fails, map[x.path := x.path]);
    FactoryRefused(Both(a, r, b, q), GO_KEYWORDS, NamingOf(a, x, y, false), a, b, x, y, Services(a, x, b, y, fails),
                   map[x.path := x.path]);
  }

  /** `collect` accepts the services, Go the file, and it leaves nil in the field of one
      that the container has. */
  ghost predicate LeavesNil(g: Graph, reserved: set<string>, naming: Naming, keys: seq<Key>, services: map<Key, Service>,
                            imports: map<string, string>, run: Behaviour, key: Key)
  {
    && Accepted(g, reserved, naming, keys, services, imports) && Described(g, services) && FieldsApart(services)
    && (forall k :: k in keys ==> k in g) && key in services
    && FileCompiles(g, services, NamesOf(g, naming, services, imports), keys) && !FileErrFree(g, services)
    && (var wire := RunWire(g, services, run, keys).0;
        wire.Ok? && services[key].fieldName in wire.value && wire.value[services[key].fieldName] == NIL)
    && (var (r, s) := ResolveSingletons(g, run, keys); r.Ok? && Ready(g, s, key) && InstanceOf(g, s, key) != NIL)
  }

  /** The file that Go accepts and that is not the container. */
  lemma ErrBecomesNil(a: Key, b: Key, run: Behaviour)
    requires a != b && Constant(run)
    ensures var x, y := Kind("p", "Err", "err", Ref("p", "NewErr")), Kind("p", "X", "x", Ref("p", "NewX"));
            LeavesNil(Both(a, SINGLETON, b, Provided([a], SingletonLifetime, true)), GO_KEYWORDS, NamingOf(a, x, y, true),
                      [a, b], Services(a, x, b, y, false), map["p" := "p"], run, a)
  {
    NoKeywords();
    hide LeavesNil, GO_KEYWORDS, Collects;
    var x, y := Kind("p", "Err", "err", Ref("p", "NewErr")), Kind("p", "X", "x", Ref("p", "NewX"));
    var q := Provided([a], SingletonLifetime, true);
    BothPair(a, SINGLETON, b, q);
    BothCollect(GO_KEYWORDS, a, b, x, y, SINGLETON, q, true, false, map["p" := "p"]);
    ErrPair(Both(a, SINGLETON, b, q), GO_KEYWORDS, NamingOf(a, x, y, true), a, b, "p", Services(a, x, b, y, false),
            map["p" := "p"], run);
  }

  /** The file whose names are not safe and that Go accepts. */
  lemma UnsafeNamesCanCompile(a: Key, b: Key)
    requires a != b
    ensures var x, y := Kind("q", "A", "a", Ref("q", "NewA")), Kind("p", "Q", "q", Ref("p", "NewQ"));
            var g := Both(a, SINGLETON, b, SINGLETON);
            var naming, services, imports := NamingOf(a, x, y, false), Services(a, x, b, y, false), map["p" := "p", "q" := "q"];
            var names := NamesOf(g, naming, services, imports);
            && Accepted(g, GO_KEYWORDS, naming, [a, b], services, imports) && Described(g, services) && (forall k :: k in [a, b] ==> k in g)
            && FileCompiles(g, services, names, [a, b]) && !SafeNames(g, services, names)
  {
    KeywordsAreLong();
    hide GO_KEYWORDS, Accepted, NamesOf, FileCompiles, SafeNames, Collects, NamingOf, Services;
    var x, y := Kind("q", "A", "a", Ref("q", "NewA")), Kind("p", "Q", "q", Ref("p", "NewQ"));
    var imports := map["p" := "p", "q" := "q"];
    BothCollect(GO_KEYWORDS, a, b, x, y, SINGLETON, SINGLETON, false, false, imports);
    UnsafeCompiles(Both(a, SINGLETON, b, SINGLETON), GO_KEYWORDS, NamingOf(a, x, y, false), a, b, Services(a, x, b, y, false), imports);
  }
}
