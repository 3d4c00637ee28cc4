/**
  The generated file as a whole (wiring.go): exactly when Go accepts its names, a
  condition on the names alone that is enough, and what the accepted file does.
  */
module GeneratedFile {
  import opened Wrappers
  import opened Sequences
  import opened Container
  import opened Resolution
  import opened Wiring
  import opened Generator
  import opened WireScope
  import opened Factories
  import opened FactoryRuns

  /** A struct may not have a field and a method of one name. */
  predicate MethodsCompile(g: Graph, services: map<Key, Service>) {
    forall k, t :: k in g && k in services && !g[k].IsTransient() && t in g && t in services && g[t].IsTransient() ==>
      services[k].fieldName != "New" + services[t].fieldName
  }

  /** In a file Go accepts, no field is called as a factory. */
  lemma NoFieldIsFactory(g: Graph, services: map<Key, Service>, names: Names, keys: seq<Key>, key: Key, transient: Key)
    requires Compilable(g, VarNames(services)) && Described(g, services) && forall k :: k in keys ==> k in g
    requires FileCompiles(g, services, names, keys)
    requires key in g && !g[key].IsTransient() && transient in g && g[transient].IsTransient()
    ensures services[key].fieldName != "New" + services[transient].fieldName
  {
    hide WireCompiles, FactoriesCompile, ImportsCompile;
  }

  function AliasOf(imports: map<string, string>, path: string): string {
    if path in imports then imports[path] else ""
  }

  /** alias.symbol contains fmt.Errorf. */
  predicate ReadsLikeErrorf(alias: string, symbol: string) {
    |alias| >= 3 && alias[|alias| - 3..] == "fmt" && "Errorf" <= symbol
  }

  /** The names in a file, from what reflection says and what `collect` leaves. */
  function NamesOf(g: Graph, naming: Naming, services: map<Key, Service>, imports: map<string, string>): Names {
    Names(map k | k in g :: AliasOf(imports, naming.made(k).path),
          map k | k in g :: (set r | r in naming.types(k) :: AliasOf(imports, r.path)) + naming.predeclared(k),
          imports,
          set k, n | k in g && n in naming.predeclared(k) :: n,
          exists k :: k in g && k in services && services[k].varName == "err" && naming.holdsError(k),
          exists k, r :: k in g && r in Refs(g, naming, k) && ReadsLikeErrorf(AliasOf(imports, r.path), r.symbol))
  }

  /** No predeclared type is called as one of the words the generator writes. */
  ghost predicate PredeclaredFit(g: Graph, naming: Naming) {
    forall k :: k in g ==> naming.predeclared(k) !! {RECEIVER, "err", "fmt", "nil", "new"}
  }

  /** What `collect` leaves are names that fit. */
  lemma NamesOfFit(g: Graph, reserved: set<string>, naming: Naming, keys: seq<Key>, services: map<Key, Service>,
                   imports: map<string, string>)
    requires Accepted(g, reserved, naming, keys, services, imports) && PredeclaredFit(g, naming)
    ensures NamesFit(g, NamesOf(g, naming, services, imports))
  {
    hide Compilable, DistinctNames, FieldsDiffer, FieldsNamed, FactoriesMarked, VarsChosen;
    forall k, r | k in g && r in Refs(g, naming, k) ensures AliasOf(imports, r.path) in imports.Values {
      assert k in Elements(keys);
      assert r.path in Paths(g, naming, keys);
    }
    var names := NamesOf(g, naming, services, imports);
    forall k | k in g && g[k].Provided? ensures names.packages[k] in imports.Values {
      assert naming.made(k) in Refs(g, naming, k);
    }
    forall k, n | k in g && n in names.mentioned[k] ensures n in imports.Values + names.builtins {
      if n !in naming.predeclared(k) {
        var ref :| ref in naming.types(k) && AliasOf(imports, ref.path) == n;
        assert ref in Refs(g, naming, k);
      }
    }
    forall n | n in names.builtins ensures n !in {RECEIVER, "err", "fmt", "nil", "new"} {
      var k :| k in g && n in naming.predeclared(k);
    }
  }

  /** A check in a factory mentions new. */
  predicate UsesNew(g: Graph, services: map<Key, Service>) {
    exists t :: t in g && g[t].IsTransient() && exists c :: c in g[t].inputs && Checked(g, services, c)
  }

  /** Something is checked, in Wire or in a factory. */
  ghost predicate Checks(g: Graph, services: map<Key, Service>) {
    SomeChecked(g) || UsesNew(g, services)
  }

  ghost predicate FileCompiles(g: Graph, services: map<Key, Service>, names: Names, keys: seq<Key>)
    requires Compilable(g, VarNames(services)) && Described(g, services) && forall k :: k in keys ==> k in g
  {
    && ImportsCompile(names, Checks(g, services), UsesNew(g, services)) && MethodsCompile(g, services)
    && WireCompiles(g, VarNames(services), names, EmitAll(g, VarNames(services), Emission(g, keys)))
    && FactoriesCompile(g, services, FactoriesOf(g, services), names)
  }

  ghost predicate FileClear(g: Graph, services: map<Key, Service>, names: Names, out: seq<Key>)
    requires Named(g, VarNames(services)) && Described(g, services)
    requires names.packages.Keys == names.mentioned.Keys == g.Keys && forall k :: k in out ==> k in g
  {
    && ImportsClear(names, Checks(g, services), UsesNew(g, services)) && MethodsCompile(g, services)
    && WireClear(g, VarNames(services), names.packages, names.errHolds, out)
    && forall t :: t in g && g[t].IsTransient() ==> FactoryClear(g, services, names, t)
  }

  /** After a successful `collect`, Go accepts the file exactly when no name hides what
      the file mentions: nothing else is ever undefined, repeated or misused. */
  lemma FileCompilesExactly(g: Graph, reserved: set<string>, naming: Naming, keys: seq<Key>,
                            services: map<Key, Service>, imports: map<string, string>, names: Names)
    requires Accepted(g, reserved, naming, keys, services, imports) && NamesFit(g, names)
    ensures Described(g, services) && forall k :: k in keys ==> k in g
    ensures forall k :: k in Emission(g, keys) ==> k in g
    ensures FileCompiles(g, services, names, keys) <==> FileClear(g, services, names, Emission(g, keys))
  {
    hide FactoryCompiles, FactoryClear, WireCompiles, WireClear, Collected, CanFail, ImportsCompile, ImportsClear,
      MethodsCompile, UsesNew, Checks, VarsChosen, FieldsDiffer, FieldsNamed, FactoriesMarked;
    AcceptedIsCollected(g, reserved, naming, keys, services, imports);
    ImportsCompileExactly(g, names, Checks(g, services), UsesNew(g, services));
    WireCompilesExactly(g, VarNames(services), names, keys);
    forall t | t in g && g[t].IsTransient()
      ensures FactoryCompiles(g, names, FieldNames(g, services), FactoriesOf(g, services), t) <==>
              FactoryClear(g, services, names, t)
    {
      FactoryCompilesExactly(g, services, FactoriesOf(g, services), names, t);
    }
  }

  // ----- a condition on the names alone

  /** No variable is an alias, a predeclared type or one of the words the generator
      writes; no alias is one of those words, a package-level name, a keyword or a
      predeclared type; fmt is imported under its own name only when something is
      checked, and then nothing else of package fmt is; no constructor takes a transient
      service twice; and no field is called as a factory. The order of emission plays no
      part. */
  ghost predicate SafeNames(g: Graph, services: map<Key, Service>, names: Names) {
    && VarNames(services).Values !! {RECEIVER, "err", "fmt", "nil", "new", "Services"} + names.imports.Values + names.builtins
    && names.imports.Values !! {RECEIVER, "err", "new"} + Forbidden(names)
    && (Checks(g, services) || names.errorf ==> "fmt" !in names.imports) && (names.errorf ==> Checks(g, services))
    && MethodsCompile(g, services)
    && forall t :: t in g && g[t].IsTransient() ==> TransientsDiffer(g, g[t].inputs)
  }

  lemma VarIsSafe(g: Graph, services: map<Key, Service>, names: Names, key: Key)
    requires SafeNames(g, services, names) && NamesFit(g, names) && key in services
    ensures services[key].varName !in {RECEIVER, "err", "fmt", "nil", "new", "Services"}
    ensures forall k :: k in g && g[k].Provided? ==> services[key].varName != names.packages[k]
    ensures forall k :: k in g ==> services[key].varName !in Mentioned(names, k)
  {
    assert VarNames(services)[key] in VarNames(services).Values;
  }

  lemma SafeWireIsClear(g: Graph, services: map<Key, Service>, names: Names, out: seq<Key>)
    requires Named(g, VarNames(services)) && NamesFit(g, names) && SafeNames(g, services, names)
    requires forall k :: k in out ==> k in g && g[k].Provided?
    ensures WireClear(g, VarNames(services), names.packages, names.errHolds, out)
  {
    hide SafeNames;
    forall k | k in g
      ensures VarNames(services)[k] !in {RECEIVER, "err", "fmt", "nil", "new", "Services"}
      ensures forall j :: j in g && g[j].Provided? ==> VarNames(services)[k] != names.packages[j]
    {
      VarIsSafe(g, services, names, k);
    }
    AliasesAreSafe(g, services, names);
  }

  lemma AliasesAreSafe(g: Graph, services: map<Key, Service>, names: Names)
    requires NamesFit(g, names) && SafeNames(g, services, names)
    ensures forall k :: k in g && g[k].Provided? ==> names.packages[k] !in {RECEIVER, "err"}
    ensures forall k :: k in g ==> RECEIVER !in Mentioned(names, k) && "err" !in Mentioned(names, k)
  {
    assert forall k :: k in g && g[k].Provided? ==> names.packages[k] in names.imports.Values;
    assert forall k :: k in g ==> names.mentioned[k] <= names.imports.Values + names.builtins;
  }

  lemma SafeFactoryIsClear(g: Graph, services: map<Key, Service>, names: Names, key: Key)
    requires Described(g, services) && NamesFit(g, names) && SafeNames(g, services, names)
    requires key in g && g[key].IsTransient()
    ensures FactoryClear(g, services, names, key)
  {
    hide SafeNames, Mentioned, TransientsDiffer;
    var inputs := g[key].inputs;
    forall d | d in inputs
      ensures d in services && services[d].varName !in {RECEIVER, "err", "nil"} && services[d].varName != names.packages[key]
      ensures services[d].varName !in Mentioned(names, key)
    {
      VarIsSafe(g, services, names, d);
    }
    AliasesAreSafe(g, services, names);
    SafeInputsDiffer(g, services, names, key);
  }

  lemma SafeInputsDiffer(g: Graph, services: map<Key, Service>, names: Names, key: Key)
    requires SafeNames(g, services, names) && key in g && g[key].IsTransient()
    ensures TransientsDiffer(g, g[key].inputs)
  {
  }

  /** Safe names are enough, whatever the order. */
  lemma SafeFileCompiles(g: Graph, reserved: set<string>, naming: Naming, keys: seq<Key>,
                         services: map<Key, Service>, imports: map<string, string>, names: Names)
    requires Accepted(g, reserved, naming, keys, services, imports) && NamesFit(g, names) && SafeNames(g, services, names)
    ensures Described(g, services) && forall k :: k in keys ==> k in g
    ensures FileCompiles(g, services, names, keys)
  {
    FileCompilesExactly(g, reserved, naming, keys, services, imports, names);
    SafeImports(g, services, names);
    EmissionInOrder(g, keys);
    hide SafeNames, FactoryClear, WireClear, FileCompiles, CanFail, MethodsCompile, ImportsClear, UsesNew, Checks;
    SafeWireIsClear(g, services, names, Emission(g, keys));
    forall t | t in g && g[t].IsTransient() ensures FactoryClear(g, services, names, t) {
      SafeFactoryIsClear(g, services, names, t);
    }
  }

  lemma SafeImports(g: Graph, services: map<Key, Service>, names: Names)
    requires SafeNames(g, services, names)
    ensures ImportsClear(names, Checks(g, services), UsesNew(g, services)) && MethodsCompile(g, services)
  {
  }

  /** What every accepted file satisfies, whatever the order. Between this and safe
      names lie variables called fmt, new, nil or as an alias or type, and an alias
      err, that no later statement mentions. */
  ghost predicate NeededNames(g: Graph, services: map<Key, Service>, names: Names)
    requires names.packages.Keys == g.Keys == services.Keys
  {
    && ImportsClear(names, Checks(g, services), UsesNew(g, services)) && MethodsCompile(g, services)
    && NeededByWire(g, services, names)
    && forall t :: t in g && g[t].IsTransient() ==> NeededByFactory(g, services, names, t)
  }

  ghost predicate NeededByWire(g: Graph, services: map<Key, Service>, names: Names)
    requires names.packages.Keys == g.Keys == services.Keys
  {
    && (forall k :: k in g && !g[k].IsTransient() ==> services[k].varName !in {"nil", "Services"})
    && (forall k, j :: k in g && g[k].IsBuilt() && CanFault(g, k) && j in g && !g[j].IsTransient() && services[j].varName == "err" ==>
          names.errHolds && k != j)
    && (forall k, j :: k in g && g[k].IsBuilt() && j in g && g[j].Instance? ==> names.packages[k] != services[j].varName)
  }

  ghost predicate NeededByFactory(g: Graph, services: map<Key, Service>, names: Names, key: Key)
    requires names.packages.Keys == g.Keys == services.Keys && key in g && g[key].IsTransient()
  {
    var inputs, alias := g[key].inputs, names.packages[key];
    && TransientsDiffer(g, inputs) && alias != RECEIVER
    && (forall d :: d in inputs && d in g && g[d].IsTransient() ==> services[d].varName !in {RECEIVER, alias})
    && (forall c, d :: c in inputs && Checked(g, services, c) && d in inputs && d in g && g[d].IsTransient() ==>
          alias != "err" && (services[d].varName == "err" ==> names.errHolds && c != d))
  }

  lemma WireClearIsNeeded(g: Graph, services: map<Key, Service>, names: Names, out: seq<Key>)
    requires Named(g, VarNames(services)) && names.packages.Keys == g.Keys
    requires forall k :: k in out <==> k in g && g[k].IsBuilt()
    requires WireClear(g, VarNames(services), names.packages, names.errHolds, out)
    ensures NeededByWire(g, services, names)
  {
    assert forall k :: k in services ==> VarNames(services)[k] == services[k].varName;
  }

  lemma FactoryClearIsNeeded(g: Graph, services: map<Key, Service>, names: Names, key: Key)
    requires Described(g, services) && names.packages.Keys == names.mentioned.Keys == g.Keys
    requires key in g && g[key].IsTransient() && FactoryClear(g, services, names, key)
    ensures NeededByFactory(g, services, names, key)
  {
    hide TransientsDiffer, Unmentioned;
  }

  lemma CompiledNamesAreNeeded(g: Graph, reserved: set<string>, naming: Naming, keys: seq<Key>,
                               services: map<Key, Service>, imports: map<string, string>, names: Names)
    requires Accepted(g, reserved, naming, keys, services, imports) && NamesFit(g, names)
    requires Described(g, services) && (forall k :: k in keys ==> k in g) && FileCompiles(g, services, names, keys)
    ensures NeededNames(g, services, names)
  {
    hide FactoryClear, WireClear, FileCompiles, NeededByWire, NeededByFactory, CanFail, ImportsClear, UsesNew, Checks, MethodsCompile;
    FileCompilesExactly(g, reserved, naming, keys, services, imports, names);
    EmissionInOrder(g, keys);
    WireClearIsNeeded(g, services, names, Emission(g, keys));
    forall t | t in g && g[t].IsTransient() ensures NeededByFactory(g, services, names, t) {
      FactoryClearIsNeeded(g, services, names, t);
    }
  }

  // ----- what an accepted file does

  /** No variable called err is there when a check assigns err: no singleton beside a
      checked statement, and no local of a factory beside a checked call. */
  ghost predicate FileErrFree(g: Graph, services: map<Key, Service>) {
    ErrFree(g, VarNames(services)) && FactoriesErrFree(g, services)
  }

  /** A program that calls Wire and then takes these services from its result makes the
      constructor calls of one that resolves every singleton and then those services,
      and gets the same values and errors. */
  ghost predicate BehavesAsContainer(g: Graph, services: map<Key, Service>, names: Names, keys: seq<Key>,
                                     run: Behaviour, asked: seq<Key>)
    requires Compilable(g, VarNames(services)) && FieldsApart(services) && Described(g, services)
    requires (forall k :: k in keys ==> k in g) && (forall k :: k in asked ==> k in g)
  {
    var (wire, calls) := RunWire(g, services, run, keys);
    var (r, s) := ResolveSingletons(g, run, keys);
    && calls == s.calls && SameEnds(wire, r)
    && (r.Ok? ==>
          var (made, calls') := AskEach(g, services, run, names, wire.value, calls, asked);
          var (each, s') := ResolveEach(g, run, s, asked);
          calls' == s'.calls && AllSameEnd(made, each))
  }

  /** The generated file is the container: when `collect` succeeds, Go accepts the file
      and no check assigns a service, that holds of every behaviour of the constructors
      and of any services asked for, in whatever order. */
  lemma GeneratedIsContainer(g: Graph, reserved: set<string>, naming: Naming, keys: seq<Key>,
                             services: map<Key, Service>, imports: map<string, string>, names: Names,
                             run: Behaviour, asked: seq<Key>)
    requires Accepted(g, reserved, naming, keys, services, imports) && names.packages.Keys == names.mentioned.Keys == g.Keys
    requires Described(g, services) && (forall k :: k in keys ==> k in g) && (forall k :: k in asked ==> k in g)
    requires FileCompiles(g, services, names, keys) && FileErrFree(g, services)
    ensures FieldsApart(services) && BehavesAsContainer(g, services, names, keys, run, asked)
  {
    hide FactoriesCompile, Collected, Settled, AskEach, ResolveEach, RunWire, ResolveSingletons, FieldsApart,
      ErrFree, FactoriesErrFree, VarsChosen, FieldsDiffer, FieldsNamed, FactoriesMarked;
    AcceptedIsCollected(g, reserved, naming, keys, services, imports);
    WireSettles(g, services, run, keys);
    var (r, s) := ResolveSingletons(g, run, keys);
    if r.Ok? {
      AskEachIsResolveEach(g, services, run, names, s, RunWire(g, services, run, keys).0.value, asked);
    }
  }
}
