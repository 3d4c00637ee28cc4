/**
  The wiring generator itself (wiring.go): names, the loops of `collect`, and
  the factory methods `renderFactory` emits for transient services.
  */
module Generator {
  import opened Wrappers
  import opened Sequences
  import opened Decimals
  import opened Container
  import opened Resolution
  import opened Wiring

  // ---------------------------------------------------------------------------
  // uniqueVarName
  // ---------------------------------------------------------------------------

  const GO_KEYWORDS: set<string> := {
    "break", "case", "chan", "const", "continue", "default", "defer", "else", "fallthrough", "for",
    "func", "go", "goto", "if", "import", "interface", "map", "package", "range", "return",
    "select", "struct", "switch", "type", "var"
  }

  /** The name itself when it is free, otherwise the name with the smallest free
      suffix from 2 on. */
  ghost predicate FirstFree(name: string, taken: set<string>, chosen: string) {
    && chosen !in taken
    && (chosen == name
        || (name in taken
            && exists n: nat ::
                 n >= 2 && chosen == name + Decimal(n) && forall m: nat :: 2 <= m < n ==> name + Decimal(m) in taken))
  }

  /** Suffixed names are all different, so only as many of them can be taken as
      there are taken names. */
  lemma {:induction false} FewAreTaken(name: string, taken: set<string>, limit: nat)
    requires limit >= 2 && forall m: nat :: 2 <= m < limit ==> name + Decimal(m) in taken
    ensures limit - 2 <= |taken|
    decreases limit
  {
    if limit > 2 {
      var last := name + Decimal(limit - 1);
      forall m: nat | 2 <= m < limit - 1 ensures name + Decimal(m) in taken - {last} {
        if name + Decimal(m) == last {
          assert Decimal(m) == last[|name|..] == Decimal(limit - 1);
          DecimalIsInjective(m, limit - 1);
        }
      }
      FewAreTaken(name, taken - {last}, limit - 1);
    }
  }

  function OrValue(name: string): string {
    if name == "" then "value" else name
  }

  /** `reserved` is the set of Go's keywords. */
  method UniqueVarName(name0: string, used: set<string>, reserved: set<string>) returns (chosen: string)
    ensures FirstFree(if name0 == "" then "value" else name0, used + reserved, chosen)
  {
    hide Decimal;
    var name := OrValue(name0);
    var taken := used + reserved;
    if name !in taken {
      return name;
    }
    var suffix := 2;
    chosen := name + Decimal(suffix);
    while chosen in taken
      invariant suffix >= 2 && chosen == name + Decimal(suffix)
      invariant forall m: nat :: 2 <= m < suffix ==> name + Decimal(m) in taken
      decreases |taken| + 2 - suffix
    {
      suffix := suffix + 1;
      FewAreTaken(name, taken, suffix);
      chosen := name + Decimal(suffix);
    }
  }

  // ---------------------------------------------------------------------------
  // collect
  // ---------------------------------------------------------------------------

  datatype Service = Service(fieldName: string, varName: string, factoryErr: bool)

  datatype WiringError =
    | Unnameable(key: Key)
    | FieldClash(previous: Key, key: Key)
    | Inexpressible(key: Key)
    | SingletonNeedsTransient(key: Key, input: Key)

  /** A name qualified by the path of its package. */
  datatype Ref = Ref(path: string, symbol: string)

  /** How reflection names types: whether a registration key can name a field and
      which, whether its type and constructor can be written as source, and a field
      name with its leading capitals lowered; the qualified and the predeclared names
      in its type, its constructor, and the part of a path that can name a package;
      and whether its variable has an interface type that every error has. */
  datatype Naming = Naming(nameable: Key -> bool, field: Key -> string, expressible: Key -> bool,
                           lowered: string -> string,
                           types: Key -> seq<Ref>, predeclared: Key -> set<string>, made: Key -> Ref,
                           base: string -> string, holdsError: Key -> bool)

  /** The qualified names in the source of a service: in its type, and its constructor. */
  function Refs(g: Graph, naming: Naming, key: Key): seq<Ref> {
    naming.types(key) + if key in g && g[key].Provided? then [naming.made(key)] else []
  }

  function PathsIn(refs: seq<Ref>): set<string> {
    set r | r in refs :: r.path
  }

  /** The paths the file refers to. */
  function Paths(g: Graph, naming: Naming, keys: seq<Key>): set<string> {
    set k, r | k in keys && r in Refs(g, naming, k) :: r.path
  }

  lemma PathsOneMore(g: Graph, naming: Naming, keys: seq<Key>, n: nat)
    requires n < |keys|
    ensures Paths(g, naming, keys[..n + 1]) == Paths(g, naming, keys[..n]) + PathsIn(Refs(g, naming, keys[n]))
  {
    assert keys[..n + 1] == keys[..n] + [keys[n]];
    assert forall k :: k in keys[..n + 1] <==> k in keys[..n] || k == keys[n];
  }

  predicate Sourced(naming: Naming, keys: seq<Key>) {
    forall k :: k in keys ==> naming.nameable(k) && naming.expressible(k)
  }

  function VarNames(services: map<Key, Service>): map<Key, string> {
    map k | k in services :: services[k].varName
  }

  predicate FieldsDiffer(naming: Naming, keys: seq<Key>) {
    forall i, j :: 0 <= i < j < |keys| ==> naming.field(keys[i]) != naming.field(keys[j])
  }

  /** Each variable name, in key order: the first one free given the ones before. */
  ghost predicate Chosen(reserved: set<string>, naming: Naming, keys: seq<Key>, names: seq<string>) {
    && |names| <= |keys|
    && forall i :: 0 <= i < |names| ==> ChosenAt(reserved, naming.lowered(naming.field(keys[i])), names, i)
  }

  ghost predicate ChosenAt(reserved: set<string>, name: string, names: seq<string>, i: nat)
    requires i < |names|
  {
    FirstFree(OrValue(name), Elements(names[..i]) + reserved, names[i])
  }

  /** The services of the keys named so far. */
  ghost predicate Records(naming: Naming, keys: seq<Key>, names: seq<string>, services: map<Key, Service>) {
    && |names| <= |keys|
    && services.Keys == Elements(keys[..|names|])
    && forall i :: 0 <= i < |names| ==>
         && keys[i] in services
         && services[keys[i]].fieldName == naming.field(keys[i])
         && services[keys[i]].varName == names[i]
  }

  lemma ChooseOneMore(reserved: set<string>, naming: Naming, keys: seq<Key>, names: seq<string>, name: string)
    requires Chosen(reserved, naming, keys, names) && |names| < |keys|
    requires ChosenAt(reserved, naming.lowered(naming.field(keys[|names|])), names + [name], |names|)
    ensures Chosen(reserved, naming, keys, names + [name])
  {
    var longer := names + [name];
    forall i | 0 <= i < |longer| ensures ChosenAt(reserved, naming.lowered(naming.field(keys[i])), longer, i) {
      if i < |names| {
        assert longer[..i] == names[..i];
        assert ChosenAt(reserved, naming.lowered(naming.field(keys[i])), names, i);
      }
    }
  }

  /** The first loop of `collect` between two keys. */
  ghost predicate NamingState(reserved: set<string>, naming: Naming, keys: seq<Key>, names: seq<string>,
                              services: map<Key, Service>, usedFields: map<string, Key>, usedVars: set<string>) {
    && Chosen(reserved, naming, keys, names) && Records(naming, keys, names, services)
    && FieldsDiffer(naming, keys[..|names|])
    && (forall f :: f in usedFields ==> usedFields[f] in keys[..|names|] && naming.field(usedFields[f]) == f)
    && (forall j :: 0 <= j < |names| ==> naming.field(keys[j]) in usedFields)
    && usedVars == Elements(names)
  }

  lemma ClashFound(reserved: set<string>, naming: Naming, keys: seq<Key>, names: seq<string>,
                   services: map<Key, Service>, usedFields: map<string, Key>, usedVars: set<string>)
    requires NamingState(reserved, naming, keys, names, services, usedFields, usedVars)
    requires |names| < |keys| && NoDuplicates(keys) && naming.field(keys[|names|]) in usedFields
    ensures usedFields[naming.field(keys[|names|])] != keys[|names|] && !FieldsDiffer(naming, keys)
    ensures naming.field(usedFields[naming.field(keys[|names|])]) == naming.field(keys[|names|])
  {
    var previous := usedFields[naming.field(keys[|names|])];
    var j :| 0 <= j < |names| && keys[j] == previous;
    assert naming.field(keys[j]) == naming.field(keys[|names|]);
  }

  lemma NameOneMore(reserved: set<string>, naming: Naming, keys: seq<Key>, names: seq<string>,
                    services: map<Key, Service>, usedFields: map<string, Key>, usedVars: set<string>, varName: string)
    requires NamingState(reserved, naming, keys, names, services, usedFields, usedVars)
    requires |names| < |keys| && NoDuplicates(keys)
    requires var field := naming.field(keys[|names|]);
             field !in usedFields && FirstFree(OrValue(naming.lowered(field)), usedVars + reserved, varName)
    ensures var key := keys[|names|];
            var field := naming.field(key);
            NamingState(reserved, naming, keys, names + [varName], services[key := Service(field, varName, false)],
                        usedFields[field := key], usedVars + {varName})
  {
    var n := |names|;
    assert (names + [varName])[..n] == names;
    ChooseOneMore(reserved, naming, keys, names, varName);
    RecordOneMore(naming, keys, names, services, Service(naming.field(keys[n]), varName, false));
    UseField(naming, keys, n, usedFields);
    ElementsAppend(names, varName);
  }

  lemma NamingStarts(reserved: set<string>, g: Graph, naming: Naming, keys: seq<Key>)
    ensures NamingState(reserved, naming, keys, [], map[], map[], {})
    ensures Sourced(naming, keys[..0]) && Paths(g, naming, keys[..0]) == {}
  {
  }

  lemma NamingEnds(reserved: set<string>, naming: Naming, keys: seq<Key>, names: seq<string>,
                   services: map<Key, Service>, usedFields: map<string, Key>, usedVars: set<string>)
    requires NamingState(reserved, naming, keys, names, services, usedFields, usedVars) && |names| >= |keys|
    ensures |names| == |keys| && Chosen(reserved, naming, keys, names) && Records(naming, keys, names, services)
    ensures FieldsDiffer(naming, keys) && keys[..|names|] == keys
  {
    assert keys[..|names|] == keys;
  }

  lemma SourcedOneMore(naming: Naming, keys: seq<Key>, n: nat)
    requires n < |keys|
    ensures Sourced(naming, keys[..n + 1]) <==>
            Sourced(naming, keys[..n]) && naming.nameable(keys[n]) && naming.expressible(keys[n])
    ensures Sourced(naming, keys) ==> naming.nameable(keys[n]) && naming.expressible(keys[n])
  {
    assert keys[..n + 1] == keys[..n] + [keys[n]];
    assert keys[n] in keys;
    assert forall k :: k in keys[..n + 1] <==> k in keys[..n] || k == keys[n];
  }

  lemma UseField(naming: Naming, keys: seq<Key>, n: nat, usedFields: map<string, Key>)
    requires n < |keys|
    requires forall f :: f in usedFields ==> usedFields[f] in keys[..n] && naming.field(usedFields[f]) == f
    requires forall j :: 0 <= j < n ==> naming.field(keys[j]) in usedFields
    ensures var used := usedFields[naming.field(keys[n]) := keys[n]];
            && (forall f :: f in used ==> used[f] in keys[..n + 1] && naming.field(used[f]) == f)
            && (forall j :: 0 <= j < n + 1 ==> naming.field(keys[j]) in used)
  {
    assert keys[..n + 1] == keys[..n] + [keys[n]];
  }

  lemma RecordOneMore(naming: Naming, keys: seq<Key>, names: seq<string>, services: map<Key, Service>, service: Service)
    requires Records(naming, keys, names, services) && |names| < |keys| && NoDuplicates(keys)
    requires service.fieldName == naming.field(keys[|names|])
    requires FieldsDiffer(naming, keys[..|names|])
    requires forall j :: 0 <= j < |names| ==> naming.field(keys[j]) != service.fieldName
    ensures Records(naming, keys, names + [service.varName], services[keys[|names|] := service])
    ensures FieldsDiffer(naming, keys[..|names| + 1])
  {
    var n := |names|;
    assert keys[..n + 1] == keys[..n] + [keys[n]];
    forall j | 0 <= j < n ensures keys[j] != keys[n] {
    }
  }

  lemma ChosenAreDistinct(reserved: set<string>, naming: Naming, keys: seq<Key>, names: seq<string>)
    requires Chosen(reserved, naming, keys, names)
    ensures NoDuplicates(names)
    ensures forall n :: n in names ==> n !in reserved
  {
    forall i, j | 0 <= i < j < |names| ensures names[i] != names[j] {
      assert ChosenAt(reserved, naming.lowered(naming.field(keys[j])), names, j);
      assert names[i] in names[..j];
    }
    forall n | n in names ensures n !in reserved {
      var i :| 0 <= i < |names| && names[i] == n;
      assert ChosenAt(reserved, naming.lowered(naming.field(keys[i])), names, i);
    }
  }

  ghost predicate FieldsNamed(naming: Naming, services: map<Key, Service>) {
    forall k :: k in services ==> services[k].fieldName == naming.field(k)
  }

  /** The factories marked as returning an error are those that can fail. */
  ghost predicate FactoriesMarked(g: Graph, services: map<Key, Service>) {
    forall k :: k in g && k in services && g[k].IsTransient() ==> (services[k].factoryErr <==> CanFail(g, k))
  }

  ghost predicate SameNames(services: map<Key, Service>, services': map<Key, Service>) {
    && services.Keys == services'.Keys
    && forall k :: k in services ==>
         services[k].fieldName == services'[k].fieldName && services[k].varName == services'[k].varName
  }

  ghost predicate DistinctNames(reserved: set<string>, vars: map<Key, string>) {
    Injective(vars) && vars.Values !! reserved
  }

  /** The position of a service in key order. */
  lemma Position(naming: Naming, keys: seq<Key>, names: seq<string>, services: map<Key, Service>, key: Key) returns (i: nat)
    requires Records(naming, keys, names, services) && |names| == |keys| && key in services
    ensures i < |keys| && keys[i] == key
    ensures services[key].varName == names[i] && services[key].fieldName == naming.field(key)
  {
    assert keys[..|names|] == keys;
    assert key in Elements(keys);
    i :| 0 <= i < |keys| && keys[i] == key;
    assert services[keys[i]].varName == names[i];
  }

  lemma DistinctVariables(reserved: set<string>, naming: Naming, keys: seq<Key>, names: seq<string>, services: map<Key, Service>)
    requires Chosen(reserved, naming, keys, names) && Records(naming, keys, names, services) && |names| == |keys|
    ensures DistinctNames(reserved, VarNames(services))
    ensures services.Keys == Elements(keys)
    ensures FieldsNamed(naming, services)
  {
    ChosenAreDistinct(reserved, naming, keys, names);
    assert keys[..|names|] == keys;
    forall k | k in services
      ensures services[k].fieldName == naming.field(k) && services[k].varName !in reserved
    {
      var i := Position(naming, keys, names, services, k);
    }
    forall a, b | a in services && b in services && a != b ensures services[a].varName != services[b].varName {
      TwoVariables(naming, keys, names, services, a, b);
    }
  }

  lemma TwoVariables(naming: Naming, keys: seq<Key>, names: seq<string>, services: map<Key, Service>, a: Key, b: Key)
    requires Records(naming, keys, names, services) && |names| == |keys| && NoDuplicates(names)
    requires a in services && b in services && a != b
    ensures services[a].varName != services[b].varName
  {
    var i := Position(naming, keys, names, services, a);
    var j := Position(naming, keys, names, services, b);
  }

  lemma CollectedNames(g: Graph, reserved: set<string>, naming: Naming, services: map<Key, Service>, services': map<Key, Service>)
    requires Closed(g) && Acyclic(g) && SingletonsOnly(g) && services.Keys == g.Keys
    requires SameNames(services, services') && FieldsNamed(naming, services)
    requires DistinctNames(reserved, VarNames(services))
    ensures FieldsNamed(naming, services') && DistinctNames(reserved, VarNames(services'))
    ensures Compilable(g, VarNames(services'))
  {
    assert VarNames(services) == VarNames(services');
    CompilableNames(g, reserved, VarNames(services'));
  }

  lemma CompilableNames(g: Graph, reserved: set<string>, vars: map<Key, string>)
    requires Closed(g) && Acyclic(g) && SingletonsOnly(g) && vars.Keys == g.Keys && DistinctNames(reserved, vars)
    ensures Compilable(g, vars)
  {
    forall k, d | k in g && d in g[k].Inputs() ensures d in vars {
      assert Edge(g, k, d);
    }
  }

  /** A chain of transient services from this one to a fallible constructor. */
  ghost predicate FailingChain(g: Graph, chain: seq<Key>) {
    && |chain| > 0 && IsPath(g, chain)
    && (forall k :: k in chain ==> k in g && g[k].IsTransient())
    && g[chain[|chain| - 1]].fallible
  }

  ghost predicate CanFail(g: Graph, key: Key) {
    exists chain :: FailingChain(g, chain) && chain[0] == key
  }

  lemma CanFailUnfolds(g: Graph, key: Key)
    requires Closed(g) && key in g && g[key].IsTransient()
    ensures CanFail(g, key) <==> g[key].fallible || exists d :: d in g[key].inputs && CanFail(g, d)
  {
    if CanFail(g, key) && !g[key].fallible {
      var chain :| FailingChain(g, chain) && chain[0] == key;
      assert |chain| > 1 && Edge(g, chain[0], chain[1]);
      assert FailingChain(g, chain[1..]);
      assert CanFail(g, chain[1]);
    }
    if g[key].fallible {
      assert FailingChain(g, [key]);
    }
    if d :| d in g[key].inputs && CanFail(g, d) {
      var chain :| FailingChain(g, chain) && chain[0] == d;
      assert Edge(g, key, d);
      assert FailingChain(g, [key] + chain);
    }
  }

  function NamesIn(services: map<Key, Service>, keys: seq<Key>): (names: seq<string>)
    requires forall k :: k in keys ==> k in services
    ensures |names| == |keys|
  {
    seq(|keys|, i requires 0 <= i < |keys| => assert keys[i] in keys; services[keys[i]].varName)
  }

  lemma RecordedNames(naming: Naming, keys: seq<Key>, names: seq<string>, services: map<Key, Service>, services': map<Key, Service>)
    requires Records(naming, keys, names, services) && |names| == |keys| && SameNames(services, services')
    ensures (forall k :: k in keys ==> k in services') && NamesIn(services', keys) == names
  {
    assert keys[..|names|] == keys;
    forall i | 0 <= i < |keys| ensures keys[i] in services' && services'[keys[i]].varName == names[i] {
      assert keys[i] in Elements(keys);
    }
  }

  /** The variables are the names chosen in key order. */
  ghost predicate VarsChosen(reserved: set<string>, naming: Naming, keys: seq<Key>, services: map<Key, Service>) {
    (forall k :: k in keys ==> k in services) && Chosen(reserved, naming, keys, NamesIn(services, keys))
  }

  /** What `collect` leaves when it succeeds. */
  ghost predicate Accepted(g: Graph, reserved: set<string>, naming: Naming, keys: seq<Key>, services: map<Key, Service>,
                           imports: map<string, string>)
  {
    && Injective(imports) && "fmt" !in imports.Values && imports.Keys == Paths(g, naming, keys)
    && services.Keys == g.Keys == Elements(keys)
    && Compilable(g, VarNames(services)) && DistinctNames(reserved, VarNames(services))
    && FieldsDiffer(naming, keys) && FieldsNamed(naming, services) && FactoriesMarked(g, services)
    && VarsChosen(reserved, naming, keys, services)
  }

  class WiringGenerator {
    const reserved: set<string>
    var services: map<Key, Service>
    var ordered: seq<Key>
    /** Local to `collect` in the source, shared with its closures. */
    var visited: set<Key>
    var resolved: map<Key, bool>
    var imports: map<string, string>
    var aliases: set<string>

    constructor ()
      ensures services == map[] && ordered == [] && visited == {} && resolved == map[]
      ensures reserved == GO_KEYWORDS && AliasesFit() && imports == map[]
    {
      reserved := GO_KEYWORDS;
      services, ordered, visited, resolved := map[], [], {}, map[];
      imports, aliases := map[], {"fmt"};
    }

    /** One alias for each package, none of them twice, and fmt kept free. */
    ghost predicate AliasesFit()
      reads this`imports, this`aliases
    {
      && Injective(imports) && "fmt" !in imports.Values && aliases == imports.Values + {"fmt"}
    }

    /** importAlias, from the last part of the path that can name a package. */
    method ImportAlias(pkgPath: string, base: string) returns (alias: string)
      requires AliasesFit()
      modifies this`imports, this`aliases
      ensures AliasesFit()
      ensures imports == if pkgPath in old(imports) then old(imports) else old(imports)[pkgPath := alias]
      ensures pkgPath in imports && imports[pkgPath] == alias
      ensures pkgPath !in old(imports) ==> FirstFree(if base == "" then "pkg" else base, old(aliases), alias)
    {
      if pkgPath in imports {
        return imports[pkgPath];
      }
      alias := FreeAlias(if base == "" then "pkg" else base, aliases);
      AliasIsFree(imports, pkgPath, alias, aliases);
      imports, aliases := imports[pkgPath := alias], aliases + {alias};
    }

    /** The loop over suffixes, which starts from the bare name. */
    method FreeAlias(name: string, taken: set<string>) returns (candidate: string)
      ensures FirstFree(name, taken, candidate)
    {
      hide Decimal;
      candidate := name;
      var suffix := 2;
      while candidate in taken
        invariant suffix >= 2 && candidate == (if suffix == 2 then name else name + Decimal(suffix - 1))
        invariant suffix > 2 ==> name in taken
        invariant forall m: nat :: 2 <= m < suffix - 1 ==> name + Decimal(m) in taken
        decreases |taken| + 3 - suffix
      {
        FewAreTaken(name, taken, suffix);
        candidate := name + Decimal(suffix);
        suffix := suffix + 1;
      }
      if suffix > 2 {
        assert suffix - 1 >= 2 && candidate == name + Decimal(suffix - 1);
      }
    }

    lemma AliasIsFree(imports: map<string, string>, pkgPath: string, alias: string, aliases: set<string>)
      requires Injective(imports) && "fmt" !in imports.Values && aliases == imports.Values + {"fmt"}
      requires pkgPath !in imports && alias !in aliases
      ensures var imports' := imports[pkgPath := alias];
              Injective(imports') && "fmt" !in imports'.Values && aliases + {alias} == imports'.Values + {"fmt"}
    {
      var imports' := imports[pkgPath := alias];
      forall p | p in imports ensures imports[p] != alias && imports'[p] == imports[p] {
        assert imports[p] in imports.Values;
      }
      assert imports'.Values == imports.Values + {alias} by {
        forall v | v in imports.Values ensures v in imports'.Values {
          var p :| p in imports && imports[p] == v;
          assert imports'[p] == v;
        }
        assert imports'[pkgPath] == alias;
      }
    }

    /** Importing what the source of a service refers to. */
    method ImportAll(refs: seq<Ref>, base: string -> string)
      requires AliasesFit()
      modifies this`imports, this`aliases
      ensures AliasesFit()
      ensures imports.Keys == old(imports).Keys + PathsIn(refs)
      ensures forall p :: p in old(imports) ==> imports[p] == old(imports)[p]
    {
      var i := 0;
      while i < |refs|
        invariant 0 <= i <= |refs| && AliasesFit()
        invariant imports.Keys == old(imports).Keys + PathsIn(refs[..i])
        invariant forall p :: p in old(imports) ==> imports[p] == old(imports)[p]
      {
        assert refs[..i + 1] == refs[..i] + [refs[i]];
        assert PathsIn(refs[..i + 1]) == PathsIn(refs[..i]) + {refs[i].path};
        var alias := ImportAlias(refs[i].path, base(refs[i].path));
        i := i + 1;
      }
      assert refs[..i] == refs;
    }

    /** The first loop of `collect`: field and variable names, in key order, and the
        imports. */
    method NameServices(g: Graph, naming: Naming, keys: seq<Key>) returns (err: Option<WiringError>, names: seq<string>)
      requires services == map[] && NoDuplicates(keys) && AliasesFit() && imports == map[]
      modifies this`services, this`imports, this`aliases
      ensures err.None? ==> AliasesFit() && imports.Keys == Paths(g, naming, keys)
      ensures err.None? <==> Sourced(naming, keys) && FieldsDiffer(naming, keys)
      ensures err.None? ==>
                |names| == |keys| && Chosen(reserved, naming, keys, names) && Records(naming, keys, names, services)
      ensures err.Some? ==>
                match err.value
                case Unnameable(key) => key in keys && !naming.nameable(key)
                case Inexpressible(key) => key in keys && !naming.expressible(key)
                case FieldClash(previous, key) => previous != key && naming.field(previous) == naming.field(key)
                case _ => false
    {
      hide NamingState, Chosen, Records, FieldsDiffer, Sourced, Paths, AliasesFit, FirstFree;
      var usedFields: map<string, Key> := map[];
      var usedVars: set<string> := {};
      names := [];
      NamingStarts(reserved, g, naming, keys);
      while |names| < |keys|
        invariant NamingState(reserved, naming, keys, names, services, usedFields, usedVars)
        invariant |names| <= |keys| && Sourced(naming, keys[..|names|])
        invariant AliasesFit() && imports.Keys == Paths(g, naming, keys[..|names|])
      {
        var key := keys[|names|];
        SourcedOneMore(naming, keys, |names|);
        if !naming.nameable(key) {
          err := Some(Unnameable(key));
          return;
        }
        var fieldName := naming.field(key);
        if fieldName in usedFields {
          err := Some(FieldClash(usedFields[fieldName], key));
          ClashFound(reserved, naming, keys, names, services, usedFields, usedVars);
          return;
        }
        var varName := UniqueVarName(naming.lowered(fieldName), usedVars, reserved);
        if !naming.expressible(key) {
          err := Some(Inexpressible(key));
          return;
        }
        ImportAll(Refs(g, naming, key), naming.base);
        PathsOneMore(g, naming, keys, |names|);
        NameOneMore(reserved, naming, keys, names, services, usedFields, usedVars, varName);
        usedFields := usedFields[fieldName := key];
        usedVars := usedVars + {varName};
        services := services[key := Service(fieldName, varName, false)];
        names := names + [varName];
      }
      NamingEnds(reserved, naming, keys, names, services, usedFields, usedVars);
      err := None;
    }

    /** The second loop: a singleton a constructor builds may not take a
        transient service. */
    method CheckSingletons(g: Graph, keys: seq<Key>) returns (err: Option<WiringError>)
      requires Closed(g) && Elements(keys) == g.Keys
      ensures err.None? <==> SingletonsOnly(g)
      ensures err.Some? ==> err.value.SingletonNeedsTransient? && Edge(g, err.value.key, err.value.input)
                            && g[err.value.key].IsBuilt() && err.value.input in g && g[err.value.input].IsTransient()
    {
      var i := 0;
      while i < |keys|
        invariant 0 <= i <= |keys|
        invariant forall k, d :: k in keys[..i] && Edge(g, k, d) && d in g && g[k].IsBuilt() ==> !g[d].IsTransient()
      {
        var key := keys[i];
        assert key in Elements(keys);
        if g[key].IsBuilt() {
          var inputs := g[key].inputs;
          var j := 0;
          while j < |inputs|
            invariant 0 <= j <= |inputs|
            invariant forall d :: d in inputs[..j] && d in g ==> !g[d].IsTransient()
          {
            assert Edge(g, key, inputs[j]);
            if g[inputs[j]].IsTransient() {
              return Some(SingletonNeedsTransient(key, inputs[j]));
            }
            j := j + 1;
          }
          assert inputs[..j] == inputs;
        }
        assert keys[..i + 1] == keys[..i] + [key];
        i := i + 1;
      }
      forall k, d | Edge(g, k, d) && d in g && g[k].IsBuilt() ensures !g[d].IsTransient() {
        assert k in Elements(keys);
        assert k in keys[..i];
      }
      return None;
    }

    /** The `visit` closure: append constructors in depth-first postorder. */
    method VisitKey(g: Graph, key: Key)
      requires Closed(g) && key in g
      modifies this`visited, this`ordered
      ensures var (seen, out) := Visit(g, old(visited), key);
              visited == seen && ordered == old(ordered) + out
      decreases g.Keys - visited
    {
      if key in visited {
        return;
      }
      assert key in g.Keys - visited && key !in g.Keys - (visited + {key});
      visited := visited + {key};
      var inputs := g[key].Inputs();
      forall d | d in inputs ensures d in g {
        assert Edge(g, key, d);
      }
      ghost var (seen, out) := VisitAll(g, visited, inputs);
      ghost var start := ordered;
      var i := 0;
      while i < |inputs|
        invariant 0 <= i <= |inputs| && old(visited) + {key} <= visited
        invariant forall d :: d in inputs ==> d in g
        invariant var (seen', out') := VisitAll(g, visited, inputs[i..]);
                  seen == seen' && start + out == ordered + out'
      {
        assert inputs[i..][1..] == inputs[i + 1..];
        ghost var (seen1, some) := Visit(g, visited, inputs[i]);
        Associative(ordered, some, VisitAll(g, seen1, inputs[i + 1..]).1);
        VisitKey(g, inputs[i]);
        i := i + 1;
      }
      assert inputs[i..] == [] && ordered == start + out;
      if g[key].IsBuilt() {
        Associative(start, out, [key]);
        ordered := ordered + [key];
      }
    }

    /** One turn of the loop that visits the singletons. */
    lemma SingletonsFrom(g: Graph, keys: seq<Key>, i: nat, seen: set<Key>, before: seq<Key>)
      requires Closed(g) && i < |keys| && forall k :: k in keys ==> k in g
      ensures var rest := Singletons(g, keys[i + 1..]);
              before + VisitAll(g, seen, Singletons(g, keys[i..])).1 ==
              if g[keys[i]].IsTransient() then before + VisitAll(g, seen, rest).1
              else (before + Visit(g, seen, keys[i]).1) + VisitAll(g, Visit(g, seen, keys[i]).0, rest).1
    {
      assert keys[i..][1..] == keys[i + 1..];
      var rest := Singletons(g, keys[i + 1..]);
      if g[keys[i]].IsTransient() {
        assert Singletons(g, keys[i..]) == rest;
      } else {
        assert Singletons(g, keys[i..]) == [keys[i]] + rest;
        assert ([keys[i]] + rest)[1..] == rest;
        Associative(before, Visit(g, seen, keys[i]).1, VisitAll(g, Visit(g, seen, keys[i]).0, rest).1);
      }
    }

    method OrderSingletons(g: Graph, keys: seq<Key>)
      requires Closed(g) && visited == {} && ordered == []
      requires forall k :: k in keys ==> k in g
      modifies this`visited, this`ordered
      ensures ordered == Emission(g, keys)
    {
      hide Visit, VisitAll, Singletons;
      ghost var out := Emission(g, keys);
      assert keys[0..] == keys;
      assert [] + out == out;
      var i := 0;
      while i < |keys|
        invariant 0 <= i <= |keys|
        invariant out == ordered + VisitAll(g, visited, Singletons(g, keys[i..])).1
      {
        SingletonsFrom(g, keys, i, visited, ordered);
        if !g[keys[i]].IsTransient() {
          VisitKey(g, keys[i]);
        }
        i := i + 1;
      }
      assert keys[i..] == [];
      NoneLeft(g, visited, ordered);
    }

    lemma NoneLeft(g: Graph, seen: set<Key>, before: seq<Key>)
      requires Closed(g)
      ensures before + VisitAll(g, seen, Singletons(g, [])).1 == before
    {
    }

    ghost predicate ResolvedCorrectly(g: Graph)
      reads this`resolved
    {
      forall k :: k in resolved ==> k in g && (resolved[k] <==> CanFail(g, k))
    }

    /** The `factoryErr` closure, with its memo table. */
    method FactoryErr(g: Graph, key: Key, ghost stack: seq<Key>) returns (value: bool)
      requires Closed(g) && Acyclic(g) && key in g && IsPath(g, stack + [key])
      requires ResolvedCorrectly(g)
      modifies this`resolved
      ensures ResolvedCorrectly(g)
      ensures value <==> CanFail(g, key)
      decreases g.Keys - Elements(stack)
    {
      if !g[key].IsTransient() {
        return false;
      }
      if key in resolved {
        return resolved[key];
      }
      if key in stack {
        CycleOfIsCycle(g, stack, key);
      }
      assert key in g.Keys - Elements(stack) && key !in g.Keys - Elements(stack + [key]);
      value := g[key].fallible;
      var inputs := g[key].inputs;
      var i := 0;
      while i < |inputs|
        invariant 0 <= i <= |inputs| && ResolvedCorrectly(g)
        invariant value <==> g[key].fallible || exists d :: d in inputs[..i] && CanFail(g, d)
      {
        assert Edge(g, key, inputs[i]);
        ExtendPath(g, stack + [key], inputs[i]);
        var inputFails := FactoryErr(g, inputs[i], stack + [key]);
        if inputFails {
          value := true;
        }
        assert inputs[..i + 1] == inputs[..i] + [inputs[i]];
        i := i + 1;
      }
      assert inputs[..i] == inputs;
      CanFailUnfolds(g, key);
      resolved := resolved[key := value];
    }

    /** The last loop: mark the factories that return an error. */
    method MarkFactories(g: Graph, keys: seq<Key>)
      requires Closed(g) && Acyclic(g) && resolved == map[]
      requires Elements(keys) == g.Keys && services.Keys == g.Keys
      modifies this`resolved, this`services
      ensures SameNames(old(services), services) && FactoriesMarked(g, services)
    {
      var i := 0;
      while i < |keys|
        invariant 0 <= i <= |keys| && ResolvedCorrectly(g) && SameNames(old(services), services)
        invariant forall k :: k in keys[..i] && k in g && g[k].IsTransient() ==>
                    (services[k].factoryErr <==> CanFail(g, k))
      {
        var key := keys[i];
        assert key in Elements(keys);
        if g[key].IsTransient() {
          var value := FactoryErr(g, key, []);
          services := services[key := services[key].(factoryErr := value)];
        }
        assert keys[..i + 1] == keys[..i] + [key];
        i := i + 1;
      }
      assert forall k :: k in g ==> k in Elements(keys);
      assert keys[..i] == keys;
    }

    /** The part of `collect` that can no longer fail. */
    method OrderAndMark(g: Graph, ghost naming: Naming, keys: seq<Key>)
      requires Closed(g) && Acyclic(g) && SingletonsOnly(g)
      requires Elements(keys) == g.Keys == services.Keys && forall k :: k in keys ==> k in g
      requires ordered == [] && visited == {} && resolved == map[]
      requires FieldsNamed(naming, services) && DistinctNames(reserved, VarNames(services))
      modifies this`services, this`ordered, this`visited, this`resolved
      ensures services.Keys == g.Keys && Compilable(g, VarNames(services)) && DistinctNames(reserved, VarNames(services))
      ensures ordered == Emission(g, keys)
      ensures FieldsNamed(naming, services) && FactoriesMarked(g, services) && SameNames(old(services), services)
    {
      OrderSingletons(g, keys);
      ghost var before := services;
      MarkFactories(g, keys);
      CollectedNames(g, reserved, naming, before, services);
    }

    /** `collect`, on a validated graph. It succeeds exactly when every service can be
        named and written as source, all field names differ and no built singleton
        takes a transient service, and then leaves what compiler correctness asks for. */
    method Collect(g: Graph, naming: Naming, keys: seq<Key>) returns (err: Option<WiringError>)
      requires Closed(g) && Acyclic(g)
      requires NoDuplicates(keys) && Elements(keys) == g.Keys
      requires services == map[] && ordered == [] && visited == {} && resolved == map[]
      requires AliasesFit() && imports == map[]
      modifies this
      ensures err.None? <==> Sourced(naming, keys) && FieldsDiffer(naming, keys) && SingletonsOnly(g)
      ensures forall k :: k in keys ==> k in g
      ensures err.None? ==> Accepted(g, reserved, naming, keys, services, imports) && ordered == Emission(g, keys)
    {
      assert forall k :: k in keys ==> k in Elements(keys);
      var names;
      err, names := NameServices(g, naming, keys);
      if err.Some? {
        return;
      }
      DistinctVariables(reserved, naming, keys, names, services);
      err := CheckSingletons(g, keys);
      if err.Some? {
        return;
      }
      ghost var named := services;
      OrderAndMark(g, naming, keys);
      RecordedNames(naming, keys, names, named, services);
    }

    method ArgumentList(inputs: seq<Key>) returns (arguments: seq<string>)
      requires forall d :: d in inputs ==> d in services
      ensures arguments == ArgumentNames(VarNames(services), inputs)
    {
      arguments := [];
      var i := 0;
      while i < |inputs|
        invariant 0 <= i <= |inputs| && |arguments| == i
        invariant forall j :: 0 <= j < i ==> arguments[j] == VarNames(services)[inputs[j]]
      {
        arguments := arguments + [services[inputs[i]].varName];
        i := i + 1;
      }
    }

    /** The statements `render` writes into the body of Wire. */
    method RenderWire(g: Graph) returns (body: seq<Statement>)
      requires Named(g, VarNames(services)) && services.Keys == g.Keys
      requires forall k :: k in ordered ==> k in g && g[k].Provided?
      ensures body == EmitAll(g, VarNames(services), ordered)
    {
      body := [];
      var i := 0;
      while i < |ordered|
        invariant 0 <= i <= |ordered| && |body| == i
        invariant forall j :: 0 <= j < i ==> ordered[j] in ordered && body[j] == Emit(g, VarNames(services), ordered[j])
      {
        var key := ordered[i];
        assert key in ordered;
        var arguments := ArgumentList(g[key].inputs);
        body := body + [Statement(services[key].varName, key, arguments, g[key].fallible)];
        i := i + 1;
      }
    }
  }
}
