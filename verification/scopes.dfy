/**
  What each name in the generated file means (wiring.go). Go resolves a name from the
  innermost block outwards, so a variable can hide what the code below it mentions:
  an import alias, err, fmt or a predeclared name. This says exactly when that happens
  in the file's import block and in Wire; Factories does the same for the factories.
  */
module WireScope {
  import opened Wrappers
  import opened Sequences
  import opened Container
  import opened Resolution
  import opened Wiring
  import opened Generator

  /** The names the generator writes besides its variables: the alias of each
      constructor's package, the names in the type of each service (aliases and
      predeclared types), the alias of every imported path and every predeclared type.
      `errHolds` says that the variable called err, if there is one, has an interface type
      that every error has, `errorf` that a qualified name reads like fmt.Errorf. */
  datatype Names = Names(packages: map<Key, string>, mentioned: map<Key, set<string>>,
                         imports: map<string, string>, builtins: set<string>, errHolds: bool, errorf: bool)

  /** The package-level declarations of the generated file. */
  const PACKAGE_NAMES: set<string> := {"Services", "Wire", "Fingerprint"}

  /** What no import may be called: a package-level name, a word that names no import,
      or a predeclared name the file uses. */
  function Forbidden(names: Names): set<string> {
    PACKAGE_NAMES + GO_KEYWORDS + {"init", "_", "error", "nil"} + names.builtins
  }

  /** What `render` imports in the end: fmt as fmt when the text of the file contains
      fmt.Errorf, whatever that path's alias was. */
  function FinalImports(names: Names, checks: bool): map<string, string> {
    if checks || names.errorf then names.imports["fmt" := "fmt"] else names.imports
  }

  /** What Go asks of the imports: no alias twice, none that is forbidden, none missing
      that the file writes, and none that it does not use. */
  predicate ImportsCompile(names: Names, checks: bool, usesNew: bool) {
    var final := FinalImports(names, checks);
    && Injective(final) && final.Values !! Forbidden(names) && (usesNew ==> "new" !in final.Values)
    && (forall p :: p in names.imports ==> final[p] == names.imports[p])
    && ("fmt" in final && final["fmt"] == "fmt" ==> checks)
  }

  /** What `importAlias` keeps: no alias twice and none called fmt. The names in the file
      are aliases it gave, or predeclared types, none of which is called s, err, fmt, nil
      or new. */
  ghost predicate NamesFit(g: Graph, names: Names) {
    && names.packages.Keys == names.mentioned.Keys == g.Keys
    && Injective(names.imports) && "fmt" !in names.imports.Values
    && (forall k :: k in g && g[k].Provided? ==> names.packages[k] in names.imports.Values)
    && (forall k :: k in g ==> names.mentioned[k] <= names.imports.Values + names.builtins)
    && names.builtins !! {"s", "err", "fmt", "nil", "new"}
  }

  /** The imports are clear: no alias is forbidden, no service or constructor is of
      package fmt when the file imports it under its own name, and it does so only when
      something is checked. */
  ghost predicate ImportsClear(names: Names, checks: bool, usesNew: bool) {
    && names.imports.Values !! Forbidden(names) && (usesNew ==> "new" !in names.imports.Values)
    && (checks || names.errorf ==> "fmt" !in names.imports)
    && (names.errorf ==> checks)
  }

  lemma ImportsCompileExactly(g: Graph, names: Names, checks: bool, usesNew: bool)
    requires NamesFit(g, names)
    ensures ImportsCompile(names, checks, usesNew) <==> ImportsClear(names, checks, usesNew)
  {
    FmtIsAllowed(names);
    hide Forbidden, Injective;
    if checks || names.errorf {
      if "fmt" in names.imports {
        assert names.imports["fmt"] in names.imports.Values;
      } else {
        FmtImported(names);
      }
    } else if "fmt" in names.imports {
      assert names.imports["fmt"] in names.imports.Values;
    }
  }

  lemma FmtIsAllowed(names: Names)
    requires "fmt" !in names.builtins
    ensures "fmt" !in Forbidden(names)
  {
  }

  lemma FmtImported(names: Names)
    requires Injective(names.imports) && "fmt" !in names.imports.Values && "fmt" !in names.imports
    ensures var final := names.imports["fmt" := "fmt"]; Injective(final) && final.Values == names.imports.Values + {"fmt"}
  {
    var final := names.imports["fmt" := "fmt"];
    assert forall p :: p in names.imports ==> names.imports[p] in names.imports.Values;
    forall v | v in names.imports.Values ensures v in final.Values {
      var p :| p in names.imports && names.imports[p] == v;
      assert final[p] == v;
    }
    assert final["fmt"] == "fmt";
  }

  /** What Go asks of one generated statement: its arguments are variables, it declares
      a new one, and none of the names it mentions (the alias of the constructor, and fmt
      and nil when checked) means a service variable by then. A check may reuse a service
      variable called err that can hold an error. */
  predicate StatementCompiles(declared: set<string>, errDeclared: bool, t: Statement, aliases: map<Key, string>,
                              errHolds: bool)
  {
    && (forall n :: n in t.args ==> n in declared)
    && t.target !in declared
    && t.callee in aliases && aliases[t.callee] !in declared && (errDeclared ==> aliases[t.callee] != "err")
    && (if t.checked then
          && t.target != "err" && ("err" in declared ==> errHolds)
          && {"fmt", "nil"} !! declared + {t.target}
        else
          errDeclared ==> t.target != "err")
  }

  /** The body, and the closing `return &Services{...}, nil`. */
  predicate BodyCompiles(declared: set<string>, errDeclared: bool, body: seq<Statement>, aliases: map<Key, string>,
                         errHolds: bool)
    decreases |body|
  {
    if body == [] then {"nil", "Services"} !! declared
    else
      && StatementCompiles(declared, errDeclared, body[0], aliases, errHolds)
      && BodyCompiles(declared + {body[0].target}, errDeclared || body[0].checked, body[1..], aliases, errHolds)
  }

  /** Wire, whose parameters are the instances. */
  predicate WireCompiles(g: Graph, vars: map<Key, string>, names: Names, body: seq<Statement>)
    requires Named(g, vars) && Injective(vars)
  {
    BodyCompiles(Parameters(g, vars).Keys, false, body, names.packages, names.errHolds)
  }

  /** The naming condition, over the services and the order they are emitted in: no
      singleton is called nil or Services; none that a fallible constructor builds, or
      that comes after one, is called err, and one that comes before is called err only
      if it can hold an error; none that comes before a fallible constructor, or is built
      by it, is called fmt; no constructor's alias is the variable of an instance or of
      an earlier singleton, or err after a fallible constructor. */
  ghost predicate WireClear(g: Graph, vars: map<Key, string>, aliases: map<Key, string>, errHolds: bool, out: seq<Key>)
    requires Named(g, vars) && aliases.Keys == g.Keys && forall k :: k in out ==> k in g
  {
    && (forall k :: k in g && !g[k].IsTransient() ==> vars[k] !in {"nil", "Services"})
    && (forall k, j :: k in out && CanFault(g, k) && j in g && g[j].Instance? ==>
          vars[j] != "fmt" && (vars[j] == "err" ==> errHolds))
    && (forall k, j :: k in out && j in g && g[j].Instance? ==> aliases[k] != vars[j])
    && (forall a, b :: 0 <= a <= b < |out| && CanFault(g, out[b]) ==> vars[out[a]] != "fmt")
    && (forall a, b :: 0 <= a <= b < |out| && CanFault(g, out[a]) ==> vars[out[b]] != "err")
    && (forall a, b :: 0 <= a < b < |out| && CanFault(g, out[b]) && vars[out[a]] == "err" ==> errHolds)
    && (forall a, b :: 0 <= a < b < |out| ==>
          aliases[out[b]] != vars[out[a]] && (CanFault(g, out[a]) ==> aliases[out[b]] != "err"))
  }

  // ----- the statements one by one

  function Declared(parameters: set<string>, vars: map<Key, string>, out: seq<Key>): set<string>
    requires forall k :: k in out ==> k in vars
  {
    parameters + set k | k in out :: vars[k]
  }

  predicate CanFault(g: Graph, key: Key) {
    key in g && g[key].Provided? && g[key].fallible
  }

  predicate AnyFallible(g: Graph, out: seq<Key>) {
    exists k :: k in out && CanFault(g, k)
  }

  ghost predicate Covered(g: Graph, vars: map<Key, string>, aliases: map<Key, string>, out: seq<Key>) {
    forall k :: k in out ==> k in vars && k in aliases && k in g && g[k].Provided?
  }

  /** The naming conditions on the i-th statement alone. */
  ghost predicate ClearAt(g: Graph, vars: map<Key, string>, aliases: map<Key, string>, errHolds: bool,
                          parameters: set<string>, out: seq<Key>, i: nat)
    requires Covered(g, vars, aliases, out)
    requires i < |out|
  {
    var declared := Declared(parameters, vars, out[..i]);
    var after := Declared(parameters, vars, out[..i + 1]);
    && aliases[out[i]] !in declared
    && (AnyFallible(g, out[..i]) ==> aliases[out[i]] != "err")
    && (g[out[i]].fallible ==> vars[out[i]] != "err" && ("err" in declared ==> errHolds) && {"fmt", "nil"} !! after)
    && (AnyFallible(g, out[..i]) ==> vars[out[i]] != "err")
  }

  lemma DeclareOneMore(g: Graph, vars: map<Key, string>, parameters: set<string>, out: seq<Key>, i: nat)
    requires i < |out| && forall k :: k in out ==> k in vars && k in g && g[k].Provided?
    ensures Declared(parameters, vars, out[..i + 1]) == Declared(parameters, vars, out[..i]) + {vars[out[i]]}
    ensures AnyFallible(g, out[..i + 1]) == (AnyFallible(g, out[..i]) || g[out[i]].fallible)
  {
    assert out[..i + 1] == out[..i] + [out[i]];
    assert Declared(parameters, vars, out[..i + 1]) == Declared(parameters, vars, out[..i]) + {vars[out[i]]};
    if k :| k in out[..i + 1] && CanFault(g, k) {
      assert k in out[..i] || k == out[i];
    }
    if k :| k in out[..i] && CanFault(g, k) {
      assert k in out[..i + 1];
    }
    if CanFault(g, out[i]) {
      assert out[i] in out[..i + 1];
    }
  }

  lemma StatementCompilesExactly(g: Graph, vars: map<Key, string>, aliases: map<Key, string>, errHolds: bool,
                                 parameters: set<string>, out: seq<Key>, i: nat)
    requires Compilable(g, vars) && InOrder(g, out) && i < |out|
    requires Covered(g, vars, aliases, out)
    requires parameters == Parameters(g, vars).Keys
    ensures var declared := Declared(parameters, vars, out[..i]);
            StatementCompiles(declared, AnyFallible(g, out[..i]), Emit(g, vars, out[i]), aliases, errHolds) <==>
            ClearAt(g, vars, aliases, errHolds, parameters, out, i)
  {
    ArgumentsDeclared(g, vars, parameters, out, i);
    DeclareOneMore(g, vars, parameters, out, i);
  }

  lemma {:induction false} BodyCompilesFrom(g: Graph, vars: map<Key, string>, aliases: map<Key, string>, errHolds: bool,
                                            parameters: set<string>, out: seq<Key>, i: nat)
    requires Compilable(g, vars) && InOrder(g, out) && i <= |out|
    requires Covered(g, vars, aliases, out)
    requires parameters == Parameters(g, vars).Keys
    ensures BodyCompiles(Declared(parameters, vars, out[..i]), AnyFallible(g, out[..i]),
                         EmitAll(g, vars, out[i..]), aliases, errHolds)
       <==> (forall j :: i <= j < |out| ==> ClearAt(g, vars, aliases, errHolds, parameters, out, j))
            && {"nil", "Services"} !! Declared(parameters, vars, out)
    decreases |out| - i
  {
    hide BodyCompiles, StatementCompiles, ClearAt, Declared, AnyFallible, EmitAll, Emit, InOrder, Injective;
    if i == |out| {
      BodyEnd(g, vars, aliases, errHolds, parameters, out);
      assert out[..i] == out;
    } else {
      BodyCompilesFrom(g, vars, aliases, errHolds, parameters, out, i + 1);
      StatementCompilesExactly(g, vars, aliases, errHolds, parameters, out, i);
      BodyStep(g, vars, aliases, errHolds, parameters, out, i);
    }
  }

  lemma BodyEnd(g: Graph, vars: map<Key, string>, aliases: map<Key, string>, errHolds: bool,
                parameters: set<string>, out: seq<Key>)
    requires Named(g, vars) && Covered(g, vars, aliases, out)
    ensures BodyCompiles(Declared(parameters, vars, out), AnyFallible(g, out), EmitAll(g, vars, out[|out|..]), aliases, errHolds)
       <==> {"nil", "Services"} !! Declared(parameters, vars, out)
  {
  }

  lemma BodyStep(g: Graph, vars: map<Key, string>, aliases: map<Key, string>, errHolds: bool, parameters: set<string>,
                 out: seq<Key>, i: nat)
    requires Named(g, vars) && Covered(g, vars, aliases, out) && i < |out|
    ensures BodyCompiles(Declared(parameters, vars, out[..i]), AnyFallible(g, out[..i]), EmitAll(g, vars, out[i..]), aliases, errHolds)
       <==> StatementCompiles(Declared(parameters, vars, out[..i]), AnyFallible(g, out[..i]), Emit(g, vars, out[i]), aliases, errHolds)
            && BodyCompiles(Declared(parameters, vars, out[..i + 1]), AnyFallible(g, out[..i + 1]),
                            EmitAll(g, vars, out[i + 1..]), aliases, errHolds)
  {
    hide StatementCompiles, Declared, AnyFallible, EmitAll;
    DeclareOneMore(g, vars, parameters, out, i);
    EmitSuffix(g, vars, out, i);
  }

  lemma EmitSuffix(g: Graph, vars: map<Key, string>, out: seq<Key>, i: nat)
    requires Named(g, vars) && i < |out| && forall k :: k in out ==> k in g && g[k].Provided?
    ensures var body := EmitAll(g, vars, out[i..]);
            body != [] && body[0] == Emit(g, vars, out[i]) && body[1..] == EmitAll(g, vars, out[i + 1..])
  {
    var body := EmitAll(g, vars, out[i..]);
    assert body[0] == Emit(g, vars, out[i..][0]);
    assert out[i..][1..] == out[i + 1..];
  }

  /** Dependencies never get in the way: arguments come first, targets are new. */
  lemma ArgumentsDeclared(g: Graph, vars: map<Key, string>, parameters: set<string>, out: seq<Key>, i: nat)
    requires Compilable(g, vars) && InOrder(g, out) && i < |out|
    requires forall k :: k in out ==> k in vars
    requires parameters == Parameters(g, vars).Keys
    ensures var declared := Declared(parameters, vars, out[..i]);
            && vars[out[i]] !in declared
            && forall n :: n in Emit(g, vars, out[i]).args ==> n in declared
  {
    var declared := Declared(parameters, vars, out[..i]);
    forall n | n in Emit(g, vars, out[i]).args ensures n in declared {
      var j :| 0 <= j < |g[out[i]].inputs| && vars[g[out[i]].inputs[j]] == n;
      assert Edge(g, out[i], g[out[i]].inputs[j]);
    }
    assert forall k :: k in out[..i] ==> k != out[i];
  }

  lemma NotDeclared(g: Graph, vars: map<Key, string>, out: seq<Key>, i: nat, name: string)
    requires Named(g, vars) && Injective(vars) && i <= |out| && forall k :: k in out ==> k in vars
    ensures name !in Declared(Parameters(g, vars).Keys, vars, out[..i]) <==>
            && (forall j :: j in g && g[j].Instance? ==> vars[j] != name)
            && (forall a :: 0 <= a < i ==> vars[out[a]] != name)
  {
    var declared := Declared(Parameters(g, vars).Keys, vars, out[..i]);
    forall j | j in g && g[j].Instance? ensures vars[j] in declared {
      assert vars[j] in Parameters(g, vars);
    }
    forall a | 0 <= a < i ensures vars[out[a]] in declared {
      assert out[..i][a] in out[..i];
    }
    if k :| k in out[..i] && vars[k] == name {
      var a :| 0 <= a < i && out[..i][a] == k;
      assert vars[out[a]] == name;
    }
  }

  lemma FallibleBefore(g: Graph, out: seq<Key>, i: nat)
    requires i <= |out|
    ensures AnyFallible(g, out[..i]) <==> exists a :: 0 <= a < i && CanFault(g, out[a])
  {
    if a :| 0 <= a < i && CanFault(g, out[a]) {
      assert out[..i][a] in out[..i];
    }
    if k :| k in out[..i] && CanFault(g, k) {
      var a :| 0 <= a < i && out[..i][a] == k;
      assert CanFault(g, out[a]);
    }
  }

  /** ClearAt with the sets of names opened up. */
  ghost predicate OpenAt(g: Graph, vars: map<Key, string>, aliases: map<Key, string>, errHolds: bool, out: seq<Key>, i: nat)
    requires Named(g, vars) && aliases.Keys == g.Keys && (forall k :: k in out ==> k in g) && i < |out|
  {
    && (forall j :: j in g && g[j].Instance? ==>
          && aliases[out[i]] != vars[j]
          && (CanFault(g, out[i]) ==> vars[j] !in {"fmt", "nil"} && (vars[j] == "err" ==> errHolds)))
    && (forall a :: 0 <= a < i ==>
          && aliases[out[i]] != vars[out[a]]
          && (CanFault(g, out[a]) ==> aliases[out[i]] != "err" && vars[out[i]] != "err")
          && (CanFault(g, out[i]) && vars[out[a]] == "err" ==> errHolds))
    && (forall a :: 0 <= a <= i && CanFault(g, out[i]) ==> vars[out[a]] !in {"fmt", "nil"})
    && (CanFault(g, out[i]) ==> vars[out[i]] != "err")
  }

  lemma ClearIsOpen(g: Graph, vars: map<Key, string>, aliases: map<Key, string>, errHolds: bool, out: seq<Key>, i: nat)
    requires Named(g, vars) && Injective(vars) && aliases.Keys == g.Keys
    requires (forall k :: k in out ==> k in g && g[k].IsBuilt()) && i < |out|
    ensures Covered(g, vars, aliases, out)
    ensures ClearAt(g, vars, aliases, errHolds, Parameters(g, vars).Keys, out, i) <==> OpenAt(g, vars, aliases, errHolds, out, i)
  {
    hide Declared, AnyFallible;
    FallibleBefore(g, out, i);
    NotDeclared(g, vars, out, i, aliases[out[i]]);
    NotDeclared(g, vars, out, i, "err");
    NotDeclared(g, vars, out, i + 1, "fmt");
    NotDeclared(g, vars, out, i + 1, "nil");
  }

  /** The conditions on all statements together, for an order with every constructor. */
  lemma OpenIsClear(g: Graph, vars: map<Key, string>, aliases: map<Key, string>, errHolds: bool, out: seq<Key>)
    requires Named(g, vars) && aliases.Keys == g.Keys && forall k :: k in out <==> k in g && g[k].IsBuilt()
    ensures (forall i :: 0 <= i < |out| ==> OpenAt(g, vars, aliases, errHolds, out, i))
            && (forall k :: k in g && !g[k].IsTransient() ==> vars[k] !in {"nil", "Services"})
            <==> WireClear(g, vars, aliases, errHolds, out)
  {
    if (forall i :: 0 <= i < |out| ==> OpenAt(g, vars, aliases, errHolds, out, i))
       && (forall k :: k in g && !g[k].IsTransient() ==> vars[k] !in {"nil", "Services"}) {
      OpenMeansClear(g, vars, aliases, errHolds, out);
    }
    if WireClear(g, vars, aliases, errHolds, out) {
      forall i | 0 <= i < |out| ensures OpenAt(g, vars, aliases, errHolds, out, i) {
        assert out[i] in out;
        assert forall a :: 0 <= a < |out| ==> out[a] in out;
      }
    }
  }

  lemma OpenMeansClear(g: Graph, vars: map<Key, string>, aliases: map<Key, string>, errHolds: bool, out: seq<Key>)
    requires Named(g, vars) && aliases.Keys == g.Keys && forall k :: k in out <==> k in g && g[k].IsBuilt()
    requires forall i :: 0 <= i < |out| ==> OpenAt(g, vars, aliases, errHolds, out, i)
    requires forall k :: k in g && !g[k].IsTransient() ==> vars[k] !in {"nil", "Services"}
    ensures WireClear(g, vars, aliases, errHolds, out)
  {
    forall k, j | k in out && CanFault(g, k) && j in g && g[j].Instance?
      ensures vars[j] != "fmt" && (vars[j] == "err" ==> errHolds)
    {
      var b :| 0 <= b < |out| && out[b] == k;
      assert OpenAt(g, vars, aliases, errHolds, out, b);
    }
    forall k, j | k in out && j in g && g[j].Instance? ensures aliases[k] != vars[j] {
      var b :| 0 <= b < |out| && out[b] == k;
      assert OpenAt(g, vars, aliases, errHolds, out, b);
    }
    forall a, b | 0 <= a <= b < |out| ensures CanFault(g, out[b]) ==> vars[out[a]] != "fmt" {
      assert OpenAt(g, vars, aliases, errHolds, out, b);
    }
    forall a, b | 0 <= a <= b < |out| ensures CanFault(g, out[a]) ==> vars[out[b]] != "err" {
      assert OpenAt(g, vars, aliases, errHolds, out, b);
    }
    forall a, b | 0 <= a < b < |out|
      ensures CanFault(g, out[b]) && vars[out[a]] == "err" ==> errHolds
      ensures aliases[out[b]] != vars[out[a]] && (CanFault(g, out[a]) ==> aliases[out[b]] != "err")
    {
      assert OpenAt(g, vars, aliases, errHolds, out, b);
    }
  }

  /** Wire compiles exactly when no variable hides what it mentions: undefined
      arguments and repeated declarations never happen. */
  lemma WireCompilesExactly(g: Graph, vars: map<Key, string>, names: Names, keys: seq<Key>)
    requires Compilable(g, vars) && Elements(keys) == g.Keys && names.packages.Keys == g.Keys
    ensures forall k :: k in keys ==> k in g
    ensures var out := Emission(g, keys);
            && (forall k :: k in out ==> k in g && g[k].IsBuilt())
            && (WireCompiles(g, vars, names, EmitAll(g, vars, out)) <==> WireClear(g, vars, names.packages, names.errHolds, out))
  {
    hide ClearAt, OpenAt, WireClear;
    EmissionInOrder(g, keys);
    var out, aliases, errHolds := Emission(g, keys), names.packages, names.errHolds;
    var parameters := Parameters(g, vars).Keys;
    assert forall k :: k in out <==> k in g && g[k].IsBuilt();
    BodyCompilesFrom(g, vars, aliases, errHolds, parameters, out, 0);
    assert out[0..] == out && Declared(parameters, vars, out[..0]) == parameters && out[..0] == [];
    forall i | 0 <= i < |out|
      ensures ClearAt(g, vars, aliases, errHolds, parameters, out, i) <==> OpenAt(g, vars, aliases, errHolds, out, i)
    {
      ClearIsOpen(g, vars, aliases, errHolds, out, i);
    }
    EveryVariable(g, vars, out);
    OpenIsClear(g, vars, aliases, errHolds, out);
  }

  lemma EveryVariable(g: Graph, vars: map<Key, string>, out: seq<Key>)
    requires Named(g, vars) && Injective(vars) && forall k :: k in out <==> k in g && g[k].IsBuilt()
    ensures {"nil", "Services"} !! Declared(Parameters(g, vars).Keys, vars, out) <==>
            forall k :: k in g && !g[k].IsTransient() ==> vars[k] !in {"nil", "Services"}
  {
    var declared := Declared(Parameters(g, vars).Keys, vars, out);
    forall k | k in g && !g[k].IsTransient() ensures vars[k] in declared {
      if g[k].Instance? {
        assert vars[k] in Parameters(g, vars);
      }
    }
  }
}
