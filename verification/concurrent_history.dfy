/**
  What constructor calls say about the results of concurrent resolutions (container.go):
  in every interleaving the history is authentic, a caller is answered for the service it
  asked for with a value of it, and the errors returned are those of the failed calls.
  */
module ConcurrentHistory {
  import opened Wrappers
  import opened Sequences
  import opened Container
  import opened Resolution
  import opened ConcurrentResolution
  import opened CallHistory

  ghost predicate FrameTold(g: Graph, calls: seq<Call>, f: Frame) {
    && f.key in g && |f.args| <= |g[f.key].Inputs()|
    && SuppliedEach(g, calls, g[f.key].Inputs()[..|f.args|], f.args)
  }

  predicate ModeTold(g: Graph, calls: seq<Call>, c: Caller) {
    match c.mode
    case Made(value) => c.frames != [] && Supplied(g, calls, Top(c).key, value)
    case Give(key, r) => r.Ok? ==> Supplied(g, calls, key, r.value)
    case Done(key, r) => r.Ok? ==> Supplied(g, calls, key, r.value)
    case _ => true
  }

  ghost predicate CallerTold(g: Graph, calls: seq<Call>, c: Caller) {
    ModeTold(g, calls, c) && forall i :: 0 <= i < |c.frames| ==> FrameTold(g, calls, c.frames[i])
  }

  ghost predicate SharedTold(g: Graph, run: Behaviour, sh: Shared) {
    Told(g, run, Store(sh.instances, sh.calls))
  }

  /** Whether a caller is returning or has returned this constructor's error. */
  function Failing(c: Caller, origin: (Key, Fault)): nat {
    if (c.mode.Give? || c.mode.Done?) && OriginOf(c.mode.r) == Some(origin) then 1 else 0
  }

  function FailingIn(callers: seq<Caller>, origin: (Key, Fault)): nat {
    if callers == [] then 0
    else FailingIn(callers[..|callers| - 1], origin) + Failing(callers[|callers| - 1], origin)
  }

  function FaultsIn(calls: seq<Call>, origin: (Key, Fault)): nat {
    multiset(Faults(calls))[origin]
  }

  /** The service a caller asked for. */
  function Asked(c: Caller): Option<Key> {
    if c.frames != [] then Some(c.frames[0].key) else ModeKey(c)
  }

  function ModeKey(c: Caller): Option<Key> {
    if c.mode.Gather? || c.mode.Made? then None else Some(c.mode.key)
  }

  lemma {:induction false} FailingUpdate(callers: seq<Caller>, t: nat, c: Caller, origin: (Key, Fault))
    requires t < |callers|
    ensures FailingIn(callers[t := c], origin) + Failing(callers[t], origin) == FailingIn(callers, origin) + Failing(c, origin)
  {
    hide Failing;
    var n := |callers| - 1;
    if t < n {
      assert callers[t := c][..n] == callers[..n][t := c];
      FailingUpdate(callers[..n], t, c, origin);
    } else {
      assert callers[t := c][..n] == callers[..n];
    }
  }

  lemma ModeLater(g: Graph, calls: seq<Call>, calls': seq<Call>, c: Caller)
    requires ModeTold(g, calls, c) && calls <= calls'
    ensures ModeTold(g, calls', c)
  {
    hide Supplied;
    match c.mode
    case Made(value) => SuppliedLater(g, calls, calls', Top(c).key, value);
    case Give(key, r) => if r.Ok? { SuppliedLater(g, calls, calls', key, r.value); }
    case Done(key, r) => if r.Ok? { SuppliedLater(g, calls, calls', key, r.value); }
    case _ =>
  }

  lemma CallerLater(g: Graph, calls: seq<Call>, calls': seq<Call>, c: Caller)
    requires CallerTold(g, calls, c) && calls <= calls'
    ensures CallerTold(g, calls', c)
  {
    hide SuppliedEach, ModeTold;
    ModeLater(g, calls, calls', c);
    forall i | 0 <= i < |c.frames| ensures FrameTold(g, calls', c.frames[i]) {
      var f := c.frames[i];
      SuppliedEachLater(g, calls, calls', g[f.key].Inputs()[..|f.args|], f.args);
    }
  }

  /** What a step of one caller does to the history and to itself. */
  ghost predicate Tells(g: Graph, run: Behaviour, c: Caller, sh: Shared, c': Caller, sh': Shared) {
    SharedTold(g, run, sh') && CallerTold(g, sh'.calls, c') && sh.calls <= sh'.calls && Asked(c') == Asked(c)
  }

  lemma Pushed(g: Graph, calls: seq<Call>, c: Caller, key: Key)
    requires CallerTold(g, calls, c) && key in g && (c.mode == Want(key) || c.mode == Hold(key))
    ensures var c' := Caller(c.frames + [Frame(key, [])], Gather); CallerTold(g, calls, c') && Asked(c') == Asked(c)
  {
    hide Supplied;
    assert FrameTold(g, calls, Frame(key, []));
  }

  lemma WantTells(g: Graph, run: Behaviour, t: Thread, c: Caller, sh: Shared)
    requires Sound(g, t, c, sh) && CanMove(g, c, sh) && c.mode.Want? && CallerTold(g, sh.calls, c) && SharedTold(g, run, sh)
    ensures var (c', sh') := WantNext(g, t, c, sh); Tells(g, run, c, sh, c', sh')
  {
    hide SharedTold, CallerTold, Owns, Asked;
    var key := c.mode.key;
    if key in g {
      Pushed(g, sh.calls, c, key);
    }
    if WantNext(g, t, c, sh).0.frames == c.frames {
      SameFrames(g, sh.calls, c, WantNext(g, t, c, sh).0);
    }
    SameStore(g, run, sh, WantNext(g, t, c, sh).1);
  }

  lemma SameFrames(g: Graph, calls: seq<Call>, c: Caller, c': Caller)
    requires CallerTold(g, calls, c) && c'.frames == c.frames && ModeTold(g, calls, c')
    ensures CallerTold(g, calls, c')
    ensures ModeKey(c).Some? && ModeKey(c') == ModeKey(c) ==> Asked(c') == Asked(c)
  {
    hide FrameTold, ModeTold;
  }

  lemma SameStore(g: Graph, run: Behaviour, sh: Shared, sh': Shared)
    requires SharedTold(g, run, sh) && sh'.instances == sh.instances && sh'.calls == sh.calls
    ensures SharedTold(g, run, sh')
  {
  }

  lemma HoldTells(g: Graph, run: Behaviour, t: Thread, c: Caller, sh: Shared)
    requires Sound(g, t, c, sh) && CanMove(g, c, sh) && c.mode.Hold? && CallerTold(g, sh.calls, c) && SharedTold(g, run, sh)
    ensures var (c', sh') := HoldNext(g, c, sh); Tells(g, run, c, sh, c', sh')
  {
    hide SharedTold, CallerTold, Owns, Supplied, Asked;
    var key := c.mode.key;
    Pushed(g, sh.calls, c, key);
    if IsReady(g, sh.instances, key) {
      InstanceIsSupplied(g, run, sh, key);
      SameFrames(g, sh.calls, c, HoldNext(g, c, sh).0);
    }
    SameStore(g, run, sh, HoldNext(g, c, sh).1);
  }

  lemma InstanceIsSupplied(g: Graph, run: Behaviour, sh: Shared, key: Key)
    requires SharedTold(g, run, sh) && IsReady(g, sh.instances, key)
    ensures Supplied(g, sh.calls, key, ConcurrentResolution.Instance(g, sh.instances, key))
  {
    if g[key].Instance? {
      GivenIsSupplied(g, sh.calls, key);
    }
  }

  lemma TopTold(g: Graph, calls: seq<Call>, c: Caller)
    requires CallerTold(g, calls, c) && c.frames != []
    ensures FrameTold(g, calls, Top(c)) && Top(c).key in g
  {
  }

  lemma PoppedTold(g: Graph, calls: seq<Call>, c: Caller, r: Resolved)
    requires CallerTold(g, calls, c) && c.frames != [] && (r.Ok? ==> Supplied(g, calls, Top(c).key, r.value))
    ensures var c' := Caller(Popped(c), Give(Top(c).key, r)); CallerTold(g, calls, c') && Asked(c') == Asked(c)
  {
    hide FrameTold, Supplied;
    assert forall i :: 0 <= i < |c.frames| - 1 ==> Popped(c)[i] == c.frames[i];
  }

  /** A constructor is called on all its arguments. */
  lemma CalledTells(g: Graph, run: Behaviour, c: Caller, sh: Shared)
    requires CallerTold(g, sh.calls, c) && SharedTold(g, run, sh) && c.mode.Gather? && c.frames != []
    requires Top(c).key in g && g[Top(c).key].Provided? && |Top(c).args| >= |g[Top(c).key].inputs|
    ensures var (c', sh') := GatherNext(g, run, c, sh); Tells(g, run, c, sh, c', sh')
  {
    hide CallerTold, SuppliedEach, Supplied, Construct, Authentic, FrameTold, Backed, Asked;
    var top := Top(c);
    TopTold(g, sh.calls, c);
    TopIsFed(g, sh.calls, top);
    ConstructTells(g, run, Store(sh.instances, sh.calls), top.key, top.args);
    var (outcome, s') := Construct(run, Store(sh.instances, sh.calls), top.key, g[top.key].fallible, top.args);
    CallerLater(g, sh.calls, s'.calls, c);
    match outcome
    case Faulted(fault) => PoppedTold(g, s'.calls, c, Err(Building(top.key, Raised(fault))));
    case Built(value) => MadeTold(g, s'.calls, c, value);
  }

  lemma ConstructTells(g: Graph, run: Behaviour, s: Store, key: Key, args: seq<Value>)
    requires Told(g, run, s) && key in g && g[key].Provided? && SuppliedEach(g, s.calls, g[key].inputs, args)
    ensures var (outcome, s') := Construct(run, s, key, g[key].fallible, args);
            && Told(g, run, s') && s.calls <= s'.calls && s'.instances == s.instances
            && (outcome.Built? ==> Supplied(g, s'.calls, key, outcome.value))
  {
    hide SuppliedEach, Supplied, Construct;
    AuthenticIsAnswered(g, run, s.calls);
    CallIsAnswered(g, run, s, key, args);
    CallIsAuthentic(g, run, s, key, args);
    BackedLater(g, s, Construct(run, s, key, g[key].fallible, args).1.calls);
  }

  lemma MadeTold(g: Graph, calls: seq<Call>, c: Caller, value: Value)
    requires CallerTold(g, calls, c) && c.frames != [] && Supplied(g, calls, Top(c).key, value)
    ensures var c' := c.(mode := Made(value)); CallerTold(g, calls, c') && Asked(c') == Asked(c)
  {
    hide FrameTold, Supplied;
  }

  lemma TopIsFed(g: Graph, calls: seq<Call>, f: Frame)
    requires FrameTold(g, calls, f) && g[f.key].Provided? && |f.args| >= |g[f.key].inputs|
    ensures SuppliedEach(g, calls, g[f.key].inputs, f.args)
  {
    assert g[f.key].Inputs()[..|f.args|] == g[f.key].inputs;
  }

  lemma WantedTells(g: Graph, calls: seq<Call>, c: Caller, c': Caller)
    requires CallerTold(g, calls, c) && c.frames != [] && c'.frames == c.frames && c'.mode.Want?
    ensures CallerTold(g, calls, c') && Asked(c') == Asked(c)
  {
    hide FrameTold;
  }

  lemma GatherTells(g: Graph, run: Behaviour, t: Thread, c: Caller, sh: Shared)
    requires Sound(g, t, c, sh) && CanMove(g, c, sh) && c.mode.Gather? && CallerTold(g, sh.calls, c) && SharedTold(g, run, sh)
    ensures var (c', sh') := GatherNext(g, run, c, sh); Tells(g, run, c, sh, c', sh')
  {
    hide SharedTold, CallerTold, Sound, Construct;
    if |Top(c).args| >= |g[Top(c).key].inputs| {
      CalledTells(g, run, c, sh);
    } else {
      WantedTells(g, sh.calls, c, GatherNext(g, run, c, sh).0);
    }
  }

  lemma MadeTells(g: Graph, run: Behaviour, t: Thread, c: Caller, sh: Shared)
    requires Sound(g, t, c, sh) && CanMove(g, c, sh) && c.mode.Made? && CallerTold(g, sh.calls, c) && SharedTold(g, run, sh)
    ensures var (c', sh') := MadeNext(g, c, sh); Tells(g, run, c, sh, c', sh')
  {
    hide CallerTold, Sound, Supplied, Authentic, Asked, Backed, SharedTold;
    var key, value := Top(c).key, c.mode.value;
    MadeIsSupplied(g, sh.calls, c);
    PoppedTold(g, sh.calls, c, Ok(value));
    PublishTells(g, run, sh, MadeNext(g, c, sh).1, key, value);
  }

  lemma MadeIsSupplied(g: Graph, calls: seq<Call>, c: Caller)
    requires CallerTold(g, calls, c) && c.mode.Made?
    ensures c.frames != [] && Supplied(g, calls, Top(c).key, c.mode.value)
  {
  }

  lemma PublishTells(g: Graph, run: Behaviour, sh: Shared, sh': Shared, key: Key, value: Value)
    requires SharedTold(g, run, sh) && key in g && Supplied(g, sh.calls, key, value) && sh'.calls == sh.calls
    requires sh'.instances == if g[key].IsBuilt() then sh.instances[key := value] else sh.instances
    ensures SharedTold(g, run, sh')
  {
    hide Supplied, Authentic;
  }

  lemma GiveTells(g: Graph, run: Behaviour, t: Thread, c: Caller, sh: Shared)
    requires Sound(g, t, c, sh) && CanMove(g, c, sh) && c.mode.Give? && CallerTold(g, sh.calls, c) && SharedTold(g, run, sh)
    ensures var (c', sh') := GiveNext(g, c, sh); Tells(g, run, c, sh, c', sh')
  {
    hide CallerTold, Supplied, Owns, SharedTold, Asked, FrameTold;
    SameStore(g, run, sh, GiveNext(g, c, sh).1);
    if c.frames != [] {
      match c.mode.r
      case Ok(value) => GivenTold(g, sh.calls, c, value);
      case Err(cause) => PoppedTold(g, sh.calls, c, Err(Building(Top(c).key, cause)));
    } else {
      if c.mode.r.Ok? {
        GivenIsKnown(g, sh.calls, c);
      }
      SameFrames(g, sh.calls, c, GiveNext(g, c, sh).0);
    }
  }

  lemma GivenTold(g: Graph, calls: seq<Call>, c: Caller, value: Value)
    requires CallerTold(g, calls, c) && c.frames != [] && c.mode.Give? && c.mode.r == Ok(value)
    requires Awaits(g, Top(c), c.mode.key)
    ensures var c' := Caller(Popped(c) + [Frame(Top(c).key, Top(c).args + [value])], Gather);
            CallerTold(g, calls, c') && Asked(c') == Asked(c)
  {
    hide Supplied;
    var top := Top(c);
    var inputs, args := g[top.key].Inputs(), top.args + [value];
    TopTold(g, calls, c);
    assert inputs[..|args|] == inputs[..|top.args|] + [c.mode.key];
    assert FrameTold(g, calls, Frame(top.key, args));
    hide FrameTold;
    assert forall i :: 0 <= i < |c.frames| - 1 ==> Popped(c)[i] == c.frames[i];
  }

  lemma GivenIsKnown(g: Graph, calls: seq<Call>, c: Caller)
    requires CallerTold(g, calls, c) && c.mode.Give? && c.mode.r.Ok?
    ensures Supplied(g, calls, c.mode.key, c.mode.r.value)
  {
  }

  lemma CallerTells(g: Graph, run: Behaviour, t: Thread, c: Caller, sh: Shared)
    requires Sound(g, t, c, sh) && CanMove(g, c, sh) && CallerTold(g, sh.calls, c) && SharedTold(g, run, sh)
    ensures var (c', sh') := CallerNext(g, run, t, c, sh); Tells(g, run, c, sh, c', sh')
  {
    hide Sound, CallerTold, SharedTold, Tells, WantNext, HoldNext, GatherNext, MadeNext, GiveNext;
    match c.mode
    case Want(_) => WantTells(g, run, t, c, sh);
    case Hold(_) => HoldTells(g, run, t, c, sh);
    case Gather => GatherTells(g, run, t, c, sh);
    case Made(_) => MadeTells(g, run, t, c, sh);
    case Give(_, _) => GiveTells(g, run, t, c, sh);
  }

  /** A failed call is returned by the caller that made it. */
  lemma CallerBalances(g: Graph, run: Behaviour, t: Thread, c: Caller, sh: Shared, origin: (Key, Fault))
    requires Acyclic(g) && Sound(g, t, c, sh) && CanMove(g, c, sh)
    ensures var (c', sh') := CallerNext(g, run, t, c, sh);
            FaultsIn(sh'.calls, origin) + Failing(c, origin) == FaultsIn(sh.calls, origin) + Failing(c', origin)
  {
    hide FaultsIn, Stacked, FrameFits, Owns, GatherNext;
    match c.mode
    case Want(key) => AwaitedIsNew(g, c, key);
    case Gather => GatherBalances(g, run, c, sh, origin);
    case _ =>
  }

  lemma GatherBalances(g: Graph, run: Behaviour, c: Caller, sh: Shared, origin: (Key, Fault))
    requires CanMove(g, c, sh) && c.mode.Gather?
    ensures var (c', sh') := GatherNext(g, run, c, sh);
            FaultsIn(sh'.calls, origin) == FaultsIn(sh.calls, origin) + Failing(c', origin)
  {
    hide FaultsIn;
    var top := Top(c);
    if |top.args| >= |g[top.key].inputs| {
      var outcome := Construct(run, Store(sh.instances, sh.calls), top.key, g[top.key].fallible, top.args).0;
      CallBalances(sh.calls, Call(top.key, top.args, outcome), origin);
    }
  }

  lemma CallBalances(calls: seq<Call>, call: Call, origin: (Key, Fault))
    ensures FaultsIn(calls + [call], origin) ==
            FaultsIn(calls, origin) + if call.outcome.Faulted? && (call.key, call.outcome.fault) == origin then 1 else 0
  {
    hide Faults;
    FaultsAppend(calls, call);
  }

  ghost predicate Balanced(s: System) {
    forall origin :: FaultsIn(s.shared.calls, origin) == FailingIn(s.callers, origin)
  }

  ghost predicate SystemTold(g: Graph, run: Behaviour, s: System) {
    && SharedTold(g, run, s.shared) && Balanced(s)
    && forall t :: 0 <= t < |s.callers| ==> CallerTold(g, s.shared.calls, s.callers[t])
  }

  lemma MoveBalances(g: Graph, run: Behaviour, s: System, t: Thread, s': System)
    requires Acyclic(g) && AllSound(g, s) && Moves(g, run, s, t, s') && Balanced(s)
    ensures Balanced(s')
  {
    hide Sound, CallerNext, CanMove, FailingIn, Failing, FaultsIn;
    assert Sound(g, t, s.callers[t], s.shared);
    forall origin ensures FaultsIn(s'.shared.calls, origin) == FailingIn(s'.callers, origin) {
      CallerBalances(g, run, t, s.callers[t], s.shared, origin);
      FailingUpdate(s.callers, t, s'.callers[t], origin);
    }
  }

  lemma MoveTells(g: Graph, run: Behaviour, s: System, t: Thread, s': System)
    requires Acyclic(g) && AllSound(g, s) && Moves(g, run, s, t, s') && SystemTold(g, run, s)
    ensures SystemTold(g, run, s') && forall u :: 0 <= u < |s.callers| ==> Asked(s'.callers[u]) == Asked(s.callers[u])
  {
    hide Sound, CallerTold, SharedTold, CallerNext, CanMove, Balanced, Asked;
    var c := s.callers[t];
    assert Sound(g, t, c, s.shared);
    CallerTells(g, run, t, c, s.shared);
    MoveBalances(g, run, s, t, s');
    forall u | 0 <= u < |s'.callers| ensures CallerTold(g, s'.shared.calls, s'.callers[u]) {
      if u != t {
        CallerLater(g, s.shared.calls, s'.shared.calls, s.callers[u]);
      }
    }
  }

  lemma {:induction false} NoneFailing(callers: seq<Caller>, origin: (Key, Fault))
    requires forall t :: 0 <= t < |callers| ==> callers[t].mode.Want?
    ensures FailingIn(callers, origin) == 0
  {
    if callers != [] {
      NoneFailing(callers[..|callers| - 1], origin);
    }
  }

  lemma InitialTells(g: Graph, run: Behaviour, s: System)
    requires Initial(g, s)
    ensures SystemTold(g, run, s)
  {
    forall origin ensures FaultsIn([], origin) == FailingIn(s.callers, origin) {
      NoneFailing(s.callers, origin);
    }
  }

  lemma {:induction false} RunTells(g: Graph, run: Behaviour, systems: seq<System>, turns: seq<Thread>, i: nat)
    requires Closed(g) && Acyclic(g) && IsRun(g, run, systems, turns) && i < |systems|
    ensures SystemTold(g, run, systems[i]) && |systems[i].callers| == |systems[0].callers|
    ensures forall u :: 0 <= u < |systems[0].callers| ==> Asked(systems[i].callers[u]) == Asked(systems[0].callers[u])
  {
    hide SystemTold, Asked, CanMove, CallerNext, AllSound, Initial, Once;
    if i == 0 {
      InitialTells(g, run, systems[0]);
    } else {
      RunTells(g, run, systems, turns, i - 1);
      RunKeeps(g, run, systems, turns, i - 1);
      assert Moves(g, run, systems[i - 1], turns[i - 1], systems[i]);
      MoveTells(g, run, systems[i - 1], turns[i - 1], systems[i]);
    }
  }

  /** In every interleaving, the history is what the constructors returned on values of
      their inputs; a caller is answered for what it asked for, with a value of that
      service; and once all have been answered, the errors they got are those of the
      failed calls, each returned to one caller. */
  lemma ConcurrentResolutionsTell(g: Graph, run: Behaviour, systems: seq<System>, turns: seq<Thread>, i: nat)
    requires Closed(g) && Acyclic(g) && IsRun(g, run, systems, turns) && i < |systems|
    ensures var s := systems[i];
            && Authentic(g, run, s.shared.calls)
            && (forall origin :: FaultsIn(s.shared.calls, origin) == FailingIn(s.callers, origin))
            && |s.callers| == |systems[0].callers|
            && forall t :: 0 <= t < |s.callers| && s.callers[t].mode.Done? ==>
                 && s.callers[t].mode.key == systems[0].callers[t].mode.key
                 && match s.callers[t].mode.r
                    case Ok(value) => Supplied(g, s.shared.calls, s.callers[t].mode.key, value)
                    case Err(error) => Origin(error).Some?
  {
    RunTells(g, run, systems, turns, i);
    RunKeeps(g, run, systems, turns, i);
    hide Authentic, Supplied, FaultsIn, FailingIn, Once;
    var s := systems[i];
    forall t | 0 <= t < |s.callers| && s.callers[t].mode.Done?
      ensures s.callers[t].mode.key == systems[0].callers[t].mode.key
      ensures match s.callers[t].mode.r
              case Ok(value) => Supplied(g, s.shared.calls, s.callers[t].mode.key, value)
              case Err(error) => Origin(error).Some?
    {
      assert CallerTold(g, s.shared.calls, s.callers[t]);
      assert Sound(g, t, s.callers[t], s.shared);
      assert Asked(s.callers[t]) == Asked(systems[0].callers[t]);
    }
  }
}
