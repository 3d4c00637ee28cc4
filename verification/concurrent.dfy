/**
  Any number of concurrent resolutions of one container (container.go), one atomic
  step at a time. A singleton is checked, built and published under its own lock,
  which is held while its inputs are resolved.
  */
module ConcurrentResolution {
  import opened Wrappers
  import opened Sequences
  import opened Container
  import opened Resolution

  type Thread = nat

  /** A registration being built: the arguments resolved so far. The lock of a
      singleton is held as long as its frame. */
  datatype Frame = Frame(key: Key, args: seq<Value>)

  /** Want: about to resolve a key. Hold: its lock is taken, readiness not checked.
      Gather: the innermost frame resolves its next input, or calls its constructor.
      Made: the constructor returned a value. Give: a resolution returns. */
  datatype Mode =
    | Want(key: Key) | Hold(key: Key) | Gather | Made(value: Value)
    | Give(key: Key, r: Resolved) | Done(key: Key, r: Resolved)

  datatype Caller = Caller(frames: seq<Frame>, mode: Mode)

  /** `made` records the value of each singleton's successful constructor call. */
  datatype Shared = Shared(locks: map<Key, Thread>, instances: map<Key, Value>, made: map<Key, Value>, calls: seq<Call>)

  datatype System = System(callers: seq<Caller>, shared: Shared)

  function KeysOf(frames: seq<Frame>): (keys: seq<Key>)
    ensures |keys| == |frames|
  {
    seq(|frames|, i requires 0 <= i < |frames| => frames[i].key)
  }

  predicate IsReady(g: Graph, instances: map<Key, Value>, key: Key) {
    Ready(g, Store(instances, []), key)
  }

  function Instance(g: Graph, instances: map<Key, Value>, key: Key): Value
    requires IsReady(g, instances, key)
  {
    InstanceOf(g, Store(instances, []), key)
  }

  /** A thread can always move, except that it waits for a lock. */
  predicate Enabled(g: Graph, c: Caller, sh: Shared) {
    match c.mode
    case Done(_, _) => false
    case Want(key) => key in KeysOf(c.frames) || key !in g || g[key].IsTransient() || key !in sh.locks
    case _ => true
  }

  function Unlocked(g: Graph, sh: Shared, key: Key): Shared {
    if key in g && g[key].IsBuilt() then sh.(locks := sh.locks - {key}) else sh
  }

  // ----- the steps of one thread

  function WantNext(g: Graph, t: Thread, c: Caller, sh: Shared): (Caller, Shared)
    requires c.mode.Want?
  {
    var key := c.mode.key;
    if key in KeysOf(c.frames) then
      (c.(mode := Give(key, Err(Circular(CycleOf(KeysOf(c.frames), key))))), sh)
    else if key !in g then
      (c.(mode := Give(key, Err(Unregistered(key)))), sh)
    else if g[key].IsTransient() then
      (Caller(c.frames + [Frame(key, [])], Gather), sh)
    else
      (c.(mode := Hold(key)), sh.(locks := sh.locks[key := t]))
  }

  function HoldNext(g: Graph, c: Caller, sh: Shared): (Caller, Shared)
    requires c.mode.Hold?
  {
    var key := c.mode.key;
    if IsReady(g, sh.instances, key) then
      (c.(mode := Give(key, Ok(Instance(g, sh.instances, key)))), sh.(locks := sh.locks - {key}))
    else
      (Caller(c.frames + [Frame(key, [])], Gather), sh)
  }

  function Top(c: Caller): Frame
    requires c.frames != []
  {
    c.frames[|c.frames| - 1]
  }

  function Popped(c: Caller): seq<Frame>
    requires c.frames != []
  {
    c.frames[..|c.frames| - 1]
  }

  function GatherNext(g: Graph, run: Behaviour, c: Caller, sh: Shared): (Caller, Shared)
    requires c.mode.Gather? && c.frames != [] && Top(c).key in g && g[Top(c).key].Provided?
  {
    var top := Top(c);
    var key := top.key;
    if |top.args| < |g[key].inputs| then (c.(mode := Want(g[key].inputs[|top.args|])), sh)
    else
      var (outcome, s) := Construct(run, Store(sh.instances, sh.calls), key, g[key].fallible, top.args);
      match outcome
      case Faulted(fault) =>
        (Caller(Popped(c), Give(key, Err(Building(key, Raised(fault))))), Unlocked(g, sh.(calls := s.calls), key))
      case Built(value) =>
        (c.(mode := Made(value)),
         sh.(calls := s.calls, made := if g[key].IsBuilt() then sh.made[key := value] else sh.made))
  }

  function MadeNext(g: Graph, c: Caller, sh: Shared): (Caller, Shared)
    requires c.mode.Made? && c.frames != [] && Top(c).key in g
  {
    var key := Top(c).key;
    (Caller(Popped(c), Give(key, Ok(c.mode.value))),
     Unlocked(g, if g[key].IsBuilt() then sh.(instances := sh.instances[key := c.mode.value]) else sh, key))
  }

  function GiveNext(g: Graph, c: Caller, sh: Shared): (Caller, Shared)
    requires c.mode.Give?
  {
    if c.frames == [] then (c.(mode := Done(c.mode.key, c.mode.r)), sh)
    else
      var top := Top(c);
      match c.mode.r
      case Ok(value) => (Caller(Popped(c) + [Frame(top.key, top.args + [value])], Gather), sh)
      case Err(cause) => (Caller(Popped(c), Give(top.key, Err(Building(top.key, cause)))), Unlocked(g, sh, top.key))
  }

  // ----- what holds of one thread

  /** Each frame waits for its next input, which is the frame above it; the innermost
      waits for what the thread is resolving. */
  ghost predicate Stacked(g: Graph, frames: seq<Frame>) {
    && (forall i :: 0 <= i < |frames| ==>
          frames[i].key in g && g[frames[i].key].Provided? && |frames[i].args| <= |g[frames[i].key].inputs|)
    && (forall i, j :: 0 <= i < j < |frames| && j == i + 1 ==> Awaits(g, frames[i], frames[j].key))
  }

  predicate Awaits(g: Graph, f: Frame, key: Key) {
    f.key in g && g[f.key].Provided? && |f.args| < |g[f.key].inputs| && g[f.key].inputs[|f.args|] == key
  }

  predicate ModeFits(g: Graph, instances: map<Key, Value>, c: Caller) {
    match c.mode
    case Want(key) => key in g && (c.frames != [] ==> Awaits(g, Top(c), key))
    case Hold(key) => key in g && !g[key].IsTransient() && (c.frames != [] ==> Awaits(g, Top(c), key))
    case Gather => c.frames != []
    case Made(_) => c.frames != []
    case Give(key, r) => ResultFits(g, instances, key, r) && (c.frames != [] ==> Awaits(g, Top(c), key))
    case Done(key, r) => ResultFits(g, instances, key, r) && c.frames == []
  }

  /** A value for a singleton is its instance; an error is some constructor's own. */
  predicate ResultFits(g: Graph, instances: map<Key, Value>, key: Key, r: Resolved) {
    match r
    case Ok(value) => ValueFits(g, instances, key, value)
    case Err(error) => Origin(error).Some?
  }

  predicate ValueFits(g: Graph, instances: map<Key, Value>, key: Key, value: Value) {
    key in g && (g[key].IsTransient() || (IsReady(g, instances, key) && Instance(g, instances, key) == value))
  }

  /** The arguments a frame has are values of its inputs, and a singleton that is
      being built has no instance yet. */
  predicate FrameFits(g: Graph, instances: map<Key, Value>, f: Frame) {
    && f.key in g && |f.args| <= |g[f.key].Inputs()|
    && (forall j :: 0 <= j < |f.args| ==> ValueFits(g, instances, g[f.key].Inputs()[j], f.args[j]))
    && (g[f.key].IsBuilt() ==> f.key !in instances)
  }

  ghost predicate Fits(g: Graph, instances: map<Key, Value>, c: Caller) {
    && Stacked(g, c.frames) && ModeFits(g, instances, c)
    && (forall i :: 0 <= i < |c.frames| ==> FrameFits(g, instances, c.frames[i]))
  }

  /** The locks a thread holds. */
  predicate Holds(g: Graph, c: Caller, key: Key) {
    key in g && ((g[key].IsBuilt() && key in KeysOf(c.frames)) || c.mode == Hold(key))
  }

  /** The lock table says exactly what this thread holds. */
  ghost predicate Owns(g: Graph, t: Thread, c: Caller, locks: map<Key, Thread>) {
    forall key :: Holds(g, c, key) <==> key in locks && locks[key] == t
  }

  // ----- paths

  lemma PathIsSimple(g: Graph, p: seq<Key>)
    requires Acyclic(g) && IsPath(g, p)
    ensures NoDuplicates(p)
  {
    forall i, j | 0 <= i < j < |p| ensures p[i] != p[j] {
      if p[i] == p[j] {
        assert IsCycle(g, p[i..j + 1]);
      }
    }
  }

  lemma FramesArePath(g: Graph, frames: seq<Frame>)
    requires Stacked(g, frames)
    ensures IsPath(g, KeysOf(frames))
  {
    var p := KeysOf(frames);
    forall i, j | 0 <= i < j < |p| && j == i + 1 ensures Edge(g, p[i], p[j]) {
      assert Awaits(g, frames[i], frames[j].key);
    }
  }

  lemma AwaitedIsNew(g: Graph, c: Caller, key: Key)
    requires Acyclic(g) && Stacked(g, c.frames) && (c.frames != [] ==> Awaits(g, Top(c), key))
    ensures IsPath(g, KeysOf(c.frames) + [key]) && key !in KeysOf(c.frames)
  {
    var p := KeysOf(c.frames);
    FramesArePath(g, c.frames);
    if p != [] {
      ExtendPath(g, p, key);
    }
    PathIsSimple(g, p + [key]);
    forall i | 0 <= i < |p| ensures p[i] != key {
      assert (p + [key])[i] != (p + [key])[|p|];
    }
  }

  // ----- every step keeps what holds of its thread

  /** What a step of thread t leaves to the others: their locks, and every instance;
      a new instance is of a key the thread holds. */
  ghost predicate Leaves(g: Graph, t: Thread, c: Caller, sh: Shared, sh': Shared) {
    && (forall k :: k in sh.locks && sh.locks[k] != t ==> k in sh'.locks && sh'.locks[k] == sh.locks[k])
    && (forall k :: k in sh'.locks && sh'.locks[k] != t ==> k in sh.locks && sh.locks[k] == sh'.locks[k])
    && (forall k :: k in sh.instances ==> k in sh'.instances && sh'.instances[k] == sh.instances[k])
    && (forall k :: k in sh'.instances && k !in sh.instances ==> k in sh.locks && sh.locks[k] == t)
  }

  ghost predicate Sound(g: Graph, t: Thread, c: Caller, sh: Shared) {
    Fits(g, sh.instances, c) && Owns(g, t, c, sh.locks)
  }

  lemma KeysAppend(frames: seq<Frame>, f: Frame)
    ensures KeysOf(frames + [f]) == KeysOf(frames) + [f.key]
  {
  }

  lemma PushStacks(g: Graph, frames: seq<Frame>, key: Key)
    requires Stacked(g, frames) && key in g && g[key].Provided?
    requires frames != [] ==> Awaits(g, frames[|frames| - 1], key)
    ensures Stacked(g, frames + [Frame(key, [])])
  {
  }

  lemma WantKeeps(g: Graph, t: Thread, c: Caller, sh: Shared)
    requires Acyclic(g) && Sound(g, t, c, sh) && c.mode.Want? && Enabled(g, c, sh)
    ensures var (c', sh') := WantNext(g, t, c, sh); Sound(g, t, c', sh') && Leaves(g, t, c, sh, sh')
  {
    hide Stacked, IsReady, FrameFits;
    var key := c.mode.key;
    AwaitedIsNew(g, c, key);
    if g[key].IsTransient() {
      PushStacks(g, c.frames, key);
      KeysAppend(c.frames, Frame(key, []));
      EmptyFrameFits(g, sh.instances, key);
    }
  }

  lemma EmptyFrameFits(g: Graph, instances: map<Key, Value>, key: Key)
    requires key in g && g[key].Provided? && (g[key].IsBuilt() ==> key !in instances)
    ensures FrameFits(g, instances, Frame(key, []))
  {
  }

  lemma HoldKeeps(g: Graph, t: Thread, c: Caller, sh: Shared)
    requires Acyclic(g) && Sound(g, t, c, sh) && c.mode.Hold?
    ensures var (c', sh') := HoldNext(g, c, sh); Sound(g, t, c', sh') && Leaves(g, t, c, sh, sh')
  {
    hide Stacked, FrameFits;
    var key := c.mode.key;
    AwaitedIsNew(g, c, key);
    assert Holds(g, c, key);
    if !IsReady(g, sh.instances, key) {
      PushStacks(g, c.frames, key);
      KeysAppend(c.frames, Frame(key, []));
      EmptyFrameFits(g, sh.instances, key);
    }
  }

  /** What is left when the innermost frame is done. */
  lemma PopKeeps(g: Graph, t: Thread, c: Caller, instances: map<Key, Value>, locks: map<Key, Thread>)
    requires Acyclic(g) && Fits(g, instances, c) && Owns(g, t, c, locks) && c.frames != [] && !c.mode.Hold?
    ensures var key, rest := Top(c).key, Popped(c);
            && key in g && key !in KeysOf(rest) && Stacked(g, rest)
            && (rest != [] ==> Awaits(g, rest[|rest| - 1], key))
            && (forall k :: k in KeysOf(c.frames) <==> k in KeysOf(rest) || k == key)
            && (forall i :: 0 <= i < |rest| ==> FrameFits(g, instances, rest[i]) && rest[i].key != key)
  {
    hide FrameFits;
    var rest, top := Popped(c), Top(c);
    assert c.frames == rest + [top];
    KeysAppend(rest, top);
    FramesArePath(g, c.frames);
    PathIsSimple(g, KeysOf(c.frames));
    forall i | 0 <= i < |rest| ensures rest[i] == c.frames[i] && rest[i].key != top.key {
      assert KeysOf(c.frames)[i] != KeysOf(c.frames)[|rest|];
    }
  }

  lemma UnlockKeeps(g: Graph, t: Thread, c: Caller, c': Caller, sh: Shared)
    requires Owns(g, t, c, sh.locks) && c.frames != [] && Top(c).key in g
    requires !c.mode.Hold? && !c'.mode.Hold? && c'.frames == Popped(c) && Top(c).key !in KeysOf(Popped(c))
    requires forall k :: k in KeysOf(c.frames) <==> k in KeysOf(Popped(c)) || k == Top(c).key
    ensures Owns(g, t, c', Unlocked(g, sh, Top(c).key).locks)
    ensures g[Top(c).key].IsBuilt() ==> Top(c).key in sh.locks && sh.locks[Top(c).key] == t
  {
    var key := Top(c).key;
    assert Holds(g, c, key) <==> g[key].IsBuilt();
  }

  lemma FaultKeeps(g: Graph, t: Thread, c: Caller, sh: Shared, error: ResolveError)
    requires Acyclic(g) && Sound(g, t, c, sh) && c.frames != [] && !c.mode.Hold? && Origin(error).Some?
    ensures var key := Top(c).key;
            && key in g
            && Sound(g, t, Caller(Popped(c), Give(key, Err(error))), Unlocked(g, sh, key))
            && Leaves(g, t, c, sh, Unlocked(g, sh, key))
  {
    hide Stacked, FrameFits, Owns;
    PopKeeps(g, t, c, sh.instances, sh.locks);
    var key := Top(c).key;
    UnlockKeeps(g, t, c, Caller(Popped(c), Give(key, Err(error))), sh);
  }

  lemma GatherKeeps(g: Graph, run: Behaviour, t: Thread, c: Caller, sh: Shared)
    requires Closed(g) && Acyclic(g) && Sound(g, t, c, sh) && c.mode.Gather?
    ensures Top(c).key in g && g[Top(c).key].Provided?
    ensures var (c', sh') := GatherNext(g, run, c, sh); Sound(g, t, c', sh') && Leaves(g, t, c, sh, sh')
  {
    hide FrameFits;
    var top := Top(c);
    if |top.args| < |g[top.key].inputs| {
      assert Edge(g, top.key, g[top.key].inputs[|top.args|]);
    } else {
      var outcome := Construct(run, Store(sh.instances, sh.calls), top.key, g[top.key].fallible, top.args).0;
      if outcome.Faulted? {
        FaultKeeps(g, t, c, sh, Building(top.key, Raised(outcome.fault)));
      }
    }
  }

  lemma MadeKeeps(g: Graph, t: Thread, c: Caller, sh: Shared)
    requires Acyclic(g) && Sound(g, t, c, sh) && c.mode.Made?
    ensures Top(c).key in g
    ensures var (c', sh') := MadeNext(g, c, sh); Sound(g, t, c', sh') && Leaves(g, t, c, sh, sh')
  {
    hide Stacked, FrameFits, Owns;
    PopKeeps(g, t, c, sh.instances, sh.locks);
    var key, value := Top(c).key, c.mode.value;
    var sh1 := if g[key].IsBuilt() then sh.(instances := sh.instances[key := value]) else sh;
    var c' := Caller(Popped(c), Give(key, Ok(value)));
    UnlockKeeps(g, t, c, c', sh1);
    TopIsFresh(g, c, sh.instances);
    forall i | 0 <= i < |Popped(c)| ensures FrameFits(g, sh1.instances, Popped(c)[i]) {
      if g[key].IsBuilt() {
        PublishedFits(g, sh.instances, key, value, Popped(c)[i]);
      }
    }
  }

  lemma TopIsFresh(g: Graph, c: Caller, instances: map<Key, Value>)
    requires Fits(g, instances, c) && c.frames != []
    ensures Top(c).key in g && g[Top(c).key].Provided? && (g[Top(c).key].IsBuilt() ==> Top(c).key !in instances)
  {
    assert FrameFits(g, instances, c.frames[|c.frames| - 1]);
  }

  /** Publishing an instance keeps what other frames have. */
  lemma PublishedFits(g: Graph, instances: map<Key, Value>, key: Key, value: Value, f: Frame)
    requires FrameFits(g, instances, f) && key in g && g[key].IsBuilt() && key !in instances && f.key != key
    ensures FrameFits(g, instances[key := value], f)
  {
    forall j | 0 <= j < |f.args| ensures ValueFits(g, instances[key := value], g[f.key].Inputs()[j], f.args[j]) {
      assert ValueFits(g, instances, g[f.key].Inputs()[j], f.args[j]);
    }
  }

  lemma GiveKeeps(g: Graph, t: Thread, c: Caller, sh: Shared)
    requires Acyclic(g) && Sound(g, t, c, sh) && c.mode.Give?
    ensures var (c', sh') := GiveNext(g, c, sh); Sound(g, t, c', sh') && Leaves(g, t, c, sh, sh')
  {
    hide Stacked, FrameFits;
    if c.frames != [] {
      match c.mode.r
      case Ok(value) => GiveValueKeeps(g, t, c, sh);
      case Err(cause) =>
        GivenErrorHasOrigin(Top(c).key, cause);
        FaultKeeps(g, t, c, sh, Building(Top(c).key, cause));
    }
  }

  lemma GivenErrorHasOrigin(key: Key, cause: ResolveError)
    requires Origin(cause).Some?
    ensures Origin(Building(key, cause)).Some?
  {
  }

  lemma GiveValueKeeps(g: Graph, t: Thread, c: Caller, sh: Shared)
    requires Sound(g, t, c, sh) && c.mode.Give? && c.mode.r.Ok? && c.frames != []
    ensures Sound(g, t, GiveNext(g, c, sh).0, sh)
  {
    var top, value, rest := Top(c), c.mode.r.value, Popped(c);
    var grown := Frame(top.key, top.args + [value]);
    assert c.frames == rest + [top];
    KeysAppend(rest, top);
    KeysAppend(rest, grown);
    assert Awaits(g, top, c.mode.key);
    GrownFrameFits(g, sh.instances, top, c.mode.key, value);
    hide FrameFits, ValueFits;
    assert Stacked(g, rest + [grown]);
  }

  lemma GrownFrameFits(g: Graph, instances: map<Key, Value>, f: Frame, key: Key, value: Value)
    requires FrameFits(g, instances, f) && Awaits(g, f, key) && ValueFits(g, instances, key, value)
    ensures FrameFits(g, instances, Frame(f.key, f.args + [value]))
  {
    hide ValueFits;
  }

  // ----- the system

  ghost predicate CanMove(g: Graph, c: Caller, sh: Shared) {
    && Enabled(g, c, sh)
    && (c.mode.Gather? ==> c.frames != [] && Top(c).key in g && g[Top(c).key].Provided?)
    && (c.mode.Made? ==> c.frames != [] && Top(c).key in g)
  }

  ghost function CallerNext(g: Graph, run: Behaviour, t: Thread, c: Caller, sh: Shared): (Caller, Shared)
    requires CanMove(g, c, sh)
  {
    match c.mode
    case Want(_) => WantNext(g, t, c, sh)
    case Hold(_) => HoldNext(g, c, sh)
    case Gather => GatherNext(g, run, c, sh)
    case Made(_) => MadeNext(g, c, sh)
    case Give(_, _) => GiveNext(g, c, sh)
  }

  ghost predicate Moves(g: Graph, run: Behaviour, s: System, t: Thread, s': System) {
    && t < |s.callers| && CanMove(g, s.callers[t], s.shared)
    && s' == System(s.callers[t := CallerNext(g, run, t, s.callers[t], s.shared).0],
                    CallerNext(g, run, t, s.callers[t], s.shared).1)
  }

  /** Any number of resolutions of registered services, on a fresh container. */
  ghost predicate Initial(g: Graph, s: System) {
    && s.shared == Shared(map[], map[], map[], [])
    && (forall t :: 0 <= t < |s.callers| ==>
          s.callers[t].frames == [] && s.callers[t].mode.Want? && s.callers[t].mode.key in g)
  }

  ghost predicate IsRun(g: Graph, run: Behaviour, systems: seq<System>, turns: seq<Thread>) {
    && |systems| == |turns| + 1 && Initial(g, systems[0])
    && (forall i, j :: 0 <= i < |turns| && j == i + 1 ==> Moves(g, run, systems[i], turns[i], systems[j]))
  }

  ghost predicate AllSound(g: Graph, s: System) {
    && (forall t :: 0 <= t < |s.callers| ==> Sound(g, t, s.callers[t], s.shared))
    && (forall k :: k in s.shared.locks ==> s.shared.locks[k] < |s.callers|)
  }

  lemma SoundCanMove(g: Graph, t: Thread, c: Caller, sh: Shared)
    requires Sound(g, t, c, sh) && Enabled(g, c, sh)
    ensures CanMove(g, c, sh)
  {
    if c.frames != [] {
      TopIsFresh(g, c, sh.instances);
    }
  }

  lemma CallerKeeps(g: Graph, run: Behaviour, t: Thread, c: Caller, sh: Shared)
    requires Closed(g) && Acyclic(g) && Sound(g, t, c, sh) && CanMove(g, c, sh)
    ensures var (c', sh') := CallerNext(g, run, t, c, sh); Sound(g, t, c', sh') && Leaves(g, t, c, sh, sh')
  {
    hide Sound, Leaves, WantNext, HoldNext, GatherNext, MadeNext, GiveNext;
    match c.mode
    case Want(_) => WantKeeps(g, t, c, sh);
    case Hold(_) => HoldKeeps(g, t, c, sh);
    case Gather => GatherKeeps(g, run, t, c, sh);
    case Made(_) => MadeKeeps(g, t, c, sh);
    case Give(_, _) => GiveKeeps(g, t, c, sh);
  }

  lemma ValueStays(g: Graph, instances: map<Key, Value>, instances': map<Key, Value>, key: Key, value: Value)
    requires ValueFits(g, instances, key, value)
    requires forall k :: k in instances ==> k in instances' && instances'[k] == instances[k]
    ensures ValueFits(g, instances', key, value)
  {
  }

  lemma FrameStays(g: Graph, instances: map<Key, Value>, instances': map<Key, Value>, f: Frame)
    requires FrameFits(g, instances, f) && (g[f.key].IsBuilt() ==> f.key !in instances')
    requires forall k :: k in instances ==> k in instances' && instances'[k] == instances[k]
    ensures FrameFits(g, instances', f)
  {
    hide ValueFits;
    forall j | 0 <= j < |f.args| ensures ValueFits(g, instances', g[f.key].Inputs()[j], f.args[j]) {
      ValueStays(g, instances, instances', g[f.key].Inputs()[j], f.args[j]);
    }
  }

  lemma OtherKeeps(g: Graph, t: Thread, c: Caller, u: Thread, other: Caller, sh: Shared, sh': Shared)
    requires Leaves(g, t, c, sh, sh') && Sound(g, u, other, sh) && u != t
    ensures Sound(g, u, other, sh')
  {
    hide Stacked, FrameFits, ValueFits;
    forall i | 0 <= i < |other.frames| ensures FrameFits(g, sh'.instances, other.frames[i]) {
      var f := other.frames[i];
      HeldIsFresh(g, u, other, sh, i);
      FrameStays(g, sh.instances, sh'.instances, f);
    }
    if (other.mode.Give? || other.mode.Done?) && other.mode.r.Ok? {
      ValueStays(g, sh.instances, sh'.instances, other.mode.key, other.mode.r.value);
    }
  }

  lemma HeldIsFresh(g: Graph, u: Thread, c: Caller, sh: Shared, i: nat)
    requires Sound(g, u, c, sh) && i < |c.frames|
    ensures var key := c.frames[i].key;
            key in g && (g[key].IsBuilt() ==> key !in sh.instances && key in sh.locks && sh.locks[key] == u)
  {
    assert FrameFits(g, sh.instances, c.frames[i]);
    assert KeysOf(c.frames)[i] == c.frames[i].key;
    assert g[c.frames[i].key].IsBuilt() ==> Holds(g, c, c.frames[i].key);
  }

  lemma MoveKeepsSound(g: Graph, run: Behaviour, s: System, t: Thread, s': System)
    requires Closed(g) && Acyclic(g) && AllSound(g, s) && Moves(g, run, s, t, s')
    ensures AllSound(g, s')
  {
    hide Sound, CallerNext, CanMove;
    var c := s.callers[t];
    CallerKeeps(g, run, t, c, s.shared);
    forall u | 0 <= u < |s'.callers| ensures Sound(g, u, s'.callers[u], s'.shared) {
      if u != t {
        OtherKeeps(g, t, c, u, s.callers[u], s.shared, s'.shared);
      }
    }
  }

  // ----- one success per singleton

  /** Thread t has just made the value of this key and not published it. */
  predicate Making(s: System, key: Key) {
    && key in s.shared.locks && key in s.shared.made && s.shared.locks[key] < |s.callers|
    && var c := s.callers[s.shared.locks[key]];
       c.frames != [] && Top(c).key == key && c.mode == Made(s.shared.made[key])
  }

  ghost predicate Once(g: Graph, s: System) {
    && Counted(g, s.shared) && Published(g, s.shared)
    && Underway(s) && AllMadeFit(g, s)
  }

  /** A value that is made is published, or its maker is about to. */
  ghost predicate Underway(s: System) {
    forall k :: k in s.shared.made ==> k in s.shared.instances || Making(s, k)
  }

  ghost predicate AllMadeFit(g: Graph, s: System) {
    forall t :: 0 <= t < |s.callers| ==> MadeFits(g, s.callers[t], s.shared.made)
  }

  /** The successful calls of each singleton: the one recorded, or none. */
  ghost predicate Counted(g: Graph, sh: Shared) {
    forall k :: k in g && g[k].IsBuilt() ==>
      Successes(sh.calls, k) == if k in sh.made then [sh.made[k]] else []
  }

  ghost predicate Published(g: Graph, sh: Shared) {
    forall k :: k in sh.instances ==>
      k in g && g[k].IsBuilt() && k in sh.made && sh.made[k] == sh.instances[k]
  }

  predicate MadeFits(g: Graph, c: Caller, made: map<Key, Value>) {
    c.mode.Made? && c.frames != [] && Top(c).key in g && g[Top(c).key].IsBuilt() ==>
      Top(c).key in made && made[Top(c).key] == c.mode.value
  }

  /** A step of another thread does not disturb a thread that has made a value. */
  lemma MakingStays(g: Graph, s: System, t: Thread, c': Caller, sh': Shared, key: Key)
    requires t < |s.callers| && Making(s, key) && s.shared.locks[key] != t
    requires Leaves(g, t, s.callers[t], s.shared, sh') && key in sh'.made && sh'.made[key] == s.shared.made[key]
    ensures Making(System(s.callers[t := c'], sh'), key)
  {
  }

  /** A step that neither calls a constructor nor publishes. */
  lemma QuietKeepsOnce(g: Graph, s: System, t: Thread, c': Caller, sh': Shared)
    requires AllSound(g, s) && Once(g, s) && t < |s.callers|
    requires Leaves(g, t, s.callers[t], s.shared, sh') && !s.callers[t].mode.Made? && MadeFits(g, c', sh'.made)
    requires sh'.made == s.shared.made && sh'.instances == s.shared.instances && SameSuccesses(g, s.shared.calls, sh'.calls)
    ensures Once(g, System(s.callers[t := c'], sh'))
  {
    hide Sound, Leaves, Counted, Published;
    SameCounted(g, s.shared, sh');
    SamePublished(g, s.shared, sh');
    forall k | k in sh'.made && k !in sh'.instances ensures Making(System(s.callers[t := c'], sh'), k) {
      MakingStays(g, s, t, c', sh', k);
    }
  }

  ghost predicate SameSuccesses(g: Graph, calls: seq<Call>, calls': seq<Call>) {
    forall k :: k in g && g[k].IsBuilt() ==> Successes(calls', k) == Successes(calls, k)
  }

  lemma OtherCall(g: Graph, calls: seq<Call>, call: Call)
    requires call.outcome.Faulted? || call.key !in g || !g[call.key].IsBuilt()
    ensures SameSuccesses(g, calls, calls + [call])
  {
    forall k | k in g && g[k].IsBuilt() ensures Successes(calls + [call], k) == Successes(calls, k) {
      AppendCall(calls, call, k);
    }
  }

  /** No value has been made of a singleton whose thread is about to call its
      constructor: it holds the lock and has published nothing. */
  lemma NotMadeYet(g: Graph, s: System, t: Thread)
    requires AllSound(g, s) && Once(g, s) && t < |s.callers|
    requires var c := s.callers[t]; c.mode.Gather? && c.frames != [] && Top(c).key in g && g[Top(c).key].IsBuilt()
    ensures var key := Top(s.callers[t]).key;
            && key !in s.shared.made && key !in s.shared.instances
            && key in s.shared.locks && s.shared.locks[key] == t
  {
    hide Fits, Owns, Successes;
    var c := s.callers[t];
    assert Sound(g, t, c, s.shared);
    HeldIsFresh(g, t, c, s.shared, |c.frames| - 1);
  }

  lemma SuccessCounts(g: Graph, sh: Shared, key: Key, args: seq<Value>, value: Value)
    requires Counted(g, sh) && key in g && g[key].IsBuilt() && key !in sh.made
    ensures Counted(g, sh.(calls := sh.calls + [Call(key, args, Built(value))], made := sh.made[key := value]))
  {
    hide Successes;
    forall k | k in g && g[k].IsBuilt()
      ensures Successes(sh.calls + [Call(key, args, Built(value))], k)
           == if k == key then [value] else if k in sh.made then [sh.made[k]] else []
    {
      AppendCall(sh.calls, Call(key, args, Built(value)), k);
    }
  }

  lemma SuccessKeepsOnce(g: Graph, s: System, t: Thread, sh': Shared, key: Key, args: seq<Value>, value: Value)
    requires AllSound(g, s) && Once(g, s) && t < |s.callers|
    requires var c := s.callers[t]; c.mode.Gather? && c.frames != [] && Top(c).key == key && key in g && g[key].IsBuilt()
    requires sh' == s.shared.(calls := s.shared.calls + [Call(key, args, Built(value))], made := s.shared.made[key := value])
    ensures Once(g, System(s.callers[t := s.callers[t].(mode := Made(value))], sh'))
  {
    NotMadeYet(g, s, t);
    hide AllSound, Counted, Underway, AllMadeFit;
    SuccessCounts(g, s.shared, key, args, value);
    SuccessUnderway(g, s, t, sh', key, value);
    assert Published(g, sh');
  }

  lemma SuccessUnderway(g: Graph, s: System, t: Thread, sh': Shared, key: Key, value: Value)
    requires Underway(s) && AllMadeFit(g, s) && t < |s.callers| && key !in s.shared.made
    requires s.callers[t].frames != [] && Top(s.callers[t]).key == key && !s.callers[t].mode.Made?
    requires key in s.shared.locks && s.shared.locks[key] == t
    requires sh'.made == s.shared.made[key := value] && sh'.locks == s.shared.locks && sh'.instances == s.shared.instances
    ensures var s' := System(s.callers[t := s.callers[t].(mode := Made(value))], sh'); Underway(s') && AllMadeFit(g, s')
  {
    var s' := System(s.callers[t := s.callers[t].(mode := Made(value))], sh');
    forall k | k in sh'.made && k !in sh'.instances ensures Making(s', k) {
      if k != key {
        StillMaking(s, t, s', k);
      }
    }
  }

  lemma StillMaking(s: System, t: Thread, s': System, key: Key)
    requires t < |s.callers| == |s'.callers| && Making(s, key) && s.shared.locks[key] != t
    requires s'.callers == s.callers[t := s'.callers[t]] && s'.shared.locks == s.shared.locks
    requires key in s'.shared.made && s'.shared.made[key] == s.shared.made[key]
    ensures Making(s', key)
  {
  }

  lemma PublishKeepsOnce(g: Graph, s: System, t: Thread, c': Caller, sh': Shared)
    requires AllSound(g, s) && Once(g, s) && t < |s.callers| && !c'.mode.Made?
    requires s.callers[t].mode.Made? && s.callers[t].frames != [] && Top(s.callers[t]).key in g
    requires Leaves(g, t, s.callers[t], s.shared, sh')
    requires sh'.made == s.shared.made && sh'.calls == s.shared.calls
    requires var key := Top(s.callers[t]).key;
             sh'.instances == if g[key].IsBuilt() then s.shared.instances[key := s.callers[t].mode.value] else s.shared.instances
    ensures Once(g, System(s.callers[t := c'], sh'))
  {
    hide AllSound, Leaves, Counted, Underway, Published;
    PublishedAfter(g, s.callers[t], s.shared, sh');
    SameCounted(g, s.shared, sh');
    PublishUnderway(g, s, t, c', sh');
  }

  lemma PublishedAfter(g: Graph, c: Caller, sh: Shared, sh': Shared)
    requires Published(g, sh) && c.mode.Made? && c.frames != [] && Top(c).key in g && MadeFits(g, c, sh.made)
    requires sh'.made == sh.made
    requires sh'.instances == if g[Top(c).key].IsBuilt() then sh.instances[Top(c).key := c.mode.value] else sh.instances
    ensures Published(g, sh')
  {
  }

  lemma PublishUnderway(g: Graph, s: System, t: Thread, c': Caller, sh': Shared)
    requires AllSound(g, s) && Published(g, s.shared) && Underway(s) && AllMadeFit(g, s) && t < |s.callers| && !c'.mode.Made?
    requires s.callers[t].mode.Made? && s.callers[t].frames != [] && Top(s.callers[t]).key in g
    requires Leaves(g, t, s.callers[t], s.shared, sh') && sh'.made == s.shared.made
    requires g[Top(s.callers[t]).key].IsBuilt() ==> Top(s.callers[t]).key in sh'.instances
    ensures Underway(System(s.callers[t := c'], sh')) && AllMadeFit(g, System(s.callers[t := c'], sh'))
  {
    hide Sound, Published;
    forall k | k in sh'.made && k !in sh'.instances ensures Making(System(s.callers[t := c'], sh'), k) {
      if s.shared.locks[k] == t {
        assert Top(s.callers[t]).key == k;
        MadeIsBuilt(g, s, k);
      }
      MakingStays(g, s, t, c', sh', k);
    }
  }

  lemma SameCounted(g: Graph, sh: Shared, sh': Shared)
    requires Counted(g, sh) && sh'.made == sh.made && SameSuccesses(g, sh.calls, sh'.calls)
    ensures Counted(g, sh')
  {
  }

  lemma SamePublished(g: Graph, sh: Shared, sh': Shared)
    requires Published(g, sh) && sh'.made == sh.made && sh'.instances == sh.instances
    ensures Published(g, sh')
  {
  }

  lemma MadeIsBuilt(g: Graph, s: System, key: Key)
    requires AllSound(g, s) && Making(s, key) && key in g
    ensures g[key].IsBuilt()
  {
    var t := s.shared.locks[key];
    assert Sound(g, t, s.callers[t], s.shared);
    assert Holds(g, s.callers[t], key);
  }

  lemma MoveKeepsOnce(g: Graph, run: Behaviour, s: System, t: Thread, s': System)
    requires Closed(g) && Acyclic(g) && AllSound(g, s) && Once(g, s) && Moves(g, run, s, t, s')
    ensures Once(g, s')
  {
    hide Once, Sound, Leaves, Successes;
    var c, sh := s.callers[t], s.shared;
    CallerKeeps(g, run, t, c, sh);
    match c.mode
    case Made(_) => PublishKeepsOnce(g, s, t, s'.callers[t], s'.shared);
    case Gather =>
      var top := Top(c);
      var outcome := Construct(run, Store(sh.instances, sh.calls), top.key, g[top.key].fallible, top.args).0;
      if |top.args| >= |g[top.key].inputs| && outcome.Built? && g[top.key].IsBuilt() {
        SuccessKeepsOnce(g, s, t, s'.shared, top.key, top.args, outcome.value);
      } else if |top.args| >= |g[top.key].inputs| {
        OtherCall(g, sh.calls, Call(top.key, top.args, outcome));
        QuietKeepsOnce(g, s, t, s'.callers[t], s'.shared);
      } else {
        QuietKeepsOnce(g, s, t, s'.callers[t], s'.shared);
      }
    case Want(_) => QuietKeepsOnce(g, s, t, s'.callers[t], s'.shared);
    case Hold(_) => QuietKeepsOnce(g, s, t, s'.callers[t], s'.shared);
    case Give(_, _) => QuietKeepsOnce(g, s, t, s'.callers[t], s'.shared);
  }

  // ----- every run

  lemma InitialKeeps(g: Graph, s: System)
    requires Initial(g, s)
    ensures AllSound(g, s) && Once(g, s)
  {
  }

  lemma {:induction false} RunKeeps(g: Graph, run: Behaviour, systems: seq<System>, turns: seq<Thread>, i: nat)
    requires Closed(g) && Acyclic(g) && IsRun(g, run, systems, turns) && i < |systems|
    ensures AllSound(g, systems[i]) && Once(g, systems[i])
  {
    hide AllSound, Once, Moves, Initial;
    if i == 0 {
      InitialKeeps(g, systems[0]);
    } else {
      RunKeeps(g, run, systems, turns, i - 1);
      assert Moves(g, run, systems[i - 1], turns[i - 1], systems[i]);
      MoveKeepsSound(g, run, systems[i - 1], turns[i - 1], systems[i]);
      MoveKeepsOnce(g, run, systems[i - 1], turns[i - 1], systems[i]);
    }
  }

  /** In every interleaving a singleton is constructed successfully at most once, and
      every caller that was given it was given that value. */
  lemma SingletonsAreShared(g: Graph, run: Behaviour, systems: seq<System>, turns: seq<Thread>, i: nat, key: Key)
    requires Closed(g) && Acyclic(g) && IsRun(g, run, systems, turns) && i < |systems| && key in g && g[key].IsBuilt()
    ensures var s := systems[i];
            && |Successes(s.shared.calls, key)| <= 1
            && forall t :: 0 <= t < |s.callers| && s.callers[t].mode.Done? && s.callers[t].mode.key == key
                           && s.callers[t].mode.r.Ok? ==>
                 Successes(s.shared.calls, key) == [s.callers[t].mode.r.value]
  {
    hide IsRun, Successes;
    RunKeeps(g, run, systems, turns, i);
    var s := systems[i];
    forall t | 0 <= t < |s.callers| && s.callers[t].mode.Done? && s.callers[t].mode.key == key && s.callers[t].mode.r.Ok?
      ensures Successes(s.shared.calls, key) == [s.callers[t].mode.r.value]
    {
      assert Sound(g, t, s.callers[t], s.shared);
    }
  }

  /** On a validated graph, every error any caller gets is some constructor's own:
      never a cycle, never a missing service. */
  lemma ErrorsAreConstructors(g: Graph, run: Behaviour, systems: seq<System>, turns: seq<Thread>, i: nat, t: Thread)
    requires Closed(g) && Acyclic(g) && IsRun(g, run, systems, turns) && i < |systems| && t < |systems[i].callers|
    requires systems[i].callers[t].mode.Done? && systems[i].callers[t].mode.r.Err?
    ensures Origin(systems[i].callers[t].mode.r.error).Some?
  {
    hide IsRun, Once;
    RunKeeps(g, run, systems, turns, i);
    assert Sound(g, t, systems[i].callers[t], systems[i].shared);
  }

  // ----- no deadlock

  /** A thread that cannot move waits for a key whose lock is held. */
  lemma StuckWaits(g: Graph, t: Thread, c: Caller, sh: Shared)
    requires Sound(g, t, c, sh) && !c.mode.Done? && !Enabled(g, c, sh)
    ensures c.mode.Want? && c.mode.key in sh.locks && c.mode.key in g
  {
  }

  /** The holder of a lock that cannot move waits further along the graph. */
  lemma HolderWaits(g: Graph, u: Thread, c: Caller, sh: Shared, key: Key) returns (p: seq<Key>)
    requires Sound(g, u, c, sh) && key in sh.locks && sh.locks[key] == u && !Enabled(g, c, sh)
    ensures c.mode.Want? && p != [] && p[0] == key && IsPath(g, p + [c.mode.key])
  {
    hide FrameFits;
    assert Holds(g, c, key);
    var keys := KeysOf(c.frames);
    var i :| 0 <= i < |keys| && keys[i] == key;
    p := keys[i..];
    FramesArePath(g, c.frames);
    assert Awaits(g, Top(c), c.mode.key);
    ExtendPath(g, keys, c.mode.key);
    assert p + [c.mode.key] == (keys + [c.mode.key])[i..];
  }

  /** If nobody can move, following the locks gives paths of any length. */
  lemma {:induction false} WaitPath(g: Graph, s: System, t: Thread, n: nat) returns (p: seq<Key>)
    requires AllSound(g, s) && t < |s.callers| && s.callers[t].mode.Want?
    requires forall u :: 0 <= u < |s.callers| ==> !Enabled(g, s.callers[u], s.shared)
    ensures |p| > n && p[0] == s.callers[t].mode.key && IsPath(g, p) && forall k :: k in p ==> k in g
    decreases n
  {
    hide Fits, Owns, Enabled;
    var key := s.callers[t].mode.key;
    assert Sound(g, t, s.callers[t], s.shared);
    StuckWaits(g, t, s.callers[t], s.shared);
    if n == 0 {
      p := [key];
    } else {
      var u := s.shared.locks[key];
      assert Sound(g, u, s.callers[u], s.shared);
      var front := HolderWaits(g, u, s.callers[u], s.shared, key);
      var rest := WaitPath(g, s, u, n - 1);
      p := front + rest;
      JoinPaths(g, front, rest);
    }
  }

  lemma JoinPaths(g: Graph, front: seq<Key>, rest: seq<Key>)
    requires rest != [] && IsPath(g, front + [rest[0]]) && IsPath(g, rest) && forall k :: k in rest ==> k in g
    ensures IsPath(g, front + rest) && forall k :: k in front + rest ==> k in g
  {
    var p, q := front + rest, front + [rest[0]];
    forall i, j | 0 <= i < j < |p| && j == i + 1 ensures Edge(g, p[i], p[j]) {
      if j <= |front| {
        assert p[i] == q[i] && p[j] == q[j];
      } else {
        assert p[i] == rest[i - |front|] && p[j] == rest[j - |front|];
      }
    }
    forall i | 0 <= i < |front| ensures front[i] in g {
      var j := i + 1;
      assert q[i] == front[i] && Edge(g, q[i], q[j]);
    }
  }

  lemma PathFitsGraph(g: Graph, p: seq<Key>)
    requires Acyclic(g) && IsPath(g, p) && forall k :: k in p ==> k in g
    ensures |p| <= |g|
  {
    PathIsSimple(g, p);
    DistinctBySize(p);
    SubsetIsSmaller(Elements(p), g.Keys);
  }

  /** No number of concurrent resolutions can deadlock: until all have returned,
      some thread can move, because held locks follow the acyclic order. */
  lemma NoDeadlock(g: Graph, run: Behaviour, systems: seq<System>, turns: seq<Thread>, i: nat)
    requires Closed(g) && Acyclic(g) && IsRun(g, run, systems, turns) && i < |systems|
    ensures var s := systems[i];
            || (forall t :: 0 <= t < |s.callers| ==> s.callers[t].mode.Done?)
            || (exists t :: 0 <= t < |s.callers| && CanMove(g, s.callers[t], s.shared))
  {
    hide IsRun, Once, Sound, Enabled;
    RunKeeps(g, run, systems, turns, i);
    var s := systems[i];
    if t :| 0 <= t < |s.callers| && !s.callers[t].mode.Done? {
      if u :| 0 <= u < |s.callers| && Enabled(g, s.callers[u], s.shared) {
        SoundCanMove(g, u, s.callers[u], s.shared);
      } else {
        StuckWaits(g, t, s.callers[t], s.shared);
        var p := WaitPath(g, s, t, |g|);
        PathFitsGraph(g, p);
      }
    }
  }
}
