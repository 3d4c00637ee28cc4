/**
  Concurrent resolution ends (container.go). Every step of a thread uses up some of
  what it has left to do, so a run of any number of resolutions has a bounded number
  of steps; and a run that cannot go on has returned to every caller.
  */
module ResolutionEnds {
  import opened Wrappers
  import opened Sequences
  import opened Container
  import opened Resolution
  import opened ConcurrentResolution

  /** What resolving a key can take, from this many keys above it in the graph on. */
  function Weight(g: Graph, n: nat, key: Key): (w: nat)
    ensures w >= 3
    decreases n, 1, 0
  {
    if n == 0 || key !in g then 3 else 5 + Weights(g, n - 1, g[key].Inputs())
  }

  function Weights(g: Graph, n: nat, inputs: seq<Key>): nat
    decreases n, 2, |inputs|
  {
    if inputs == [] then 0 else Weight(g, n, inputs[0]) + 3 + Weights(g, n, inputs[1..])
  }

  function Room(g: Graph, frames: seq<Frame>): nat {
    if |frames| <= |g| then |g| - |frames| else 0
  }

  /** The inputs after the one a frame resolves next. */
  function Later(g: Graph, f: Frame): seq<Key> {
    if f.key in g && |f.args| < |g[f.key].Inputs()| then g[f.key].Inputs()[|f.args| + 1..] else []
  }

  function Dues(g: Graph, frames: seq<Frame>): nat {
    if frames == [] then 0
    else Dues(g, frames[..|frames| - 1]) + 3 + Weights(g, Room(g, frames), Later(g, frames[|frames| - 1]))
  }

  /** What a thread has left to do. */
  function Rank(g: Graph, c: Caller): nat {
    var room := Room(g, c.frames);
    Dues(g, c.frames) +
    match c.mode
    case Want(key) => Weight(g, room, key) + 2
    case Hold(key) => Weight(g, room, key) + 1
    case Gather =>
      if c.frames != [] && Top(c).key in g && |Top(c).args| < |g[Top(c).key].Inputs()| then
        Weight(g, room, g[Top(c).key].Inputs()[|Top(c).args|]) + 3
      else 2
    case Made(_) => 1
    case Give(_, _) => 3
    case Done(_, _) => 0
  }

  /** A key that is resolved next is one more key on a path. */
  lemma RoomForOne(g: Graph, c: Caller, key: Key)
    requires Acyclic(g) && Stacked(g, c.frames) && key in g && (c.frames != [] ==> Awaits(g, Top(c), key))
    ensures |c.frames| < |g|
  {
    var p := KeysOf(c.frames);
    AwaitedIsNew(g, c, key);
    assert forall i :: 0 <= i < |p| ==> p[i] == c.frames[i].key;
    PathFitsGraph(g, p + [key]);
  }

  /** A frame for a key costs less than the key. */
  lemma PushCosts(g: Graph, c: Caller, key: Key)
    requires key in g && |c.frames| < |g|
    ensures Rank(g, Caller(c.frames + [Frame(key, [])], Gather)) < Dues(g, c.frames) + Weight(g, Room(g, c.frames), key) + 1
  {
    var frames := c.frames + [Frame(key, [])];
    assert frames[..|frames| - 1] == c.frames;
    var inputs := g[key].Inputs();
    assert Room(g, frames) == Room(g, c.frames) - 1;
    assert Weight(g, Room(g, c.frames), key) == 5 + Weights(g, Room(g, frames), inputs);
  }

  lemma WantCosts(g: Graph, t: Thread, c: Caller, sh: Shared)
    requires Acyclic(g) && Sound(g, t, c, sh) && c.mode.Want? && Enabled(g, c, sh)
    ensures Rank(g, WantNext(g, t, c, sh).0) < Rank(g, c)
  {
    hide Dues, Weight;
    RoomForOne(g, c, c.mode.key);
    PushCosts(g, c, c.mode.key);
  }

  lemma HoldCosts(g: Graph, t: Thread, c: Caller, sh: Shared)
    requires Acyclic(g) && Sound(g, t, c, sh) && c.mode.Hold?
    ensures Rank(g, HoldNext(g, c, sh).0) < Rank(g, c)
  {
    hide Dues, Weight;
    RoomForOne(g, c, c.mode.key);
    PushCosts(g, c, c.mode.key);
  }

  lemma GatherCosts(g: Graph, run: Behaviour, t: Thread, c: Caller, sh: Shared)
    requires Sound(g, t, c, sh) && c.mode.Gather? && CanMove(g, c, sh)
    ensures Rank(g, GatherNext(g, run, c, sh).0) < Rank(g, c)
  {
    hide Weight, Weights;
  }

  lemma MadeCosts(g: Graph, t: Thread, c: Caller, sh: Shared)
    requires c.mode.Made? && CanMove(g, c, sh)
    ensures Rank(g, MadeNext(g, c, sh).0) < Rank(g, c)
  {
    hide Weight, Weights;
  }

  lemma GiveCosts(g: Graph, t: Thread, c: Caller, sh: Shared)
    requires Sound(g, t, c, sh) && c.mode.Give?
    ensures Rank(g, GiveNext(g, c, sh).0) < Rank(g, c)
  {
    if c.frames != [] && c.mode.r.Ok? {
      ReturnCosts(g, c, c.mode.r.value);
    } else {
      hide Weight, Weights;
    }
  }

  /** A value returned to the frame that waits for it. */
  lemma ReturnCosts(g: Graph, c: Caller, value: Value)
    requires c.frames != [] && c.mode.Give? && Awaits(g, Top(c), c.mode.key)
    ensures Rank(g, Caller(Popped(c) + [Frame(Top(c).key, Top(c).args + [value])], Gather)) < Rank(g, c)
  {
    var top := Top(c);
    var frames := Popped(c) + [Frame(top.key, top.args + [value])];
    assert frames[..|frames| - 1] == Popped(c);
    NextInput(g, Room(g, frames), top);
    hide Weight, Weights;
  }

  /** The next input and those after it. */
  lemma NextInput(g: Graph, n: nat, f: Frame)
    requires f.key in g && |f.args| < |g[f.key].Inputs()|
    ensures var inputs, next := g[f.key].Inputs(), |f.args| + 1;
            Weights(g, n, inputs[next..]) ==
            if next < |inputs| then Weight(g, n, inputs[next]) + 3 + Weights(g, n, inputs[next + 1..]) else 0
  {
    var inputs, next := g[f.key].Inputs(), |f.args| + 1;
    if next < |inputs| {
      assert inputs[next..][1..] == inputs[next + 1..];
    }
  }

  lemma StepCosts(g: Graph, run: Behaviour, t: Thread, c: Caller, sh: Shared)
    requires Closed(g) && Acyclic(g) && Sound(g, t, c, sh) && CanMove(g, c, sh)
    ensures Rank(g, CallerNext(g, run, t, c, sh).0) < Rank(g, c)
  {
    hide Sound, WantNext, HoldNext, GatherNext, MadeNext, GiveNext, Rank;
    match c.mode
    case Want(_) => WantCosts(g, t, c, sh);
    case Hold(_) => HoldCosts(g, t, c, sh);
    case Gather => GatherCosts(g, run, t, c, sh);
    case Made(_) => MadeCosts(g, t, c, sh);
    case Give(_, _) => GiveCosts(g, t, c, sh);
  }

  function TotalRank(g: Graph, callers: seq<Caller>): nat {
    if callers == [] then 0 else TotalRank(g, callers[..|callers| - 1]) + Rank(g, callers[|callers| - 1])
  }

  lemma {:induction false} TotalUpdate(g: Graph, callers: seq<Caller>, t: nat, c: Caller)
    requires t < |callers|
    ensures TotalRank(g, callers[t := c]) + Rank(g, callers[t]) == TotalRank(g, callers) + Rank(g, c)
  {
    hide Rank;
    var n := |callers| - 1;
    if t < n {
      assert callers[t := c][..n] == callers[..n][t := c];
      TotalUpdate(g, callers[..n], t, c);
    } else {
      assert callers[t := c][..n] == callers[..n];
    }
  }

  /** Every run is bounded: it has no more steps than its callers had to do at first. */
  lemma {:induction false} RunsAreBounded(g: Graph, run: Behaviour, systems: seq<System>, turns: seq<Thread>, i: nat)
    requires Closed(g) && Acyclic(g) && IsRun(g, run, systems, turns) && i < |systems|
    ensures i + TotalRank(g, systems[i].callers) <= TotalRank(g, systems[0].callers)
  {
    hide TotalRank, Rank, AllSound, Once, CallerNext, CanMove, Initial, Sound;
    if i > 0 {
      RunsAreBounded(g, run, systems, turns, i - 1);
      RunKeeps(g, run, systems, turns, i - 1);
      var s, t := systems[i - 1], turns[i - 1];
      assert Moves(g, run, s, t, systems[i]);
      SoundCaller(g, s, t);
      StepCosts(g, run, t, s.callers[t], s.shared);
      TotalUpdate(g, s.callers, t, systems[i].callers[t]);
    }
  }

  lemma SoundCaller(g: Graph, s: System, t: Thread)
    requires AllSound(g, s) && t < |s.callers|
    ensures Sound(g, t, s.callers[t], s.shared)
  {
  }

  /** Concurrent resolution ends: no run has more steps than the bound, and one that
      cannot take another has returned to every caller. */
  lemma EveryRunEnds(g: Graph, run: Behaviour, systems: seq<System>, turns: seq<Thread>)
    requires Closed(g) && Acyclic(g) && IsRun(g, run, systems, turns)
    ensures |turns| <= TotalRank(g, systems[0].callers)
    ensures var s := systems[|turns|];
            (forall t :: 0 <= t < |s.callers| ==> !CanMove(g, s.callers[t], s.shared)) ==>
            forall t :: 0 <= t < |s.callers| ==> s.callers[t].mode.Done?
  {
    hide TotalRank, CanMove;
    RunsAreBounded(g, run, systems, turns, |turns|);
    NoDeadlock(g, run, systems, turns, |turns|);
  }
}
