/**
  Claims and run-once work on an unbounded cache (cache/store.go).

  A claim is a lease: nobody else gets the key until its TTL has passed, unless
  the key is written or deleted. Once works under a claim and deletes the key
  when the work fails, without asking whether the claim is still its own.
  */
module Lease {
  import opened Wrappers
  import opened CacheSpec
  import opened CacheRefinement

  predicate Overwrites(e: Event, key: Key) {
    (e.Write? || e.Drop?) && e.key == key
  }

  predicate Untouched(events: seq<Event>, key: Key) {
    forall e :: e in events ==> !Overwrites(e, key)
  }

  /** The key is taken, until exactly `deadline`. */
  predicate Holds(entries: Table, key: Key, deadline: int) {
    key in entries && entries[key].expiresAt == Some(deadline)
  }

  predicate Harmless(e: Event, key: Key, now: int) {
    !Overwrites(e, key) && e.now <= now
  }

  /** A lease outlives every event that neither writes nor deletes its key: other
      claims are refused. */
  lemma LeaseLasts(table: Table, e: Event, key: Key, deadline: int)
    requires Holds(table, key, deadline) && Harmless(e, key, deadline - 1)
    ensures Holds(TableStep(table, e), key, deadline)
  {
  }

  lemma {:induction false} HeldUntil(table: Table, events: seq<Event>, i: nat, j: nat, key: Key, now: int, deadline: int)
    requires now < deadline && i <= j <= |events| && Holds(TableAt(table, events, i), key, deadline)
    requires forall k :: i <= k < j ==> Harmless(events[k], key, now)
    ensures Holds(TableAt(table, events, j), key, deadline)
    decreases j
  {
    if i < j {
      HeldUntil(table, events, i, j - 1, key, now, deadline);
      LeaseLasts(TableAt(table, events, j - 1), events[j - 1], key, deadline);
    }
  }

  /** A claim gets its key exactly when the table has nothing live under it. */
  predicate Takes(table: Table, e: Event) {
    e.Claim? && Live(table, e.key, e.now).None?
  }

  lemma TakeHolds(table: Table, events: seq<Event>, i: nat)
    requires i < |events| && Takes(TableAt(table, events, i), events[i]) && events[i].ttl > 0
    ensures Holds(TableAt(table, events, i + 1), events[i].key, events[i].now + events[i].ttl)
  {
    var before := TableAt(table, events, i);
    assert TableAt(table, events, i + 1) == TableStep(before, events[i]);
  }

  lemma HeldIsNotTaken(table: Table, e: Event, deadline: int)
    requires Takes(table, e) && Holds(table, e.key, deadline)
    ensures e.now >= deadline
  {
  }

  lemma NotTakenWithinLease(table: Table, events: seq<Event>, i: nat, j: nat, key: Key, deadline: int)
    requires i <= j < |events| && Holds(TableAt(table, events, i), key, deadline)
    requires Takes(TableAt(table, events, j), events[j]) && events[j].key == key
    requires forall k :: i <= k < j ==> Harmless(events[k], key, events[j].now)
    ensures events[j].now >= deadline
  {
    if events[j].now < deadline {
      HeldUntil(table, events, i, j, key, events[j].now, deadline);
      HeldIsNotTaken(TableAt(table, events, j), events[j], deadline);
    }
  }

  lemma TakesAreApart(table: Table, events: seq<Event>, i: nat, j: nat, key: Key)
    requires i < j < |events| && events[i].Claim? && events[i].key == key && events[i].ttl > 0
    requires Takes(TableAt(table, events, i), events[i])
    requires Takes(TableAt(table, events, j), events[j]) && events[j].key == key
    requires forall k :: i < k < j ==> Harmless(events[k], key, events[j].now)
    ensures events[j].now >= events[i].now + events[i].ttl
  {
    TakeHolds(table, events, i);
    NotTakenWithinLease(table, events, i + 1, j, key, events[i].now + events[i].ttl);
  }

  lemma {:induction false} ClockAdvances(run: seq<Moment>, i: nat, j: nat)
    requires IsRun(run) && i <= j < |run|
    ensures run[i].event.now <= run[j].event.now
    decreases j
  {
    if i < j {
      ClockAdvances(run, i, j - 1);
      assert run[j].before == run[j - 1].after && Happens(run[j - 1]) && Happens(run[j]);
      hide IsRun;
      ClockIsSet(run[j - 1]);
      hide Happens;
      assert run[j].before.clock <= run[j].event.now;
    }
  }

  lemma ClockIsSet(m: Moment)
    requires Happens(m)
    ensures m.after.clock == m.event.now
  {
    hide Valid, Set, Add, Delete, GetLocked, PurgeIn, Live;
  }

  lemma ReplyMeansTakes(table: Table, run: seq<Moment>, i: nat)
    requires IsRun(run) && i < |run| && Agree(run[0].before.cache, table, run[0].before.clock)
    requires run[i].event.Claim? && run[i].reply == Added(true)
    ensures Takes(TableAt(table, EventsOf(run), i), EventsOf(run)[i])
  {
    CacheIsAtomic(table, run, i);
  }

  /** Between two successful claims of a key that nobody writes or deletes in
      between, the clock advances by at least the first lease. */
  lemma ClaimsAreApart(run: seq<Moment>, i: nat, j: nat)
    requires IsRun(run) && i < j < |run|
    requires run[i].event.Claim? && run[j].event.Claim? && run[i].event.key == run[j].event.key
    requires run[i].event.ttl > 0 && run[i].reply == Added(true) && run[j].reply == Added(true)
    requires forall k :: i < k < j ==> !Overwrites(run[k].event, run[i].event.key)
    ensures run[j].event.now >= run[i].event.now + run[i].event.ttl
  {
    var table, events := run[0].before.cache.entries, EventsOf(run);
    ReplyMeansTakes(table, run, i);
    ReplyMeansTakes(table, run, j);
    forall k | i < k < j ensures Harmless(events[k], events[i].key, events[j].now) {
      ClockAdvances(run, k, j);
    }
    TakesAreApart(table, events, i, j, events[i].key);
  }

  /** A call of Once that got its claim: working, or about to delete the key after
      a failure. `deadline` is when its lease ends. */
  datatype Run = Working(deadline: int) | Releasing(deadline: int)

  type Caller = nat

  /** The cache as the plain table that every run of it answers like
      (CacheRefinement.CacheIsAtomic). */
  datatype World = World(table: Table, clock: int, runs: map<Caller, Run>)

  datatype Action =
    | Begin(caller: Caller, ttl: nat, now: int)
    | Finish(caller: Caller, failed: bool, now: int)
    | Release(caller: Caller, now: int)
    | Other(event: Event)

  function Time(a: Action): int {
    if a.Other? then a.event.now else a.now
  }

  /** `Other` is any event of the cache except a write or a delete of the key. */
  predicate Possible(w: World, key: Key, a: Action) {
    && w.clock <= Time(a)
    && match a
       case Begin(caller, ttl, _) => caller !in w.runs && ttl > 0
       case Finish(caller, _, _) => caller in w.runs && w.runs[caller].Working?
       case Release(caller, _) => caller in w.runs && w.runs[caller].Releasing?
       case Other(event) => !Overwrites(event, key)
  }

  const CLAIM_VALUE: Value := "\U{0001}"

  /** One step of Once for `key`. */
  function Act(w: World, key: Key, a: Action): World
    requires Possible(w, key, a)
  {
    match a
    case Begin(caller, ttl, now) =>
      World(TableStep(w.table, Event.Claim(key, CLAIM_VALUE, ttl, now)), now,
            if Live(w.table, key, now).None? then w.runs[caller := Working(now + ttl)] else w.runs)
    case Finish(caller, failed, now) =>
      World(w.table, now,
            if failed then w.runs[caller := Releasing(w.runs[caller].deadline)] else w.runs - {caller})
    case Release(caller, now) =>
      World(TableStep(w.table, Drop(key, now)), now, w.runs - {caller})
    case Other(event) =>
      World(TableStep(w.table, event), event.now, w.runs)
  }

  /** At most one run; its lease has not ended and the key is taken for it. */
  ghost predicate Exclusive(w: World, key: Key) {
    && (forall c, d :: c in w.runs && d in w.runs ==> c == d)
    && (forall c :: c in w.runs ==> w.clock < w.runs[c].deadline && Holds(w.table, key, w.runs[c].deadline))
  }

  /** No run, and no release that follows it, is still going when its lease ends. */
  predicate InTime(w: World, a: Action) {
    forall c :: c in w.runs ==> Time(a) < w.runs[c].deadline
  }

  ghost predicate Moves(w: World, key: Key, a: Action, w': World) {
    Possible(w, key, a) && w' == Act(w, key, a)
  }

  /** Consecutive worlds, each the previous one after the action between them. */
  ghost predicate IsStory(worlds: seq<World>, key: Key, actions: seq<Action>) {
    && |worlds| == |actions| + 1
    && (forall i, j :: 0 <= i < |actions| && j == i + 1 ==>
          Moves(worlds[i], key, actions[i], worlds[j]))
  }

  lemma ActKeepsExclusive(w: World, key: Key, a: Action)
    requires Exclusive(w, key) && Possible(w, key, a) && InTime(w, a)
    ensures Exclusive(Act(w, key, a), key)
  {
  }

  /** Calls of Once on the cache itself. */
  datatype CacheWorld = CacheWorld(system: System, runs: map<Caller, Run>)

  ghost predicate CachePossible(w: CacheWorld, key: Key, a: Action) {
    && Valid(w.system.cache) && w.system.clock <= Time(a)
    && match a
       case Begin(caller, ttl, _) => caller !in w.runs && ttl > 0
       case Finish(caller, _, _) => caller in w.runs && w.runs[caller].Working?
       case Release(caller, _) => caller in w.runs && w.runs[caller].Releasing?
       case Other(event) => !Overwrites(event, key) && Enabled(w.system, event)
  }

  /** One step of Once: a claim runs the work when the cache says that it stored. */
  ghost function CacheAct(w: CacheWorld, key: Key, a: Action): CacheWorld
    requires CachePossible(w, key, a)
  {
    match a
    case Begin(caller, ttl, now) =>
      var (system, reply) := Step(w.system, Event.Claim(key, CLAIM_VALUE, ttl, now));
      CacheWorld(system, if reply == Added(true) then w.runs[caller := Working(now + ttl)] else w.runs)
    case Finish(caller, failed, now) =>
      CacheWorld(w.system.(clock := now),
                 if failed then w.runs[caller := Releasing(w.runs[caller].deadline)] else w.runs - {caller})
    case Release(caller, now) => CacheWorld(Step(w.system, Drop(key, now)).0, w.runs - {caller})
    case Other(event) => CacheWorld(Step(w.system, event).0, w.runs)
  }

  /** The same calls on the cache and on the plain table. */
  ghost predicate Mirrors(w: CacheWorld, v: World) {
    Agree(w.system.cache, v.table, w.system.clock) && v.clock == w.system.clock && v.runs == w.runs
  }

  lemma ActMirrors(w: CacheWorld, v: World, key: Key, a: Action)
    requires CachePossible(w, key, a) && Mirrors(w, v)
    ensures Possible(v, key, a) && Mirrors(CacheAct(w, key, a), Act(v, key, a))
  {
    hide CacheRefinement.Step, TableStep, Live, Agree;
    match a
    case Begin(_, ttl, now) => ClaimMirrors(w.system, v.table, Event.Claim(key, CLAIM_VALUE, ttl, now));
    case Finish(_, _, now) => AgreeLater(w.system.cache, v.table, w.system.clock, now);
    case Release(_, now) => EventMirrors(w.system, v.table, Drop(key, now));
    case Other(event) => EventMirrors(w.system, v.table, event);
  }

  lemma EventMirrors(s: System, table: Table, e: Event)
    requires Valid(s.cache) && Enabled(s, e) && Agree(s.cache, table, s.clock)
    ensures var s' := Step(s, e).0; Agree(s'.cache, TableStep(table, e), s'.clock) && s'.clock == e.now
  {
    StepAgrees(s, table, e);
  }

  lemma ClaimMirrors(s: System, table: Table, e: Event)
    requires Valid(s.cache) && e.Claim? && s.clock <= e.now && Agree(s.cache, table, s.clock)
    ensures var (s', reply) := Step(s, e);
            && Agree(s'.cache, TableStep(table, e), s'.clock) && s'.clock == e.now
            && (reply == Added(true) <==> Live(table, e.key, e.now).None?)
  {
    StepAgrees(s, table, e);
  }

  ghost predicate CacheMoves(w: CacheWorld, key: Key, a: Action, w': CacheWorld) {
    CachePossible(w, key, a) && w' == CacheAct(w, key, a)
  }

  ghost predicate IsCacheStory(worlds: seq<CacheWorld>, key: Key, actions: seq<Action>) {
    && |worlds| == |actions| + 1
    && (forall i, j :: 0 <= i < |actions| && j == i + 1 ==> CacheMoves(worlds[i], key, actions[i], worlds[j]))
  }

  predicate CacheInTime(w: CacheWorld, a: Action) {
    forall c :: c in w.runs ==> Time(a) < w.runs[c].deadline
  }

  lemma {:induction false} MirroredExclusively(worlds: seq<CacheWorld>, key: Key, actions: seq<Action>, i: nat)
    returns (v: World)
    requires IsCacheStory(worlds, key, actions) && i < |worlds| && worlds[0].runs == map[]
    requires forall k :: 0 <= k < i ==> CacheInTime(worlds[k], actions[k])
    ensures Mirrors(worlds[i], v) && Exclusive(v, key)
  {
    hide CachePossible, CacheAct, Act;
    if i == 0 {
      v := World(worlds[0].system.cache.entries, worlds[0].system.clock, map[]);
    } else {
      var before := MirroredExclusively(worlds, key, actions, i - 1);
      assert CacheMoves(worlds[i - 1], key, actions[i - 1], worlds[i]);
      ActMirrors(worlds[i - 1], before, key, actions[i - 1]);
      ActKeepsExclusive(before, key, actions[i - 1]);
      v := Act(before, key, actions[i - 1]);
    }
  }

  /** Once, on an unbounded cache with anything else going on in it, never overlaps two
      runs for a key when every run and its release end within the lease and nobody else
      writes or deletes the key. */
  lemma OnceIsExclusive(worlds: seq<CacheWorld>, key: Key, actions: seq<Action>, i: nat)
    requires IsCacheStory(worlds, key, actions) && i < |worlds| && worlds[0].runs == map[]
    requires forall k :: 0 <= k < i ==> CacheInTime(worlds[k], actions[k])
    ensures forall c, d :: c in worlds[i].runs && d in worlds[i].runs ==> c == d
  {
    var v := MirroredExclusively(worlds, key, actions, i);
  }

  /** The condition is exact: while a run is going, another caller gets the key
      if and only if the run's lease has ended. */
  lemma OverlapExactlyWhenLate(w: World, key: Key, running: Caller, caller: Caller, ttl: nat, now: int)
    requires Exclusive(w, key) && running in w.runs && Possible(w, key, Begin(caller, ttl, now))
    ensures caller in Act(w, key, Begin(caller, ttl, now)).runs <==> now >= w.runs[running].deadline
  {
    assert Holds(w.table, key, w.runs[running].deadline);
  }

  /** A failed run leaves the key free: whoever claims next gets it. */
  lemma FailedRunFreesTheKey(w: World, key: Key, failed: Caller, now: int, next: Caller, ttl: nat, later: int)
    requires Possible(w, key, Release(failed, now)) && next !in w.runs - {failed} && ttl > 0 && now <= later
    ensures next in Act(Act(w, key, Release(failed, now)), key, Begin(next, ttl, later)).runs
  {
  }

  /** Ending the work in time is not enough. The first caller's work fails within
      its lease, but its delete comes after, when the second caller has claimed
      the key; the third then runs inside the second's lease. */
  lemma LateReleaseOverlaps(key: Key) returns (worlds: seq<World>)
    ensures IsStory(worlds, key, [Begin(1, 5, 0), Finish(1, true, 4), Begin(2, 60, 6), Release(1, 7), Begin(3, 60, 8)])
    ensures worlds[0] == World(map[], 0, map[])
    ensures worlds[5].runs == map[2 := Working(66), 3 := Working(68)]
  {
    var w0 := World(map[], 0, map[]);
    var w1 := Act(w0, key, Begin(1, 5, 0));
    var w2 := Act(w1, key, Finish(1, true, 4));
    var w3 := Act(w2, key, Begin(2, 60, 6));
    var w4 := Act(w3, key, Release(1, 7));
    var w5 := Act(w4, key, Begin(3, 60, 8));
    worlds := [w0, w1, w2, w3, w4, w5];
  }
}
