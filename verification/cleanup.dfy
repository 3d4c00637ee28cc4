/**
  Cleanup makes progress (cache/memory.go). On an unbounded cache an expired key
  that nobody stores again is removed within a bounded number of samples, whatever
  else happens: pushes, moves to the back, deletes, full purges, and the cursor's
  own element being moved away.
  */
module Cleanup {
  import opened Wrappers
  import opened Sequences
  import opened CacheSpec
  import opened CacheRefinement

  /** The index the next sample starts at. */
  function Position(c: Cache): nat
    requires c.cursor.Some? ==> c.cursor.value in c.order
  {
    if c.cursor.Some? then IndexOf(c.order, c.cursor.value) else 0
  }

  /** How many elements the cursor passes before it reaches this key. */
  function Distance(c: Cache, key: Key): nat
    requires (c.cursor.Some? ==> c.cursor.value in c.order) && key in c.order
  {
    var i, p := IndexOf(c.order, key), Position(c);
    if p <= i then i - p else |c.order| - p + i
  }

  /** How many more samples a key can survive, from its list index, its distance
      from the cursor and the length of the list. A sample takes 16 steps towards
      the key while a write pushes at most one element in between; a key before it
      that moves or goes may cost a whole turn of the list, but lowers its index. */
  function Fuel(i: nat, d: nat, n: nat): (f: nat)
    ensures f > 0
    decreases i, d
  {
    var stay := if d >= 15 then Fuel(i, d - 15, n + 1) else 0;
    var move := if i > 0 then Fuel(i - 1, n, n + 1) else 0;
    1 + if stay > move then stay else move
  }

  lemma {:induction false} FuelGrows(i: nat, d: nat, n: nat, i': nat, d': nat, n': nat)
    requires i' <= i && d' <= d && n' <= n
    ensures Fuel(i', d', n') <= Fuel(i, d, n)
    decreases i, d
  {
    if d' >= 15 {
      FuelGrows(i, d - 15, n + 1, i', d' - 15, n' + 1);
    }
    if i' > 0 {
      FuelGrows(i - 1, n, n + 1, i' - 1, n', n' + 1);
    }
  }

  /** Where a key stands: gone, or its list index, its distance from the cursor
      and the length of the list. */
  datatype Standing = Gone | Listed(i: nat, d: nat, n: nat)

  function Stands(c: Cache, key: Key): Standing
    requires c.cursor.Some? ==> c.cursor.value in c.order
  {
    if key in c.order then Listed(IndexOf(c.order, key), Distance(c, key), |c.order|) else Gone
  }

  lemma VisitedIsAtPosition(c: Cache)
    requires Valid(c) && c.order != []
    ensures Visited(c) in c.order && IndexOf(c.order, Visited(c)) == Position(c)
  {
    if c.cursor.None? {
      ValidIsDistinct(c);
      IndexIsUnique(c.order, 0);
    }
  }

  /** The cursor one element on, or wrapped to the front. */
  function Advanced(c: Cache): Cache
    requires c.order != [] && Visited(c) in c.order
  {
    c.(cursor := Next(c.order, Visited(c)))
  }

  lemma AdvanceApproaches(c: Cache, key: Key)
    requires Valid(c) && key in c.order && Distance(c, key) > 0
    ensures Visited(c) in c.order && Visited(c) != key && Valid(Advanced(c))
    ensures Advanced(c).cursor != Some(Visited(c)) && Distance(Advanced(c), key) == Distance(c, key) - 1
  {
    VisitedIsAtPosition(c);
    var p := Position(c);
    if p + 1 < |c.order| {
      ValidIsDistinct(c);
      IndexIsUnique(c.order, p + 1);
    }
  }

  lemma PassedPosition(c: Cache, gone: Key)
    requires Valid(c) && gone in c.order && c.cursor == Next(c.order, gone)
    ensures Valid(Remove(c, gone)) && |Remove(c, gone).order| == |c.order| - 1
    ensures var g, last := IndexOf(c.order, gone), |c.order| - 1;
            && Position(c) == (if g < last then g + 1 else 0)
            && Position(Remove(c, gone)) == if g < last then g else 0
  {
    RemoveIsValid(c, gone);
    ValidIsDistinct(c);
    var i := IndexOf(c.order, gone);
    if i + 1 < |c.order| {
      IndexIsUnique(c.order, i + 1);
      IndexWithout(c.order, gone, c.order[i + 1]);
    }
  }

  lemma RemovedIndex(c: Cache, gone: Key, key: Key)
    requires Valid(c) && gone in c.order && key in c.order && gone != key
    ensures var order := Remove(c, gone).order;
            key in order &&
            IndexOf(order, key) == IndexOf(c.order, key) - if IndexOf(c.order, gone) < IndexOf(c.order, key) then 1 else 0
  {
    ValidIsDistinct(c);
    IndexWithout(c.order, gone, key);
  }

  /** Taking out the element the cursor has just passed changes no distance. */
  lemma RemovePassed(c: Cache, gone: Key, key: Key)
    requires Valid(c) && gone in c.order && key in c.order && gone != key && c.cursor == Next(c.order, gone)
    ensures var c' := Remove(c, gone);
            && Valid(c') && key in c'.order && |c'.order| == |c.order| - 1
            && IndexOf(c'.order, key) <= IndexOf(c.order, key) && Distance(c', key) == Distance(c, key)
  {
    hide Remove, IndexOf, Next;
    PassedPosition(c, gone);
    RemovedIndex(c, gone, key);
    hide Position;
  }

  /** A turn that does not reach the key brings the cursor one step closer. */
  lemma VisitOneApproaches(c: Cache, now: int, key: Key)
    requires Valid(c) && key in c.order && Distance(c, key) > 0
    ensures var c' := VisitOne(c, now);
            && Valid(c') && key in c'.order && |c'.order| <= |c.order|
            && IndexOf(c'.order, key) <= IndexOf(c.order, key) && Distance(c', key) == Distance(c, key) - 1
  {
    AdvanceApproaches(c, key);
    if Visited(c) in c.entries && Expired(c.entries[Visited(c)], now) {
      RemovePassed(Advanced(c), Visited(c), key);
    }
  }

  lemma VisitOneReaches(c: Cache, now: int, key: Key)
    requires Valid(c) && key in c.order && Distance(c, key) == 0
    requires key in c.entries && Expired(c.entries[key], now)
    ensures Valid(VisitOne(c, now)) && key !in VisitOne(c, now).order
  {
    VisitOneIsValid(c, now);
    VisitedIsAtPosition(c);
    assert Visited(c) == key;
    assert key !in VisitOne(c, now).entries;
    assert key !in Elements(VisitOne(c, now).order);
  }

  /** Visiting stores nothing. */
  lemma VisitOneOnlyRemoves(c: Cache, now: int, key: Key)
    requires Valid(c) && c.order != []
    ensures var c' := VisitOne(c, now);
            && Valid(c')
            && (key in c'.order ==> key in c.order)
            && (key in c'.entries ==> key in c.entries && c'.entries[key] == c.entries[key])
  {
    VisitOneIsValid(c, now);
    InOrder(c, key);
    InOrder(VisitOne(c, now), key);
  }

  lemma {:induction false} VisitsOnlyRemove(c: Cache, now: int, n: nat, key: Key)
    requires Valid(c)
    ensures var c' := Visits(c, now, n);
            && (key in c'.order ==> key in c.order)
            && (key in c'.entries ==> key in c.entries && c'.entries[key] == c.entries[key])
    decreases n
  {
    hide VisitOne;
    if n > 0 && c.order != [] {
      VisitOneOnlyRemoves(c, now, key);
      VisitsOnlyRemove(VisitOne(c, now), now, n - 1, key);
    }
  }

  /** What some turns of the loop do to an expired key. */
  predicate Approach(s: Standing, s': Standing, turns: nat) {
    && s.Listed?
    && if turns > s.d then s' == Gone else s'.Listed? && s'.n <= s.n && s'.i <= s.i && s'.d == s.d - turns
  }

  lemma ApproachOn(s: Standing, s': Standing, s'': Standing, turns: nat)
    requires Approach(s, s', 1) && (if s' == Gone then s'' == Gone else Approach(s', s'', turns))
    ensures Approach(s, s'', turns + 1)
  {
  }

  lemma NoTurns(c: Cache, key: Key)
    requires Valid(c) && key in c.order
    ensures Approach(Stands(c, key), Stands(c, key), 0)
  {
  }

  lemma ListedStands(c: Cache, key: Key)
    requires Valid(c) && key in c.order
    ensures Stands(c, key) != Gone
  {
  }

  lemma GoneStaysGone(c: Cache, now: int, n: nat, key: Key)
    requires Valid(c) && key !in c.order
    ensures Stands(c, key) == Gone && Stands(Visits(c, now, n), key) == Gone
  {
    VisitsOnlyRemove(c, now, n, key);
  }

  lemma VisitOneApproach(c: Cache, now: int, key: Key)
    requires Valid(c) && key in c.order && key in c.entries && Expired(c.entries[key], now)
    ensures Valid(VisitOne(c, now)) && Approach(Stands(c, key), Stands(VisitOne(c, now), key), 1)
    ensures var c' := VisitOne(c, now);
            key in c'.order ==> key in c'.entries && Expired(c'.entries[key], now)
  {
    if Distance(c, key) == 0 {
      VisitOneReaches(c, now, key);
    } else {
      VisitOneApproaches(c, now, key);
      InOrder(VisitOne(c, now), key);
    }
  }

  lemma {:induction false} VisitsApproach(c: Cache, now: int, n: nat, key: Key)
    requires Valid(c) && key in c.order && key in c.entries && Expired(c.entries[key], now)
    ensures Approach(Stands(c, key), Stands(Visits(c, now, n), key), n)
    decreases n
  {
    hide VisitOne, Stands;
    if n == 0 {
      NoTurns(c, key);
    } else {
      var c' := VisitOne(c, now);
      VisitOneApproach(c, now, key);
      var c'' := Visits(c', now, n - 1);
      if key in c'.order {
        ListedStands(c', key);
        VisitsApproach(c', now, n - 1, key);
      } else {
        GoneStaysGone(c', now, n - 1, key);
      }
      ApproachOn(Stands(c, key), Stands(c', key), Stands(c'', key), n - 1);
    }
  }

  lemma DistanceIsShort(c: Cache, key: Key)
    requires Valid(c) && key in c.order
    ensures Distance(c, key) < |c.order|
  {
  }

  /** A sample reaches the key, or brings the cursor sixteen elements closer. */
  lemma SampleApproaches(c: Cache, now: int, key: Key)
    requires Valid(c) && key in c.order && key in c.entries && Expired(c.entries[key], now)
    ensures var s, s' := Stands(c, key), Stands(Sample(c, now), key);
            s' == Gone || (s'.n <= s.n && s'.i <= s.i && s'.d + SAMPLE_SIZE == s.d)
  {
    hide Distance;
    DistanceIsShort(c, key);
    VisitsApproach(c, now, if SAMPLE_SIZE < |c.order| then SAMPLE_SIZE else |c.order|, key);
  }

  /** Another operation on the list: at most `pushed` elements longer; the key's
      index went down, or it stayed and the distance grew by at most `pushed`. */
  predicate Shifted(s: Standing, s': Standing, pushed: nat) {
    && s.Listed? && s'.Listed? && s'.n <= s.n + pushed && s'.d < s'.n
    && (s'.i < s.i || (s'.i == s.i && s'.d <= s.d + pushed))
  }

  lemma RemovedPosition(c: Cache, gone: Key)
    requires Valid(c) && gone in c.order
    ensures Valid(Remove(c, gone)) && |Remove(c, gone).order| == |c.order| - 1
    ensures var g, p := IndexOf(c.order, gone), Position(c);
            Position(Remove(c, gone)) == if g < p then p - 1 else if g == p && c.cursor.Some? && g + 1 == |c.order| then 0 else p
  {
    RemoveIsValid(c, gone);
    ValidIsDistinct(c);
    if c.cursor == Some(gone) {
      PassedPosition(c.(cursor := Next(c.order, gone)), gone);
    } else if c.cursor.Some? {
      IndexWithout(c.order, gone, c.cursor.value);
    }
  }

  lemma RemoveShifts(c: Cache, gone: Key, key: Key)
    requires Valid(c) && gone in c.order && key in c.order && gone != key
    ensures Valid(Remove(c, gone)) && Shifted(Stands(c, key), Stands(Remove(c, gone), key), 0)
  {
    hide Remove, IndexOf, Position;
    RemovedPosition(c, gone);
    RemovedIndex(c, gone, key);
  }

  lemma PutPosition(c: Cache, stored: Key, e: Entry)
    requires Valid(c)
    ensures Valid(Put(c, stored, e)) && |Put(c, stored, e).order| == |c.order| + if stored in c.order then 0 else 1
    ensures var p, p' := Position(c), Position(Put(c, stored, e));
            if stored !in c.order || c.cursor.None? then p' == p
            else
              var g := IndexOf(c.order, stored);
              p' == if g < p then p - 1 else if g == p then |c.order| - 1 else p
  {
    PutIsValid(c, stored, e);
    InOrder(c, stored);
    ValidIsDistinct(c);
    if c.cursor.Some? {
      if stored !in c.order {
        IndexAppend(c.order, stored, c.cursor.value);
      } else if c.cursor == Some(stored) {
        ValidIsDistinct(Put(c, stored, e));
        IndexIsUnique(Put(c, stored, e).order, |c.order| - 1);
      } else {
        IndexWithout(c.order, stored, c.cursor.value);
        IndexAppend(Without(c.order, stored), stored, c.cursor.value);
      }
    }
  }

  lemma PutIndex(c: Cache, stored: Key, e: Entry, key: Key)
    requires Valid(c) && key in c.order && stored != key
    ensures var order := Put(c, stored, e).order;
            key in order &&
            IndexOf(order, key) ==
            IndexOf(c.order, key) - if stored in c.order && IndexOf(c.order, stored) < IndexOf(c.order, key) then 1 else 0
  {
    if stored in c.order {
      ValidIsDistinct(c);
      IndexWithout(c.order, stored, key);
      IndexAppend(Without(c.order, stored), stored, key);
    } else {
      IndexAppend(c.order, stored, key);
    }
  }

  lemma PutShifts(c: Cache, stored: Key, e: Entry, key: Key)
    requires Valid(c) && key in c.order && stored != key
    ensures Valid(Put(c, stored, e)) && Shifted(Stands(c, key), Stands(Put(c, stored, e), key), 1)
  {
    hide Put, IndexOf, Position;
    PutPosition(c, stored, e);
    PutIndex(c, stored, e, key);
  }

  /** Fewer samples remain once the index is down, or the distance is down by 15. */
  lemma FuelDrops(i: nat, d: nat, n: nat, i': nat, d': nat, n': nat)
    requires n' <= n + 1 && ((i' < i && d' < n') || (i' == i && d' + 15 <= d))
    ensures Fuel(i', d', n') < Fuel(i, d, n)
  {
    if i' == i {
      FuelGrows(i, d - 15, n + 1, i', d', n');
    } else {
      FuelGrows(i - 1, n, n + 1, i', d', n');
    }
  }

  function FuelOf(s: Standing): nat {
    if s.Gone? then 0 else Fuel(s.i, s.d, s.n)
  }

  /** What a sample costs, with at most one push after it. */
  lemma SampledFuelDrops(s: Standing, s': Standing)
    requires s.Listed? && (s'.Listed? ==> s'.n <= s.n + 1 && s'.d < s'.n)
    requires s'.Listed? ==> s'.i < s.i || (s'.i == s.i && s'.d + 15 <= s.d)
    ensures FuelOf(s') < FuelOf(s)
  {
    if s'.Listed? {
      FuelDrops(s.i, s.d, s.n, s'.i, s'.d, s'.n);
    }
  }

  lemma ShiftedFuelKeeps(s: Standing, s': Standing)
    requires Shifted(s, s', 0)
    ensures FuelOf(s') <= FuelOf(s)
  {
    if s'.i == s.i {
      FuelGrows(s.i, s.d, s.n, s'.i, s'.d, s'.n);
    } else {
      FuelDrops(s.i, s.d, s.n, s'.i, s'.d, s'.n);
    }
  }

  /** The key stays as it is or goes: it is not stored again. */
  predicate OnlyRemoved(c: Cache, c': Cache, key: Key) {
    && (key in c'.order ==> key in c.order)
    && (key in c'.entries ==> key in c.entries && c'.entries[key] == c.entries[key])
  }

  lemma SampleOnlyRemoves(c: Cache, now: int, key: Key)
    requires Valid(c)
    ensures OnlyRemoved(c, Sample(c, now), key)
  {
    VisitsOnlyRemove(c, now, if SAMPLE_SIZE < |c.order| then SAMPLE_SIZE else |c.order|, key);
  }

  lemma DeleteOnlyRemoves(c: Cache, gone: Key, key: Key)
    requires Valid(c)
    ensures OnlyRemoved(c, Delete(c, gone), key)
  {
    InOrder(c, key);
    InOrder(Delete(c, gone), key);
  }

  /** Nothing expired under the key survives more samples than its fuel: a sample
      uses some up, and no other step adds any. */
  predicate Spends(s: Standing, s': Standing, sampled: bool) {
    FuelOf(s') <= FuelOf(s) && (sampled && s.Listed? ==> FuelOf(s') < FuelOf(s))
  }

  lemma SampleSpends(c: Cache, now: int, key: Key)
    requires Valid(c) && (key in c.entries ==> Expired(c.entries[key], now))
    ensures Spends(Stands(c, key), Stands(Sample(c, now), key), true)
  {
    hide Sample, Distance, IndexOf;
    InOrder(c, key);
    SampleOnlyRemoves(c, now, key);
    if key in c.order {
      SampleApproaches(c, now, key);
      if key in Sample(c, now).order {
        DistanceIsShort(Sample(c, now), key);
      }
      SampledFuelDrops(Stands(c, key), Stands(Sample(c, now), key));
    }
  }

  lemma DeletedIsGone(c: Cache, key: Key)
    requires Valid(c)
    ensures Stands(Delete(c, key), key) == Gone
  {
    InOrder(c, key);
    InOrder(Delete(c, key), key);
  }

  lemma DeleteSpends(c: Cache, gone: Key, key: Key)
    requires Valid(c)
    ensures Spends(Stands(c, key), Stands(Delete(c, gone), key), false)
  {
    hide Remove, Distance, IndexOf;
    InOrder(c, gone);
    InOrder(c, key);
    DeleteOnlyRemoves(c, gone, key);
    if gone in c.order && key in c.order && gone != key {
      RemoveShifts(c, gone, key);
      ShiftedFuelKeeps(Stands(c, key), Stands(Remove(c, gone), key));
    } else if gone == key {
      DeletedIsGone(c, key);
    }
  }

  lemma SetSpends(c: Cache, stored: Key, value: Value, ttl: nat, now: int, key: Key)
    requires Valid(c) && (key in c.entries ==> Expired(c.entries[key], now)) && stored != key
    ensures var c' := Set(c, 0, stored, value, ttl, now);
            OnlyRemoved(c, c', key) && Spends(Stands(c, key), Stands(c', key), true)
  {
    hide Sample, Put, Distance, IndexOf;
    var sampled := Sample(c, now);
    var e := NewEntry(value, ttl, now);
    SampleOnlyRemoves(c, now, key);
    PutIsValid(sampled, stored, e);
    PutOnlyRemoves(sampled, stored, e, key);
    InOrder(c, key);
    if key in c.order {
      SampleApproaches(c, now, key);
      if key in sampled.order {
        PutShifts(sampled, stored, e, key);
      }
      SampledFuelDrops(Stands(c, key), Stands(Put(sampled, stored, e), key));
    }
  }

  lemma PutOnlyRemoves(c: Cache, stored: Key, e: Entry, key: Key)
    requires Valid(c) && stored != key
    ensures OnlyRemoved(c, Put(c, stored, e), key)
  {
    PutIsValid(c, stored, e);
    InOrder(c, key);
    InOrder(Put(c, stored, e), key);
  }

  lemma {:induction false} PurgeSpends(c: Cache, now: int, ranged: seq<Key>, key: Key)
    requires Valid(c)
    ensures OnlyRemoved(c, PurgeIn(c, now, ranged), key)
    ensures Spends(Stands(c, key), Stands(PurgeIn(c, now, ranged), key), false)
  {
    hide Delete, Stands;
    if ranged != [] {
      var rest, last := ranged[..|ranged| - 1], ranged[|ranged| - 1];
      PurgeSpends(c, now, rest, key);
      DeleteOnlyRemoves(PurgeIn(c, now, rest), last, key);
      DeleteSpends(PurgeIn(c, now, rest), last, key);
    }
  }

  lemma LockedReadSpends(c: Cache, read: Key, now: int, key: Key)
    requires Valid(c) && (key in c.entries ==> Expired(c.entries[key], now))
    ensures var c' := GetLocked(c, read, now).1;
            OnlyRemoved(c, c', key) && Spends(Stands(c, key), Stands(c', key), true)
  {
    hide Sample, Delete, Stands;
    SampleOnlyRemoves(c, now, key);
    SampleSpends(c, now, key);
    DeleteOnlyRemoves(c, read, key);
    DeleteSpends(c, read, key);
    SampleOnlyRemoves(Delete(c, read), now, key);
    SampleSpends(Delete(c, read), now, key);
    GoneHasNoFuel(Stands(Delete(c, read), key));
  }

  lemma GoneHasNoFuel(s: Standing)
    ensures FuelOf(s) == 0 <==> s == Gone
  {
  }

  lemma ClaimSpends(c: Cache, stored: Key, value: Value, ttl: nat, now: int, key: Key)
    requires Valid(c) && (key in c.entries ==> Expired(c.entries[key], now)) && stored != key
    ensures var (taken, c') := Add(c, 0, stored, value, ttl, now);
            OnlyRemoved(c, c', key) && Spends(Stands(c, key), Stands(c', key), taken)
  {
    hide Set, Delete, Stands;
    DeleteOnlyRemoves(c, stored, key);
    DeleteSpends(c, stored, key);
    SetSpends(Delete(c, stored), stored, value, ttl, now, key);
    GoneHasNoFuel(Stands(Delete(c, stored), key));
  }

  predicate Stores(e: Event, key: Key) {
    (e.Write? || e.Claim?) && e.key == key
  }

  /** The events that clean a sample: writes, claims that succeed and reads that
      took the exclusive lock. */
  predicate Samples(e: Event, reply: Reply) {
    e.Write? || e.Resume? || (e.Claim? && reply == Added(true))
  }

  lemma StepSpends(s: System, e: Event, key: Key)
    requires Valid(s.cache) && Enabled(s, e) && !Stores(e, key)
    requires key in s.cache.entries ==> Expired(s.cache.entries[key], s.clock)
    ensures var (s', reply) := Step(s, e);
            && OnlyRemoved(s.cache, s'.cache, key)
            && Spends(Stands(s.cache, key), Stands(s'.cache, key), Samples(e, reply))
  {
    hide Set, Add, Delete, PurgeIn, GetLocked, Stands;
    match e
    case Read(_, _, _) =>
    case Resume(reader, now) => LockedReadSpends(s.cache, s.pending[reader], now, key);
    case Write(stored, value, ttl, now) => SetSpends(s.cache, stored, value, ttl, now, key);
    case Claim(stored, value, ttl, now) => ClaimSpends(s.cache, stored, value, ttl, now, key);
    case Drop(gone, _) =>
      DeleteOnlyRemoves(s.cache, gone, key);
      DeleteSpends(s.cache, gone, key);
    case Purge(ranged, now) => PurgeSpends(s.cache, now, ranged, key);
  }

  /** How many of the first n events of a run cleaned a sample. */
  function SampleCount(run: seq<Moment>, n: nat): nat
    requires n <= |run|
  {
    if n == 0 then 0
    else SampleCount(run, n - 1) + if Samples(run[n - 1].event, run[n - 1].reply) then 1 else 0
  }

  lemma {:induction false} RunSpends(run: seq<Moment>, key: Key, n: nat)
    requires IsRun(run) && n < |run|
    requires forall i :: 0 <= i < |run| ==> !Stores(run[i].event, key)
    requires key in run[0].before.cache.entries ==> Expired(run[0].before.cache.entries[key], run[0].before.clock)
    ensures OnlyRemoved(run[0].before.cache, run[n].after.cache, key) && run[0].before.clock <= run[n].after.clock
    ensures Valid(run[n].after.cache)
    ensures var left := FuelOf(Stands(run[n].after.cache, key));
            left == 0 || left + SampleCount(run, n + 1) <= FuelOf(Stands(run[0].before.cache, key))
  {
    hide Step, Stands;
    if n > 0 {
      RunSpends(run, key, n - 1);
      assert run[n].before == run[n - 1].after;
    }
    ClockOfStep(run[n].before, run[n].event);
    StepSpends(run[n].before, run[n].event, key);
    GoneHasNoFuel(Stands(run[n].before.cache, key));
  }

  lemma ClockOfStep(s: System, e: Event)
    requires Enabled(s, e) && Valid(s.cache)
    ensures Step(s, e).0.clock == e.now
  {
  }

  /** Cleanup coverage: an expired key that is not stored again is gone once its
      fuel in samples has been spent, over every run. */
  lemma ExpiredKeyIsReclaimed(run: seq<Moment>, key: Key)
    requires IsRun(run) && run != []
    requires var s := run[0].before; key in s.cache.entries ==> Expired(s.cache.entries[key], s.clock)
    requires forall i :: 0 <= i < |run| ==> !Stores(run[i].event, key)
    requires SampleCount(run, |run|) >= FuelOf(Stands(run[0].before.cache, key))
    ensures key !in run[|run| - 1].after.cache.entries
  {
    hide Step, Stands;
    var end := run[|run| - 1].after.cache;
    RunSpends(run, key, |run| - 1);
    GoneHasNoFuel(Stands(end, key));
    GoneIsNotStored(end, key);
    GoneIsNotStored(run[0].before.cache, key);
    GoneHasNoFuel(Stands(run[0].before.cache, key));
  }

  lemma GoneIsNotStored(c: Cache, key: Key)
    requires Valid(c)
    ensures Stands(c, key) == Gone <==> key !in c.entries
  {
    InOrder(c, key);
  }
}
