/**
  Cleanup on a bounded cache (cache/memory.go). Hits reorder the list without
  cleaning a sample, but as long as the budget is at most one more than a sample,
  the second sample always reaches an expired key. CleanupStarvation shows that this
  is the exact boundary.
  */
module CleanupCoverage {
  import opened Wrappers
  import opened Sequences
  import opened CacheSpec
  import opened LeastRecentlyUsed
  import opened Cleanup

  /** The cache after these operations. */
  function End(c: Cache, maxEntries: int, ops: seq<Op>): (c': Cache)
    requires Valid(c)
    ensures Valid(c')
  {
    if ops == [] then c
    else Apply(End(c, maxEntries, ops[..|ops| - 1]), maxEntries, ops[|ops| - 1])
  }

  /** The operations that clean a sample: misses, writes and claims that succeed. */
  predicate Samples(c: Cache, op: Op) {
    match op
    case Get(key, now) => Live(c.entries, key, now).None?
    case Write(_, _, _, _) => true
    case Claim(key, _, _, now) => Live(c.entries, key, now).None?
    case _ => false
  }

  /** How many of these operations cleaned a sample. */
  function SampleCount(c: Cache, maxEntries: int, ops: seq<Op>): nat
    requires Valid(c)
  {
    if ops == [] then 0
    else
      var rest, last := ops[..|ops| - 1], ops[|ops| - 1];
      SampleCount(c, maxEntries, rest) + if Samples(End(c, maxEntries, rest), last) then 1 else 0
  }

  predicate Stores(op: Op, key: Key) {
    (op.Write? || op.Claim?) && op.key == key
  }

  /** A key whose entry, if it has one, is expired whenever an operation happens, and
      which no operation stores. */
  ghost predicate Neglected(c: Cache, ops: seq<Op>, key: Key) {
    forall i :: 0 <= i < |ops| ==>
      !Stores(ops[i], key) && (key in c.entries ==> Expired(c.entries[key], ops[i].now))
  }

  /** A run is what its operations make of its first cache. */
  lemma {:induction false} RunEnds(caches: seq<Cache>, maxEntries: int, ops: seq<Op>, i: nat)
    requires IsRun(caches, maxEntries, ops) && i <= |ops|
    ensures caches[i] == End(caches[0], maxEntries, ops[..i])
  {
    hide Apply;
    if i > 0 {
      RunEnds(caches, maxEntries, ops, i - 1);
      assert Follows(caches[i - 1], maxEntries, ops[i - 1], caches[i]);
      assert ops[..i][..i - 1] == ops[..i - 1];
    } else {
      assert ops[..0] == [];
    }
  }

  lemma {:induction false} EndFits(c: Cache, maxEntries: int, ops: seq<Op>)
    requires Valid(c) && maxEntries > 0 && |c.order| <= maxEntries
    ensures |End(c, maxEntries, ops).order| <= maxEntries
  {
    hide Apply;
    if ops != [] {
      EndFits(c, maxEntries, ops[..|ops| - 1]);
      ApplyFits(End(c, maxEntries, ops[..|ops| - 1]), maxEntries, ops[|ops| - 1]);
    }
  }

  /** Next to be looked at: under the cursor, or in front when the sample starts there. */
  predicate Pinned(c: Cache, key: Key) {
    c.cursor == Some(key) || (c.cursor.None? && c.order != [] && c.order[0] == key)
  }

  lemma PinnedIsNext(c: Cache, key: Key)
    requires Valid(c) && key in c.order
    ensures Pinned(c, key) <==> Distance(c, key) == 0
  {
    ValidIsDistinct(c);
    IndexIsUnique(c.order, 0);
    if c.cursor.Some? && Distance(c, key) == 0 {
      assert c.order[Position(c)] == c.order[IndexOf(c.order, key)];
    }
  }

  /** What a sample of the loop does to an expired key: it reaches the key if it was
      next, and if it does not, it leaves it next when the list is short. */
  lemma SamplePins(c: Cache, now: int, key: Key)
    requires Valid(c) && |c.order| <= SAMPLE_SIZE + 1 && (key in c.entries ==> Expired(c.entries[key], now))
    ensures var c' := Sample(c, now);
            && OnlyRemoved(c, c', key) && |c'.order| <= |c.order|
            && (key in c'.order ==> Pinned(c', key) && !Pinned(c, key) && |c.order| == SAMPLE_SIZE + 1)
  {
    hide Sample, Distance, Pinned;
    SampleFits(c, now);
    SampleOnlyRemoves(c, now, key);
    InOrder(c, key);
    if key in c.order && key in Sample(c, now).order {
      SampleApproaches(c, now, key);
      DistanceIsShort(c, key);
      PinnedIsNext(c, key);
      PinnedIsNext(Sample(c, now), key);
    }
  }

  lemma RemoveKeepsPinned(c: Cache, gone: Key, key: Key)
    requires Valid(c) && gone in c.order && gone != key && Pinned(c, key)
    ensures Pinned(Remove(c, gone), key)
  {
    if c.cursor.None? {
      var i := IndexOf(c.order, gone);
      assert Without(c.order, gone)[0] == key;
    }
  }

  lemma PutKeepsPinned(c: Cache, stored: Key, e: Entry, key: Key)
    requires Valid(c) && stored != key && Pinned(c, key)
    ensures Pinned(Put(c, stored, e), key)
  {
    if c.cursor.None? && stored in c.order {
      var i := IndexOf(c.order, stored);
      assert Without(c.order, stored)[0] == key;
    }
  }

  lemma DeleteKeepsPinned(c: Cache, gone: Key, key: Key)
    requires Valid(c) && (key in c.order ==> Pinned(c, key))
    ensures var c' := Delete(c, gone); OnlyRemoved(c, c', key) && (key in c'.order ==> Pinned(c', key))
  {
    hide Remove, Pinned;
    InOrder(c, gone);
    DeleteOnlyRemoves(c, gone, key);
    if gone in c.order && gone != key && key in c.order {
      RemoveKeepsPinned(c, gone, key);
    } else if gone == key {
      DeletedIsGone(c, key);
    }
  }

  lemma {:induction false} EvictKeepsPinned(c: Cache, maxEntries: int, key: Key)
    requires Valid(c)
    ensures var c' := Evict(c, maxEntries);
            OnlyRemoved(c, c', key) && (Pinned(c, key) && key in c'.order ==> Pinned(c', key))
    decreases |c.order|
  {
    hide Remove, Pinned;
    if maxEntries > 0 && |c.order| > maxEntries {
      var front := c.order[0];
      var rest := Delete(c, front);
      InOrder(c, front);
      RemoveIsValid(c, front);
      DeleteOnlyRemoves(c, front, key);
      EvictKeepsPinned(rest, maxEntries, key);
      if front == key {
        DeletedIsGone(c, key);
      } else if Pinned(c, key) {
        RemoveKeepsPinned(c, front, key);
      }
    }
  }

  lemma {:induction false} PurgeKeepsPinned(c: Cache, now: int, ranged: seq<Key>, key: Key)
    requires Valid(c) && (key in c.order ==> Pinned(c, key))
    ensures var c' := PurgeIn(c, now, ranged); OnlyRemoved(c, c', key) && (key in c'.order ==> Pinned(c', key))
  {
    hide Delete, Pinned;
    if ranged != [] {
      var rest := ranged[..|ranged| - 1];
      PurgeKeepsPinned(c, now, rest, key);
      DeleteKeepsPinned(PurgeIn(c, now, rest), ranged[|ranged| - 1], key);
    }
  }

  /** What one operation does to a neglected key: it stores nothing; if it samples, a
      key that was next goes and any other is next; if it does not, a key that was
      next stays next. */
  ghost predicate Covers(c: Cache, c': Cache, key: Key, sampled: bool) {
    && OnlyRemoved(c, c', key)
    && (key in c'.order && Pinned(c, key) ==> Pinned(c', key) && !sampled)
    && (key in c'.order && sampled ==> Pinned(c', key))
  }

  lemma SetCovers(c: Cache, maxEntries: int, stored: Key, value: Value, ttl: nat, now: int, key: Key)
    requires Valid(c) && |c.order| <= SAMPLE_SIZE + 1 && stored != key
    requires key in c.entries ==> Expired(c.entries[key], now)
    ensures Covers(c, Set(c, maxEntries, stored, value, ttl, now), key, true)
  {
    hide Sample, Put, Pinned, Evict;
    var sampled, e := Sample(c, now), NewEntry(value, ttl, now);
    SamplePins(c, now, key);
    PutIsValid(sampled, stored, e);
    PutOnlyRemoves(sampled, stored, e, key);
    if Pinned(sampled, key) {
      PutKeepsPinned(sampled, stored, e, key);
    }
    EvictKeepsPinned(Put(sampled, stored, e), maxEntries, key);
  }

  lemma ReadCovers(c: Cache, read: Key, now: int, key: Key)
    requires Valid(c) && |c.order| <= SAMPLE_SIZE + 1
    requires key in c.entries ==> Expired(c.entries[key], now)
    ensures Covers(c, GetAndPromote(c, read, now).1, key, Live(c.entries, read, now).None?)
  {
    hide Sample, Put, Pinned, Delete;
    if Live(c.entries, read, now).Some? {
      PutOnlyRemoves(c, read, c.entries[read], key);
      if Pinned(c, key) {
        PutKeepsPinned(c, read, c.entries[read], key);
      }
    } else {
      DeletedCovers(c, read, key);
      SamplePins(Delete(c, read), now, key);
    }
  }

  lemma DeletedCovers(c: Cache, gone: Key, key: Key)
    requires Valid(c)
    ensures Covers(c, Delete(c, gone), key, false) && |Delete(c, gone).order| <= |c.order|
  {
    hide Pinned, Delete;
    DeleteFits(c, gone);
    DeleteOnlyRemoves(c, gone, key);
    if Pinned(c, key) {
      DeleteKeepsPinned(c, gone, key);
    }
  }

  lemma ApplyCovers(c: Cache, maxEntries: int, op: Op, key: Key)
    requires Valid(c) && |c.order| <= SAMPLE_SIZE + 1 && !Stores(op, key)
    requires key in c.entries ==> Expired(c.entries[key], op.now)
    ensures Covers(c, Apply(c, maxEntries, op), key, Samples(c, op))
  {
    hide Set, GetAndPromote, Delete, PurgeIn, Pinned;
    match op
    case Get(read, now) => ReadCovers(c, read, now, key);
    case Write(stored, value, ttl, now) => SetCovers(c, maxEntries, stored, value, ttl, now, key);
    case Claim(stored, value, ttl, now) =>
      if Live(c.entries, stored, now).None? {
        DeletedCovers(c, stored, key);
        SetCovers(Delete(c, stored), maxEntries, stored, value, ttl, now, key);
      }
    case Drop(gone, _) => DeletedCovers(c, gone, key);
    case Purge(ranged, now) => PurgeCovers(c, now, ranged, key);
  }

  lemma PurgeCovers(c: Cache, now: int, ranged: seq<Key>, key: Key)
    requires Valid(c)
    ensures Covers(c, PurgeIn(c, now, ranged), key, false)
  {
    hide PurgeIn, Pinned;
    PurgeSpends(c, now, ranged, key);
    if Pinned(c, key) {
      PurgeKeepsPinned(c, now, ranged, key);
    }
  }

  /** After one sample a neglected key is next, after two it is gone. */
  lemma {:induction false} SecondSampleReclaims(c: Cache, maxEntries: int, ops: seq<Op>, key: Key)
    requires Valid(c) && 0 < maxEntries <= SAMPLE_SIZE + 1 && |c.order| <= maxEntries && Neglected(c, ops, key)
    ensures var c', samples := End(c, maxEntries, ops), SampleCount(c, maxEntries, ops);
            && OnlyRemoved(c, c', key)
            && (key in c'.order && samples >= 1 ==> Pinned(c', key))
            && (samples >= 2 ==> key !in c'.order)
  {
    hide Apply, Pinned;
    if ops != [] {
      var rest, last := ops[..|ops| - 1], ops[|ops| - 1];
      assert Neglected(c, rest, key) by {
        assert forall i :: 0 <= i < |rest| ==> rest[i] == ops[i];
      }
      SecondSampleReclaims(c, maxEntries, rest, key);
      EndFits(c, maxEntries, rest);
      ApplyCovers(End(c, maxEntries, rest), maxEntries, last, key);
    }
  }

  /** Coverage, in every run of a cache bounded by 17 or less: a key that is expired
      from some moment on and not stored again is gone after two more samples. */
  lemma SmallCacheReclaims(caches: seq<Cache>, maxEntries: int, ops: seq<Op>, key: Key)
    requires IsRun(caches, maxEntries, ops) && maxEntries <= SAMPLE_SIZE + 1
    requires Neglected(caches[0], ops, key) && SampleCount(caches[0], maxEntries, ops) >= 2
    ensures key !in caches[|ops|].entries
  {
    hide Apply, Neglected;
    assert ops[..|ops|] == ops;
    RunEnds(caches, maxEntries, ops, |ops|);
    SecondSampleReclaims(caches[0], maxEntries, ops, key);
    InOrder(caches[|ops|], key);
  }
}
