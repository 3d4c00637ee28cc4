/**
  The bounded cache (cache/memory.go): the budget is kept, a write never evicts
  its own key, and eviction takes the least recently used key.
  */
module LeastRecentlyUsed {
  import opened Wrappers
  import opened Sequences
  import opened CacheSpec

  datatype Op =
    | Get(key: Key, now: int)
    | Write(key: Key, value: Value, ttl: nat, now: int)
    | Claim(key: Key, value: Value, ttl: nat, now: int)
    | Drop(key: Key, now: int)
    | Purge(ranged: seq<Key>, now: int)

  function Apply(c: Cache, maxEntries: int, op: Op): (c': Cache)
    requires Valid(c)
    ensures Valid(c')
  {
    match op
    case Get(key, now) => GetAndPromote(c, key, now).1
    case Write(key, value, ttl, now) => Set(c, maxEntries, key, value, ttl, now)
    case Claim(key, value, ttl, now) => Add(c, maxEntries, key, value, ttl, now).1
    case Drop(key, _) => Delete(c, key)
    case Purge(ranged, now) => PurgeIn(c, now, ranged)
  }

  /** The key an operation uses: one it stores, or one it finds. */
  function Used(c: Cache, op: Op): set<Key> {
    match op
    case Get(key, now) => if Live(c.entries, key, now).Some? then {key} else {}
    case Write(key, _, _, _) => {key}
    case Claim(key, _, _, now) => if Live(c.entries, key, now).None? then {key} else {}
    case _ => {}
  }

  /** Consecutive caches of a run, from a cache within its budget. */
  ghost predicate IsRun(caches: seq<Cache>, maxEntries: int, ops: seq<Op>) {
    && maxEntries > 0 && |caches| == |ops| + 1
    && Valid(caches[0]) && |caches[0].order| <= maxEntries
    && (forall i, j :: 0 <= i < |ops| && j == i + 1 ==> Follows(caches[i], maxEntries, ops[i], caches[j]))
  }

  ghost predicate Follows(c: Cache, maxEntries: int, op: Op, c': Cache) {
    Valid(c) && c' == Apply(c, maxEntries, op)
  }

  // ----- the budget

  lemma {:induction false} EvictFits(c: Cache, maxEntries: int)
    requires Valid(c) && maxEntries > 0
    ensures |Evict(c, maxEntries).order| <= maxEntries
    decreases |c.order|
  {
    hide Remove;
    if |c.order| > maxEntries {
      RemoveIsValid(c, c.order[0]);
      EvictFits(Remove(c, c.order[0]), maxEntries);
    }
  }

  lemma {:induction false} VisitsFit(c: Cache, now: int, n: nat)
    requires Valid(c)
    ensures |Visits(c, now, n).order| <= |c.order|
    decreases n
  {
    hide VisitOne;
    if n > 0 && c.order != [] {
      VisitOneIsValid(c, now);
      VisitsFit(VisitOne(c, now), now, n - 1);
    }
  }

  lemma DeleteFits(c: Cache, key: Key)
    requires Valid(c)
    ensures |Delete(c, key).order| <= |c.order|
  {
    hide Remove;
    InOrder(c, key);
    if key in c.order {
      RemoveIsValid(c, key);
    }
  }

  lemma {:induction false} PurgeFits(c: Cache, now: int, ranged: seq<Key>)
    requires Valid(c)
    ensures |PurgeIn(c, now, ranged).order| <= |c.order|
  {
    hide Delete;
    if ranged != [] {
      PurgeFits(c, now, ranged[..|ranged| - 1]);
      DeleteFits(PurgeIn(c, now, ranged[..|ranged| - 1]), ranged[|ranged| - 1]);
    }
  }

  lemma SampleFits(c: Cache, now: int)
    requires Valid(c)
    ensures |Sample(c, now).order| <= |c.order|
  {
    VisitsFit(c, now, if SAMPLE_SIZE < |c.order| then SAMPLE_SIZE else |c.order|);
  }

  lemma ApplyFits(c: Cache, maxEntries: int, op: Op)
    requires Valid(c) && maxEntries > 0 && |c.order| <= maxEntries
    ensures |Apply(c, maxEntries, op).order| <= maxEntries
  {
    hide Put, Sample, Evict, Delete;
    match op
    case Get(key, now) =>
      if Live(c.entries, key, now).Some? {
        PutIsValid(c, key, c.entries[key]);
      } else {
        DeleteFits(c, key);
        SampleFits(Delete(c, key), now);
      }
    case Write(key, value, ttl, now) =>
      SetFits(c, maxEntries, key, value, ttl, now);
    case Claim(key, value, ttl, now) =>
      SetFits(Delete(c, key), maxEntries, key, value, ttl, now);
    case Drop(key, _) => DeleteFits(c, key);
    case Purge(ranged, now) => PurgeFits(c, now, ranged);
  }

  lemma SetFits(c: Cache, maxEntries: int, key: Key, value: Value, ttl: nat, now: int)
    requires Valid(c) && maxEntries > 0
    ensures |Set(c, maxEntries, key, value, ttl, now).order| <= maxEntries
  {
    hide Put, Sample, Evict;
    PutIsValid(Sample(c, now), key, NewEntry(value, ttl, now));
    EvictFits(Put(Sample(c, now), key, NewEntry(value, ttl, now)), maxEntries);
  }

  /** The bound, over every run. */
  lemma {:induction false} BudgetIsKept(caches: seq<Cache>, maxEntries: int, ops: seq<Op>, i: nat)
    requires IsRun(caches, maxEntries, ops) && i < |caches|
    ensures Valid(caches[i]) && |caches[i].order| <= maxEntries
  {
    hide Apply;
    if i > 0 {
      BudgetIsKept(caches, maxEntries, ops, i - 1);
      assert Follows(caches[i - 1], maxEntries, ops[i - 1], caches[i]);
      ApplyFits(caches[i - 1], maxEntries, ops[i - 1]);
    }
  }

  // ----- recency

  /** The keys behind a key in the list. */
  function Behind(order: seq<Key>, key: Key): set<Key>
    requires key in order
  {
    Elements(order[IndexOf(order, key) + 1..])
  }

  lemma BehindWithout(order: seq<Key>, gone: Key, key: Key)
    requires NoDuplicates(order) && gone in order && key in order && gone != key
    ensures key in Without(order, gone) && Behind(Without(order, gone), key) <= Behind(order, key)
  {
    IndexWithout(order, gone, key);
    var g, k := IndexOf(order, gone), IndexOf(order, key);
    var shorter := Without(order, gone);
    var k' := IndexOf(shorter, key);
    var tail, tail' := order[k + 1..], shorter[k' + 1..];
    forall x | x in tail' ensures x in tail {
      var q :| k' + 1 <= q < |shorter| && shorter[q] == x;
      assert order[if q < g then q else q + 1] == x;
    }
  }

  lemma BehindAppend(order: seq<Key>, stored: Key, key: Key)
    requires key in order
    ensures key in order + [stored] && Behind(order + [stored], key) == Behind(order, key) + {stored}
  {
    IndexAppend(order, stored, key);
    var k := IndexOf(order, key);
    assert (order + [stored])[k + 1..] == order[k + 1..] + [stored];
    ElementsAppend(order[k + 1..], stored);
  }

  /** Every key behind this one has been used since it was: they are all in `used`. */
  ghost predicate Recent(c: Cache, key: Key, used: set<Key>) {
    key in c.order ==> Behind(c.order, key) <= used
  }

  lemma RemoveKeepsRecent(c: Cache, gone: Key, key: Key, used: set<Key>)
    requires Valid(c) && gone in c.order && Recent(c, key, used)
    ensures Valid(Remove(c, gone)) && Recent(Remove(c, gone), key, used)
    ensures key in Remove(c, gone).order <==> key in c.order && key != gone
  {
    hide Behind;
    RemoveIsValid(c, gone);
    ValidIsDistinct(c);
    InOrder(c, key);
    InOrder(Remove(c, gone), key);
    if key in c.order && key != gone {
      BehindWithout(c.order, gone, key);
    }
  }

  lemma VisitOneKeepsRecent(c: Cache, now: int, key: Key, used: set<Key>)
    requires Valid(c) && c.order != [] && Recent(c, key, used)
    ensures Valid(VisitOne(c, now)) && Recent(VisitOne(c, now), key, used)
    ensures key in c.entries && !Expired(c.entries[key], now) ==>
              key in VisitOne(c, now).entries && VisitOne(c, now).entries[key] == c.entries[key]
    ensures key in VisitOne(c, now).order ==> key in c.order
  {
    hide Behind, Without;
    var visited := Visited(c);
    InOrder(c, visited);
    VisitOneIsValid(c, now);
    RemoveKeepsRecent(c.(cursor := Next(c.order, visited)), visited, key, used);
  }

  lemma {:induction false} VisitsKeepRecent(c: Cache, now: int, n: nat, key: Key, used: set<Key>)
    requires Valid(c) && Recent(c, key, used)
    ensures Recent(Visits(c, now, n), key, used)
    ensures key in c.entries && !Expired(c.entries[key], now) ==> key in Visits(c, now, n).entries
    ensures key in Visits(c, now, n).order ==> key in c.order
    decreases n
  {
    hide VisitOne, Recent;
    if n > 0 && c.order != [] {
      VisitOneKeepsRecent(c, now, key, used);
      VisitsKeepRecent(VisitOne(c, now), now, n - 1, key, used);
    }
  }

  lemma SampleKeepsRecent(c: Cache, now: int, key: Key, used: set<Key>)
    requires Valid(c) && Recent(c, key, used)
    ensures Recent(Sample(c, now), key, used)
    ensures key in c.entries && !Expired(c.entries[key], now) ==> key in Sample(c, now).order
    ensures key in Sample(c, now).order ==> key in c.order
  {
    hide Recent;
    InOrder(Sample(c, now), key);
    VisitsKeepRecent(c, now, if SAMPLE_SIZE < |c.order| then SAMPLE_SIZE else |c.order|, key, used);
  }

  /** Using another key puts it behind this one; using this key leaves nothing behind it. */
  lemma PutKeepsRecent(c: Cache, stored: Key, e: Entry, key: Key, used: set<Key>)
    requires Valid(c) && (stored != key ==> Recent(c, key, used))
    ensures Valid(Put(c, stored, e)) && Recent(Put(c, stored, e), key, if stored == key then {} else used + {stored})
    ensures key in Put(c, stored, e).order <==> key in c.order || key == stored
  {
    PutIsValid(c, stored, e);
    InOrder(c, key);
    InOrder(Put(c, stored, e), key);
    ValidIsDistinct(Put(c, stored, e));
    if stored == key {
      var order := Put(c, stored, e).order;
      IndexIsUnique(order, |order| - 1);
    } else if key in c.order {
      BehindOfPut(c, stored, e, key);
    }
  }

  lemma BehindOfPut(c: Cache, stored: Key, e: Entry, key: Key)
    requires Valid(c) && stored != key && key in c.order
    ensures var order := Put(c, stored, e).order;
            key in order && Behind(order, key) <= Behind(c.order, key) + {stored}
  {
    hide Behind;
    if stored in c.order {
      ValidIsDistinct(c);
      BehindWithout(c.order, stored, key);
      BehindAppend(Without(c.order, stored), stored, key);
    } else {
      BehindAppend(c.order, stored, key);
    }
  }

  /** The front of an overfull list has at least the whole budget behind it. */
  lemma FrontIsOld(c: Cache, maxEntries: int, used: set<Key>)
    requires Valid(c) && maxEntries > 0 && |c.order| > maxEntries && Recent(c, c.order[0], used)
    ensures |used| >= maxEntries
  {
    ValidIsDistinct(c);
    IndexIsUnique(c.order, 0);
    var others := Elements(c.order[1..]);
    assert c.order == [c.order[0]] + c.order[1..];
    PrependDistinct(c.order[0], c.order[1..]);
    DistinctBySize(c.order[1..]);
    assert others <= used;
    SubsetIsSmaller(others, used);
  }

  /** Eviction keeps a key unless at least as many others as the budget were used since. */
  lemma {:induction false} EvictKeepsRecent(c: Cache, maxEntries: int, key: Key, used: set<Key>)
    requires Valid(c) && maxEntries > 0 && Recent(c, key, used)
    ensures Recent(Evict(c, maxEntries), key, used)
    ensures key in c.order && key !in Evict(c, maxEntries).order ==> |used| >= maxEntries
    ensures key in Evict(c, maxEntries).order ==> key in c.order
    decreases |c.order|
  {
    hide Remove, Recent;
    if |c.order| > maxEntries {
      var front := c.order[0];
      if front == key {
        FrontIsOld(c, maxEntries, used);
      }
      RemoveIsValid(c, front);
      RemoveKeepsRecent(c, front, key, used);
      EvictKeepsRecent(Remove(c, front), maxEntries, key, used);
    }
  }

  lemma SetKeepsRecent(c: Cache, maxEntries: int, stored: Key, value: Value, ttl: nat, now: int, key: Key, used: set<Key>)
    requires Valid(c) && maxEntries > 0 && Recent(c, key, used)
    ensures var c', used' := Set(c, maxEntries, stored, value, ttl, now), if stored == key then {} else used + {stored};
            && Recent(c', key, used')
            && (key in c'.order ==> key in c.order || key == stored)
            && (stored == key ==> key in c'.order)
            && (key in c.entries && !Expired(c.entries[key], now) && key !in c'.order ==> |used'| >= maxEntries)
  {
    hide Put, Sample, Evict, Recent;
    var e := NewEntry(value, ttl, now);
    SampleKeepsRecent(c, now, key, used);
    PutKeepsRecent(Sample(c, now), stored, e, key, used);
    EvictKeepsRecent(Put(Sample(c, now), stored, e), maxEntries, key, if stored == key then {} else used + {stored});
  }

  lemma DeleteKeepsRecent(c: Cache, gone: Key, key: Key, used: set<Key>)
    requires Valid(c) && Recent(c, key, used)
    ensures Recent(Delete(c, gone), key, used)
    ensures key in Delete(c, gone).order <==> key in c.order && key != gone
  {
    hide Remove, Recent;
    InOrder(c, gone);
    if gone in c.order {
      RemoveKeepsRecent(c, gone, key, used);
    }
  }

  lemma {:induction false} PurgeKeepsRecent(c: Cache, now: int, ranged: seq<Key>, key: Key, used: set<Key>)
    requires Valid(c) && Recent(c, key, used)
    ensures Recent(PurgeIn(c, now, ranged), key, used)
    ensures key in PurgeIn(c, now, ranged).order ==> key in c.order
  {
    hide Delete, Recent;
    if ranged != [] {
      var rest := ranged[..|ranged| - 1];
      PurgeKeepsRecent(c, now, rest, key, used);
      DeleteKeepsRecent(PurgeIn(c, now, rest), ranged[|ranged| - 1], key, used);
    }
  }

  /** A write never evicts its own key. */
  lemma WriteKeepsItsKey(c: Cache, maxEntries: int, key: Key, value: Value, ttl: nat, now: int)
    requires Valid(c) && maxEntries > 0
    ensures key in Set(c, maxEntries, key, value, ttl, now).order
  {
    hide Set, Recent;
    EverythingIsRecent(c, key);
    SetKeepsRecent(c, maxEntries, key, value, ttl, now, key, Elements(c.order));
  }

  lemma EverythingIsRecent(c: Cache, key: Key)
    ensures Recent(c, key, Elements(c.order))
  {
  }

  lemma MissKeepsRecent(c: Cache, read: Key, now: int, key: Key, used: set<Key>)
    requires Valid(c) && Recent(c, key, used) && Live(c.entries, read, now).None?
    ensures var c' := GetAndPromote(c, read, now).1;
            && Recent(c', key, used) && (key in c'.order ==> key in c.order)
            && (Live(c.entries, key, now).Some? ==> key in c'.order)
  {
    hide Sample, Recent;
    DeleteKeepsRecent(c, read, key, used);
    SampleKeepsRecent(Delete(c, read), now, key, used);
  }

  lemma ClaimKeepsRecent(c: Cache, maxEntries: int, stored: Key, value: Value, ttl: nat, now: int,
                         key: Key, used: set<Key>)
    requires Valid(c) && maxEntries > 0 && Recent(c, key, used) && stored != key
    requires Live(c.entries, stored, now).None?
    ensures var c' := Add(c, maxEntries, stored, value, ttl, now).1;
            && Recent(c', key, used + {stored}) && (key in c'.order ==> key in c.order)
            && (Live(c.entries, key, now).Some? && key !in c'.order ==> |used + {stored}| >= maxEntries)
  {
    hide Set, Recent;
    DeleteKeepsRecent(c, stored, key, used);
    SetKeepsRecent(Delete(c, stored), maxEntries, stored, value, ttl, now, key, used);
  }

  lemma PurgeKeepsLive(c: Cache, now: int, ranged: seq<Key>, key: Key)
    requires Valid(c) && Live(c.entries, key, now).Some?
    ensures key in PurgeIn(c, now, ranged).order
  {
    PurgeInRemoves(c, now, ranged);
    InOrder(PurgeIn(c, now, ranged), key);
  }

  lemma ApplyKeepsRecent(c: Cache, maxEntries: int, op: Op, key: Key, used: set<Key>)
    requires Valid(c) && maxEntries > 0 && Recent(c, key, used) && key !in Used(c, op)
    ensures var c', used' := Apply(c, maxEntries, op), used + Used(c, op);
            && Recent(c', key, used') && (key in c'.order ==> key in c.order)
            && (Live(c.entries, key, op.now).Some? && op != Drop(key, op.now) && key !in c'.order ==>
                  |used'| >= maxEntries)
  {
    hide Set, Add, Delete, PurgeIn, Put, Sample, Recent;
    InOrder(c, key);
    assert used + {} == used;
    match op
    case Get(read, now) =>
      if Live(c.entries, read, now).Some? {
        PutKeepsRecent(c, read, c.entries[read], key, used);
      } else {
        MissKeepsRecent(c, read, now, key, used);
      }
    case Write(stored, value, ttl, now) =>
      SetKeepsRecent(c, maxEntries, stored, value, ttl, now, key, used);
    case Claim(stored, value, ttl, now) =>
      if Live(c.entries, stored, now).None? {
        ClaimKeepsRecent(c, maxEntries, stored, value, ttl, now, key, used);
      } else {
        LiveIsNotClaimed(c, maxEntries, stored, value, ttl, now);
      }
    case Drop(gone, _) =>
      DeleteKeepsRecent(c, gone, key, used);
    case Purge(ranged, now) =>
      PurgeKeepsRecent(c, now, ranged, key, used);
      if Live(c.entries, key, now).Some? {
        PurgeKeepsLive(c, now, ranged, key);
      }
  }

  lemma LiveIsNotClaimed(c: Cache, maxEntries: int, key: Key, value: Value, ttl: nat, now: int)
    requires Valid(c) && Live(c.entries, key, now).Some?
    ensures Add(c, maxEntries, key, value, ttl, now) == (false, c)
  {
  }

  /** A use moves the key behind every other. */
  lemma UseMakesRecent(c: Cache, maxEntries: int, op: Op, key: Key)
    requires Valid(c) && maxEntries > 0 && key in Used(c, op)
    ensures Recent(Apply(c, maxEntries, op), key, {})
  {
    hide Set, Delete, Put, Recent;
    EverythingIsRecent(c, key);
    EverythingIsRecent(Delete(c, key), key);
    match op
    case Get(_, now) => PutKeepsRecent(c, key, c.entries[key], key, Elements(c.order));
    case Write(_, value, ttl, now) =>
      SetKeepsRecent(c, maxEntries, key, value, ttl, now, key, Elements(c.order));
    case Claim(_, value, ttl, now) =>
      SetKeepsRecent(Delete(c, key), maxEntries, key, value, ttl, now, key, Elements(Delete(c, key).order));
    case _ =>
  }

  /** The keys used by the operations from a up to b. */
  function UsedIn(caches: seq<Cache>, ops: seq<Op>, a: nat, b: nat): set<Key>
    requires a <= b <= |ops| <= |caches|
    decreases b
  {
    if a == b then {} else UsedIn(caches, ops, a, b - 1) + Used(caches[b - 1], ops[b - 1])
  }

  lemma {:induction false} RecentSinceUse(caches: seq<Cache>, maxEntries: int, ops: seq<Op>, j: nat, i: nat, key: Key)
    requires IsRun(caches, maxEntries, ops) && j < i < |caches|
    requires key in Used(caches[j], ops[j])
    requires forall k :: j < k < i ==> key !in Used(caches[k], ops[k])
    ensures Valid(caches[i]) && Recent(caches[i], key, UsedIn(caches, ops, j + 1, i))
    decreases i
  {
    hide Apply, Recent, Used;
    BudgetIsKept(caches, maxEntries, ops, i);
    assert Follows(caches[i - 1], maxEntries, ops[i - 1], caches[i]);
    if i == j + 1 {
      UseMakesRecent(caches[j], maxEntries, ops[j], key);
    } else {
      RecentSinceUse(caches, maxEntries, ops, j, i - 1, key);
      ApplyKeepsRecent(caches[i - 1], maxEntries, ops[i - 1], key, UsedIn(caches, ops, j + 1, i - 1));
    }
  }

  /** Least recently used, over every run: a live key that an operation other than
      its own deletion removes was last used before at least as many distinct
      other keys as the budget. */
  lemma EvictionIsFarFromUse(caches: seq<Cache>, maxEntries: int, ops: seq<Op>, j: nat, i: nat, key: Key)
    requires IsRun(caches, maxEntries, ops) && j < i < |ops|
    requires key in Used(caches[j], ops[j])
    requires forall k :: j < k <= i ==> key !in Used(caches[k], ops[k])
    requires Live(caches[i].entries, key, ops[i].now).Some? && ops[i] != Drop(key, ops[i].now)
    requires key !in caches[i + 1].order
    ensures |UsedIn(caches, ops, j + 1, i + 1)| >= maxEntries && key !in UsedIn(caches, ops, j + 1, i + 1)
  {
    hide Apply, Recent, Used, Live;
    RecentSinceUse(caches, maxEntries, ops, j, i, key);
    assert Follows(caches[i], maxEntries, ops[i], caches[i + 1]);
    ApplyKeepsRecent(caches[i], maxEntries, ops[i], key, UsedIn(caches, ops, j + 1, i));
    NotUsedIn(caches, ops, j + 1, i + 1, key);
  }

  lemma {:induction false} NotUsedIn(caches: seq<Cache>, ops: seq<Op>, a: nat, b: nat, key: Key)
    requires a <= b <= |ops| <= |caches|
    requires forall k :: a <= k < b ==> key !in Used(caches[k], ops[k])
    ensures key !in UsedIn(caches, ops, a, b)
    decreases b
  {
    hide Used;
    if a < b {
      NotUsedIn(caches, ops, a, b - 1, key);
    }
  }
}
