/**
  The in-memory cache (cache/memory.go) on values: a map, an ordering list and a
  cleanup cursor. Time is an integer read from the clock under the lock.
  */
module CacheSpec {
  import opened Wrappers
  import opened Sequences

  type Key = string
  type Value = string

  /** `expiresAt` is None for the zero time: the value does not expire. */
  datatype Entry = Entry(value: Value, expiresAt: Option<int>)

  predicate Expired(e: Entry, now: int) {
    e.expiresAt.Some? && now >= e.expiresAt.value
  }

  /** `cursor` is None when the next cleanup sample starts at the front. */
  datatype Cache = Cache(entries: map<Key, Entry>, order: seq<Key>, cursor: Option<Key>)

  const EMPTY := Cache(map[], [], None)
  const SAMPLE_SIZE: nat := 16

  /** The representation invariant: the list holds exactly the keys of the map,
      each once, and the cursor is nil or one of them. */
  ghost predicate Valid(c: Cache) {
    && Elements(c.order) == c.entries.Keys && |c.order| == |Elements(c.order)|
    && (c.cursor.Some? ==> c.cursor.value in c.order)
  }

  lemma ValidIsDistinct(c: Cache)
    requires Valid(c)
    ensures NoDuplicates(c.order)
  {
    DistinctBySize(c.order);
  }

  lemma InOrder(c: Cache, key: Key)
    requires Valid(c)
    ensures key in c.order <==> key in c.entries
  {
    assert key in c.order <==> key in Elements(c.order);
  }

  function Next(order: seq<Key>, key: Key): (next: Option<Key>)
    requires key in order
    ensures next.Some? ==> next.value in order
  {
    var i := IndexOf(order, key);
    if i + 1 < |order| then Some(order[i + 1]) else None
  }

  /** deleteLocked: the cursor steps off an element before it is removed. */
  function Remove(c: Cache, key: Key): Cache
    requires key in c.order
  {
    Cache(c.entries - {key}, Without(c.order, key), if c.cursor == Some(key) then Next(c.order, key) else c.cursor)
  }

  lemma RemoveIsValid(c: Cache, key: Key)
    requires Valid(c) && key in c.order
    ensures Valid(Remove(c, key)) && |Remove(c, key).order| == |c.order| - 1
  {
    ValidIsDistinct(c);
    WithoutKeeps(c.order, key);
    InOrder(c, key);
    var i := IndexOf(c.order, key);
    var next := Remove(c, key).cursor;
    if next.Some? {
      assert next.value != key by {
        if c.cursor == Some(key) {
          assert c.order[i + 1] != c.order[i];
        }
      }
      assert next.value in Elements(c.order);
      assert next.value in Elements(Without(c.order, key));
    }
  }

  /** The element a sample looks at next: under the cursor, or the front. */
  function Visited(c: Cache): Key
    requires c.order != []
  {
    if c.cursor.Some? then c.cursor.value else c.order[0]
  }

  /** One turn of the sampling loop: take the next element, advance the cursor, and remove the element if its entry expired. */
  function VisitOne(c: Cache, now: int): Cache
    requires c.order != [] && (c.cursor.Some? ==> c.cursor.value in c.order)
  {
    var key := Visited(c);
    var advanced := c.(cursor := Next(c.order, key));
    if key in c.entries && Expired(c.entries[key], now) then Remove(advanced, key) else advanced
  }

  lemma VisitOneIsValid(c: Cache, now: int)
    requires Valid(c) && c.order != []
    ensures Valid(VisitOne(c, now))
    ensures |c.order| - 1 <= |VisitOne(c, now).order| <= |c.order|
  {
    var key := Visited(c);
    assert key in Elements(c.order);
    RemoveIsValid(c.(cursor := Next(c.order, key)), key);
  }

  /** n turns of the loop, stopping early only if the list runs out. */
  function Visits(c: Cache, now: int, n: nat): (c': Cache)
    requires Valid(c)
    ensures Valid(c')
    decreases n
  {
    if n == 0 || c.order == [] then c
    else
      VisitOneIsValid(c, now);
      Visits(VisitOne(c, now), now, n - 1)
  }

  /** purgeSampleLocked. The number of turns is fixed before the first. */
  function Sample(c: Cache, now: int): (c': Cache)
    requires Valid(c)
    ensures Valid(c')
  {
    Visits(c, now, if SAMPLE_SIZE < |c.order| then SAMPLE_SIZE else |c.order|)
  }

  /** Storing under a key already listed moves its element to the back. */
  function Put(c: Cache, key: Key, e: Entry): Cache {
    var order := if key in c.order then Without(c.order, key) + [key] else c.order + [key];
    c.(entries := c.entries[key := e], order := order)
  }

  lemma PutIsValid(c: Cache, key: Key, e: Entry)
    requires Valid(c)
    ensures Valid(Put(c, key, e))
    ensures |Put(c, key, e).order| == |c.order| + if key in c.entries then 0 else 1
  {
    InOrder(c, key);
    if key in c.order {
      ValidIsDistinct(c);
      WithoutKeeps(c.order, key);
      ElementsAppend(Without(c.order, key), key);
    } else {
      ElementsAppend(c.order, key);
    }
    if c.cursor.Some? {
      assert c.cursor.value in Elements(c.order);
      assert c.cursor.value in Elements(Put(c, key, e).order);
    }
  }

  /** evictLocked: drop from the front until the list is within the budget. */
  function Evict(c: Cache, maxEntries: int): (c': Cache)
    requires Valid(c)
    ensures Valid(c')
    decreases |c.order|
  {
    if maxEntries <= 0 || |c.order| <= maxEntries then c
    else
      RemoveIsValid(c, c.order[0]);
      Evict(Remove(c, c.order[0]), maxEntries)
  }

  function NewEntry(value: Value, ttl: nat, now: int): Entry {
    Entry(value, if ttl > 0 then Some(now + ttl) else None)
  }

  function Set(c: Cache, maxEntries: int, key: Key, value: Value, ttl: nat, now: int): (c': Cache)
    requires Valid(c)
    ensures Valid(c')
  {
    var sampled := Sample(c, now);
    PutIsValid(sampled, key, NewEntry(value, ttl, now));
    Evict(Put(sampled, key, NewEntry(value, ttl, now)), maxEntries)
  }

  function Live(entries: map<Key, Entry>, key: Key, now: int): Option<Value> {
    if key in entries && !Expired(entries[key], now) then Some(entries[key].value) else None
  }

  /** What PurgeExpired keeps. */
  function Unexpired(entries: map<Key, Entry>, now: int): map<Key, Entry> {
    map k | k in entries && !Expired(entries[k], now) :: entries[k]
  }

  /** PurgeExpired, ranging over these keys in this order. */
  function PurgeIn(c: Cache, now: int, keys: seq<Key>): (c': Cache)
    requires Valid(c)
    ensures Valid(c')
  {
    if keys == [] then c
    else
      PurgeKeyIn(PurgeIn(c, now, keys[..|keys| - 1]), now, keys[|keys| - 1])
  }

  function PurgeKeyIn(c: Cache, now: int, key: Key): (c': Cache)
    requires Valid(c)
    ensures Valid(c')
  {
    if key in c.entries && Expired(c.entries[key], now) then Delete(c, key) else c
  }

  lemma PurgeInOneMore(c: Cache, now: int, keys: seq<Key>, key: Key)
    requires Valid(c)
    ensures PurgeIn(c, now, keys + [key]) == PurgeKeyIn(PurgeIn(c, now, keys), now, key)
  {
    assert (keys + [key])[..|keys|] == keys;
  }

  /** Whatever the order, ranging over every key leaves exactly the unexpired
      entries. */
  lemma PurgeInRemovesExpired(c: Cache, now: int, keys: seq<Key>)
    requires Valid(c) && Elements(keys) == c.entries.Keys
    ensures PurgeIn(c, now, keys).entries == Unexpired(c.entries, now)
  {
    PurgeInRemoves(c, now, keys);
    assert forall k :: k in c.entries ==> k in Elements(keys);
  }

  lemma {:induction false} PurgeInRemoves(c: Cache, now: int, keys: seq<Key>)
    requires Valid(c)
    ensures PurgeIn(c, now, keys).entries ==
            map k | k in c.entries && !(k in keys && Expired(c.entries[k], now)) :: c.entries[k]
  {
    if keys != [] {
      var rest, key := keys[..|keys| - 1], keys[|keys| - 1];
      PurgeInRemoves(c, now, rest);
      assert forall k :: k in keys <==> k in rest || k == key;
    }
  }

  function Add(c: Cache, maxEntries: int, key: Key, value: Value, ttl: nat, now: int): (r: (bool, Cache))
    requires Valid(c)
    ensures Valid(r.1)
  {
    if Live(c.entries, key, now).Some? then (false, c)
    else
      (true, Set(Delete(c, key), maxEntries, key, value, ttl, now))
  }

  function Delete(c: Cache, key: Key): (c': Cache)
    requires Valid(c)
    ensures Valid(c')
  {
    if key in c.entries then
      assert key in Elements(c.order);
      RemoveIsValid(c, key);
      Remove(c, key)
    else c
  }

  /** The exclusive half of an unbounded Get, on an entry that looked expired. */
  function GetLocked(c: Cache, key: Key, now: int): (r: (Option<Value>, Cache))
    requires Valid(c)
    ensures Valid(r.1)
  {
    if Live(c.entries, key, now).Some? then (Live(c.entries, key, now), Sample(c, now))
    else (None, Sample(Delete(c, key), now))
  }

  /** getAndPromote: a bounded Get. */
  function GetAndPromote(c: Cache, key: Key, now: int): (r: (Option<Value>, Cache))
    requires Valid(c)
    ensures Valid(r.1)
  {
    if Live(c.entries, key, now).Some? then
      PutIsValid(c, key, c.entries[key]);
      (Live(c.entries, key, now), Put(c, key, c.entries[key]))
    else (None, Sample(Delete(c, key), now))
  }
}
