/**
  The in-memory cache driver (cache/memory.go): the same operations on a map of
  entries that point into a linked list, updated in place. Each method is one
  critical section; `Get` on an unbounded cache is two, GetShared and
  GetExclusive, with anything in between.
  */
module MemoryCache {
  import opened Wrappers
  import opened Sequences
  import opened CacheSpec

  /** A list element. Its identity is what an entry and the cursor point at. */
  class Element {
    const value: Key

    constructor (value: Key)
      ensures this.value == value
    {
      this.value := value;
    }
  }

  datatype MemoryEntry = MemoryEntry(value: Value, expiresAt: Option<int>, orderElement: Element)

  datatype Error = ContextDone | InvalidKey | InvalidTTL | Miss

  function KeysOf(order: seq<Element>): seq<Key> {
    seq(|order|, i requires 0 <= i < |order| => order[i].value)
  }

  function View(entries: map<Key, MemoryEntry>, order: seq<Element>, cursor: Element?): Cache {
    Cache(map k | k in entries :: Entry(entries[k].value, entries[k].expiresAt),
          KeysOf(order),
          if cursor == null then None else Some(cursor.value))
  }

  /** Map and list in two-way agreement: every entry points at its own element,
      every element is pointed at, the cursor is nil or listed. */
  ghost predicate Linked(entries: map<Key, MemoryEntry>, order: seq<Element>, cursor: Element?) {
    && NoDuplicates(order)
    && (forall e :: e in order ==> e.value in entries && entries[e.value].orderElement == e)
    && (forall k :: k in entries ==> entries[k].orderElement in order && entries[k].orderElement.value == k)
    && (cursor != null ==> cursor in order)
  }

  lemma LinkedIsValid(entries: map<Key, MemoryEntry>, order: seq<Element>, cursor: Element?)
    requires Linked(entries, order, cursor)
    ensures CacheSpec.Valid(View(entries, order, cursor)) && NoDuplicates(KeysOf(order))
  {
    var keys := KeysOf(order);
    forall i, j | 0 <= i < j < |keys| ensures keys[i] != keys[j] {
      assert order[i] in order && order[j] in order;
    }
    forall k ensures k in keys <==> k in entries {
      if k in entries {
        var i := IndexOf(order, entries[k].orderElement);
        assert keys[i] == k;
      }
    }
    if cursor != null {
      var i := IndexOf(order, cursor);
      assert keys[i] == cursor.value;
    }
    DistinctBySize(keys);
  }

  lemma WithoutElement(entries: map<Key, MemoryEntry>, order: seq<Element>, cursor: Element?, e: Element)
    requires Linked(entries, order, cursor) && e in order
    ensures e.value in KeysOf(order) && IndexOf(KeysOf(order), e.value) == IndexOf(order, e)
    ensures KeysOf(Without(order, e)) == Without(KeysOf(order), e.value)
  {
    LinkedIsValid(entries, order, cursor);
    var i := IndexOf(order, e);
    var keys := KeysOf(order);
    assert keys[i] == e.value;
    IndexIsUnique(keys, i);
    KeysWithoutIndex(order, i);
  }

  lemma KeysWithoutIndex(order: seq<Element>, i: nat)
    requires i < |order|
    ensures KeysOf(order[..i] + order[i + 1..]) == KeysOf(order)[..i] + KeysOf(order)[i + 1..]
  {
  }

  function NextElement(order: seq<Element>, e: Element): (next: Element?)
    requires e in order
    ensures next != null ==> next in order
  {
    var i := IndexOf(order, e);
    if i + 1 < |order| then order[i + 1] else null
  }

  lemma NextIsNext(entries: map<Key, MemoryEntry>, order: seq<Element>, cursor: Element?, e: Element)
    requires Linked(entries, order, cursor) && e in order
    ensures e.value in KeysOf(order)
    ensures var next := NextElement(order, e);
            Next(KeysOf(order), e.value) == if next == null then None else Some(next.value)
  {
    WithoutElement(entries, order, cursor, e);
  }

  lemma RemoveLinked(entries: map<Key, MemoryEntry>, order: seq<Element>, cursor: Element?, key: Key)
    requires Linked(entries, order, cursor) && key in entries
    ensures var e := entries[key].orderElement;
            var cursor' := if cursor == e then NextElement(order, e) else cursor;
            && Linked(entries - {key}, Without(order, e), cursor')
            && e.value in KeysOf(order)
            && View(entries - {key}, Without(order, e), cursor') == Remove(View(entries, order, cursor), key)
  {
    var e := entries[key].orderElement;
    WithoutElement(entries, order, cursor, e);
    NextIsNext(entries, order, cursor, e);
    WithoutKeeps(order, e);
    assert forall x :: x in Without(order, e) <==> x in Elements(Without(order, e));
    var next := NextElement(order, e);
    assert next != e by {
      if next != null {
        assert order[IndexOf(order, e) + 1] != order[IndexOf(order, e)];
      }
    }
    assert View(entries - {key}, Without(order, e), null).entries == View(entries, order, cursor).entries - {key};
  }

  /** MoveToBack, with the entry's value and expiry replaced. */
  lemma MoveLinked(entries: map<Key, MemoryEntry>, order: seq<Element>, cursor: Element?, key: Key, entry: MemoryEntry)
    requires Linked(entries, order, cursor) && key in entries
    requires entry.orderElement == entries[key].orderElement
    ensures var order' := Without(order, entry.orderElement) + [entry.orderElement];
            && Linked(entries[key := entry], order', cursor)
            && View(entries[key := entry], order', cursor)
               == Put(View(entries, order, cursor), key, Entry(entry.value, entry.expiresAt))
  {
    var e := entry.orderElement;
    WithoutElement(entries, order, cursor, e);
    WithoutKeeps(order, e);
    var rest := Without(order, e);
    assert forall x :: x in rest <==> x in Elements(rest);
    AppendDistinct(rest, e);
    assert KeysOf(rest + [e]) == KeysOf(rest) + [key];
    assert forall x :: x in order <==> x in Elements(order);
    assert View(entries[key := entry], order, cursor).entries
        == View(entries, order, cursor).entries[key := Entry(entry.value, entry.expiresAt)];
  }

  lemma PromoteLinked(entries: map<Key, MemoryEntry>, order: seq<Element>, cursor: Element?, key: Key)
    requires Linked(entries, order, cursor) && key in entries
    ensures var element := entries[key].orderElement;
            var order' := Without(order, element) + [element];
            var c := View(entries, order, cursor);
            && Linked(entries, order', cursor)
            && View(entries, order', cursor) == Put(c, key, c.entries[key])
            && CacheSpec.Valid(Put(c, key, c.entries[key]))
  {
    assert entries[key := entries[key]] == entries;
    MoveLinked(entries, order, cursor, key, entries[key]);
    LinkedIsValid(entries, order, cursor);
    PutIsValid(View(entries, order, cursor), key, Entry(entries[key].value, entries[key].expiresAt));
  }

  lemma PushKeepsLinks(entries: map<Key, MemoryEntry>, order: seq<Element>, cursor: Element?, key: Key, entry: MemoryEntry)
    requires Linked(entries, order, cursor) && key !in entries
    requires entry.orderElement !in order && entry.orderElement.value == key
    ensures Linked(entries[key := entry], order + [entry.orderElement], cursor) && key !in KeysOf(order)
  {
    AppendDistinct(order, entry.orderElement);
  }

  lemma PushShows(entries: map<Key, MemoryEntry>, order: seq<Element>, cursor: Element?, key: Key, entry: MemoryEntry)
    requires entry.orderElement.value == key
    ensures var c, c' := View(entries, order, cursor), View(entries[key := entry], order + [entry.orderElement], cursor);
            && c'.entries == c.entries[key := Entry(entry.value, entry.expiresAt)]
            && c'.order == c.order + [key] && c'.cursor == c.cursor
  {
    assert KeysOf(order + [entry.orderElement]) == KeysOf(order) + [key];
  }

  /** PushBack of a new element for a key that was not there. */
  lemma PushLinked(entries: map<Key, MemoryEntry>, order: seq<Element>, cursor: Element?, key: Key, entry: MemoryEntry)
    requires Linked(entries, order, cursor) && key !in entries
    requires entry.orderElement !in order && entry.orderElement.value == key
    ensures var order' := order + [entry.orderElement];
            && Linked(entries[key := entry], order', cursor)
            && View(entries[key := entry], order', cursor)
               == Put(View(entries, order, cursor), key, Entry(entry.value, entry.expiresAt))
  {
    PushKeepsLinks(entries, order, cursor, key, entry);
    PushShows(entries, order, cursor, key, entry);
    hide Linked;
    assert View(entries, order, cursor).order == KeysOf(order);
    hide View;
  }

  lemma AdvanceLinked(entries: map<Key, MemoryEntry>, order: seq<Element>, cursor: Element?, e: Element)
    requires Linked(entries, order, cursor) && e in order
    ensures var c := View(entries, order, cursor);
            && e.value in c.order
            && Linked(entries, order, NextElement(order, e))
            && View(entries, order, NextElement(order, e)) == c.(cursor := Next(c.order, e.value))
            && CacheSpec.Valid(c) && CacheSpec.Valid(c.(cursor := Next(c.order, e.value)))
  {
    LinkedIsValid(entries, order, cursor);
    NextIsNext(entries, order, cursor, e);
  }

  predicate EntryExpired(e: MemoryEntry, now: int) {
    e.expiresAt.Some? && now >= e.expiresAt.value
  }

  /** The checks every operation starts with; an operation without a TTL passes 0. */
  function Refused(contextDone: bool, key: Key, ttl: int): (err: Option<Error>)
    ensures err.None? <==> !contextDone && key != "" && ttl >= 0
    ensures err == Some(ContextDone) <==> contextDone
    ensures err == Some(InvalidKey) <==> !contextDone && key == ""
  {
    if contextDone then Some(ContextDone)
    else if key == "" then Some(InvalidKey)
    else if ttl < 0 then Some(InvalidTTL)
    else None
  }

  class Memory {
    const maxEntries: int
    var entries: map<Key, MemoryEntry>
    var order: seq<Element>
    var cursor: Element?

    ghost predicate Valid()
      reads this
    {
      Linked(entries, order, cursor) && CacheSpec.Valid(Contents())
    }

    ghost function Contents(): Cache
      reads this
    {
      View(entries, order, cursor)
    }

    constructor (maxEntries: int)
      ensures Valid() && Contents() == EMPTY && this.maxEntries == maxEntries
    {
      this.maxEntries := maxEntries;
      entries, order, cursor := map[], [], null;
    }

    method DeleteLocked(key: Key)
      requires Valid() && key in entries
      modifies this
      ensures Valid() && key in old(Contents()).order && Contents() == Remove(old(Contents()), key)
      ensures entries == old(entries) - {key}
    {
      hide CacheSpec.Valid, Remove;
      var element := entries[key].orderElement;
      RemoveLinked(entries, order, cursor, key);
      RemoveIsValid(Contents(), key);
      var next := if cursor == element then NextElement(order, element) else cursor;
      entries, cursor, order := entries - {key}, next, Without(order, element);
    }

    /** The bounded cleanup. There is always a front element to wrap to. */
    method PurgeSampleLocked(now: int)
      requires Valid()
      modifies this
      ensures Valid() && Contents() == Sample(old(Contents()), now)
    {
      hide Linked, VisitOne;
      var n := if SAMPLE_SIZE < |order| then SAMPLE_SIZE else |order|;
      var i := 0;
      while i < n
        invariant 0 <= i <= n && Valid() && n - i <= |order|
        invariant Visits(Contents(), now, n - i) == Sample(old(Contents()), now)
      {
        VisitOneIsValid(Contents(), now);
        VisitLocked(now);
        i := i + 1;
      }
    }

    /** The body of the sampling loop. */
    method VisitLocked(now: int)
      requires Valid() && order != []
      modifies this
      ensures Valid() && Contents() == VisitOne(old(Contents()), now)
    {
      hide CacheSpec.Valid, Remove;
      var element := if cursor != null then cursor else order[0];
      assert element in order;
      AdvanceLinked(entries, order, cursor, element);
      cursor := NextElement(order, element);
      var key := element.value;
      var entry := entries[key];
      if entry.expiresAt.Some? && now >= entry.expiresAt.value {
        DeleteLocked(key);
      }
    }

    method EvictLocked()
      requires Valid()
      modifies this
      ensures Valid() && Contents() == Evict(old(Contents()), maxEntries)
    {
      if maxEntries <= 0 {
        return;
      }
      while |order| > maxEntries
        invariant Valid() && Evict(Contents(), maxEntries) == Evict(old(Contents()), maxEntries)
        decreases |order|
      {
        assert Contents().order[0] == order[0].value;
        assert order[0] in order;
        DeleteLocked(order[0].value);
      }
    }

    /** Storing an entry: the element of an existing key moves to the back, a new
        key gets an element there. */
    method Store(key: Key, value: Value, ttl: nat, now: int)
      requires Valid()
      modifies this
      ensures Valid() && Contents() == Put(old(Contents()), key, NewEntry(value, ttl, now))
    {
      hide CacheSpec.Valid, Put;
      PutIsValid(Contents(), key, NewEntry(value, ttl, now));
      var expiresAt := if ttl > 0 then Some(now + ttl) else None;
      if key in entries {
        var element := entries[key].orderElement;
        var entry := MemoryEntry(value, expiresAt, element);
        MoveLinked(entries, order, cursor, key, entry);
        entries, order := entries[key := entry], Without(order, element) + [element];
      } else {
        var element := new Element(key);
        var entry := MemoryEntry(value, expiresAt, element);
        PushLinked(entries, order, cursor, key, entry);
        entries, order := entries[key := entry], order + [element];
      }
    }

    method Set(contextDone: bool, key: Key, value: Value, ttl: int, now: int) returns (err: Option<Error>)
      requires Valid()
      modifies this
      ensures Valid()
      ensures err == Refused(contextDone, key, ttl)
      ensures Contents() ==
              if err.Some? then old(Contents()) else CacheSpec.Set(old(Contents()), maxEntries, key, value, ttl, now)
    {
      if Refused(contextDone, key, ttl).Some? {
        return Refused(contextDone, key, ttl);
      }
      WriteLocked(key, value, ttl, now);
      return None;
    }

    /** The part of Set that Add shares: clean a sample, store, evict. */
    method WriteLocked(key: Key, value: Value, ttl: nat, now: int)
      requires Valid()
      modifies this
      ensures Valid() && Contents() == CacheSpec.Set(old(Contents()), maxEntries, key, value, ttl, now)
    {
      hide Linked, CacheSpec.Valid, View, Sample, Put, Evict;
      PurgeSampleLocked(now);
      Store(key, value, ttl, now);
      EvictLocked();
    }

    method Add(contextDone: bool, key: Key, value: Value, ttl: int, now: int) returns (stored: bool, err: Option<Error>)
      requires Valid()
      modifies this
      ensures Valid()
      ensures err == Refused(contextDone, key, ttl)
      ensures err.Some? ==> !stored && Contents() == old(Contents())
      ensures err.None? ==> (stored, Contents()) == CacheSpec.Add(old(Contents()), maxEntries, key, value, ttl, now)
    {
      if Refused(contextDone, key, ttl).Some? {
        return false, Refused(contextDone, key, ttl);
      }
      stored := AddLocked(key, value, ttl, now);
      return stored, None;
    }

    method AddLocked(key: Key, value: Value, ttl: nat, now: int) returns (stored: bool)
      requires Valid()
      modifies this
      ensures Valid()
      ensures (stored, Contents()) == CacheSpec.Add(old(Contents()), maxEntries, key, value, ttl, now)
    {
      hide Linked, CacheSpec.Valid, CacheSpec.Set, Remove;
      if key in entries {
        var existing := entries[key];
        if existing.expiresAt.None? || now < existing.expiresAt.value {
          return false;
        }
        DeleteLocked(key);
      }
      WriteLocked(key, value, ttl, now);
      return true;
    }

    method Delete(contextDone: bool, key: Key) returns (err: Option<Error>)
      requires Valid()
      modifies this
      ensures Valid()
      ensures err == Refused(contextDone, key, 0)
      ensures Contents() == if err.Some? then old(Contents()) else CacheSpec.Delete(old(Contents()), key)
    {
      if Refused(contextDone, key, 0).Some? {
        return Refused(contextDone, key, 0);
      }
      if key in entries {
        DeleteLocked(key);
      }
      return None;
    }

    /** The shared half of an unbounded Get: an answer, or None to go on with
        GetExclusive because the entry looked expired. */
    method GetShared(contextDone: bool, key: Key, now: int) returns (r: Option<Result<Value, Error>>)
      requires Valid()
      ensures Refused(contextDone, key, 0).Some? ==> r == Some(Err(Refused(contextDone, key, 0).value))
      ensures Refused(contextDone, key, 0).None? ==>
                r == if key !in Contents().entries then Some(Err(Miss))
                     else if Expired(Contents().entries[key], now) then None
                     else Some(Ok(Contents().entries[key].value))
    {
      if Refused(contextDone, key, 0).Some? {
        return Some(Err(Refused(contextDone, key, 0).value));
      }
      if key !in entries {
        return Some(Err(Miss));
      }
      var entry := entries[key];
      if entry.expiresAt.None? || now < entry.expiresAt.value {
        return Some(Ok(entry.value));
      }
      return None;
    }

    /** A read that misses under the exclusive lock: drop the key if it is there,
        and clean a sample. */
    method MissLocked(key: Key, now: int)
      requires Valid()
      modifies this
      ensures Valid() && Contents() == Sample(CacheSpec.Delete(old(Contents()), key), now)
    {
      hide Linked, CacheSpec.Valid, Remove, Sample;
      if key in entries {
        DeleteLocked(key);
      }
      PurgeSampleLocked(now);
    }

    /** The exclusive half: the entry is looked at again. */
    method GetExclusive(key: Key, now: int) returns (r: Result<Value, Error>)
      requires Valid()
      modifies this
      ensures Valid()
      ensures var (answer, c) := GetLocked(old(Contents()), key, now);
              Contents() == c && r == (if answer.Some? then Ok(answer.value) else Err(Miss))
    {
      hide Linked, CacheSpec.Valid, CacheSpec.Delete, Sample;
      if key !in entries || EntryExpired(entries[key], now) {
        MissLocked(key, now);
        return Err(Miss);
      }
      var entry := entries[key];
      PurgeSampleLocked(now);
      return Ok(entry.value);
    }

    /** Get on a bounded cache. */
    method GetPromoting(key: Key, now: int) returns (r: Result<Value, Error>)
      requires Valid()
      modifies this
      ensures Valid()
      ensures var (answer, c) := GetAndPromote(old(Contents()), key, now);
              Contents() == c && r == (if answer.Some? then Ok(answer.value) else Err(Miss))
    {
      hide Linked, CacheSpec.Valid, CacheSpec.Delete, Sample, Put;
      if key !in entries || EntryExpired(entries[key], now) {
        MissLocked(key, now);
        return Err(Miss);
      }
      var entry := entries[key];
      Promote(key);
      return Ok(entry.value);
    }

    /** MoveToBack on a hit. */
    method Promote(key: Key)
      requires Valid() && key in entries
      modifies this`order
      ensures Valid() && key in old(Contents()).entries && Contents() == Put(old(Contents()), key, old(Contents()).entries[key])
    {
      hide CacheSpec.Valid, Put;
      var element := entries[key].orderElement;
      PromoteLinked(entries, order, cursor, key);
      order := Without(order, element) + [element];
    }

    /** The body of the PurgeExpired loop. */
    method PurgeKey(key: Key, now: int) returns (gone: bool)
      requires Valid() && key in entries
      modifies this
      ensures Valid() && gone == EntryExpired(old(entries)[key], now)
      ensures entries == if gone then old(entries) - {key} else old(entries)
      ensures |entries| == |old(entries)| - if gone then 1 else 0
      ensures Contents() == PurgeKeyIn(old(Contents()), now, key)
    {
      hide Linked, CacheSpec.Valid, Remove;
      gone := EntryExpired(entries[key], now);
      if gone {
        assert (entries - {key}).Keys == entries.Keys - {key};
        DeleteLocked(key);
      }
    }

    /** PurgeExpired, ranging over the map in whatever order: `ranged`. */
    method PurgeExpired(now: int) returns (removed: nat, ghost ranged: seq<Key>)
      requires Valid()
      modifies this
      ensures Valid() && Elements(ranged) == old(entries).Keys
      ensures Contents() == PurgeIn(old(Contents()), now, ranged)
      ensures removed == |old(entries)| - |entries|
    {
      hide Linked, CacheSpec.Valid, View, PurgeKeyIn;
      removed := 0;
      ranged := [];
      var remaining := entries.Keys;
      ghost var all, start := entries.Keys, Contents();
      while remaining != {}
        invariant Valid() && remaining <= entries.Keys && remaining <= all
        invariant Elements(ranged) == all - remaining
        invariant Contents() == PurgeIn(start, now, ranged)
        invariant removed == |old(entries)| - |entries|
        decreases remaining
      {
        var key :| key in remaining;
        removed := PurgeRanged(start, key, now, removed, ranged);
        OneMoreRanged(all, remaining, ranged, key);
        remaining, ranged := remaining - {key}, ranged + [key];
      }
    }

    method PurgeRanged(ghost start: Cache, key: Key, now: int, removed: nat, ghost ranged: seq<Key>) returns (counted: nat)
      requires Valid() && key in entries
      requires CacheSpec.Valid(start) && Contents() == PurgeIn(start, now, ranged)
      modifies this
      ensures Valid() && Contents() == PurgeIn(start, now, ranged + [key])
      ensures old(entries).Keys - {key} <= entries.Keys
      ensures counted == removed + |old(entries)| - |entries|
    {
      hide Linked, CacheSpec.Valid, View, PurgeKeyIn;
      PurgeInOneMore(start, now, ranged, key);
      var gone := PurgeKey(key, now);
      counted := if gone then removed + 1 else removed;
    }
  }

  lemma OneMoreRanged(all: set<Key>, remaining: set<Key>, ranged: seq<Key>, key: Key)
    requires key in remaining && remaining <= all && Elements(ranged) == all - remaining
    ensures Elements(ranged + [key]) == all - (remaining - {key})
  {
    ElementsAppend(ranged, key);
  }
}
