/**
  What a reader of the cache gets (cache/memory.go): the value last stored under the key,
  until its TTL has passed, in every run of the unbounded cache, and of the bounded one
  while the key is not evicted. Nothing in these statements mentions entries or tables.
  */
module ReadYourWrites {
  import opened Wrappers
  import opened CacheSpec
  import opened CacheRefinement

  /** The value is stored: written, or claimed with success. */
  predicate Stores(m: Moment, key: Key, value: Value, ttl: nat, now: int) {
    m.event == Write(key, value, ttl, now) || (m.event == Claim(key, value, ttl, now) && m.reply == Added(true))
  }

  /** Something is stored under the key, or it is deleted. */
  predicate Touches(m: Moment, key: Key) {
    match m.event
    case Write(k, _, _, _) => k == key
    case Drop(k, _) => k == key
    case Claim(k, _, _, _) => k == key && m.reply == Added(true)
    case _ => false
  }

  predicate Lasts(ttl: nat, since: int, now: int) {
    ttl == 0 || now < since + ttl
  }

  /** The event asks for the key: either half of a read, or a claim. */
  predicate Asks(m: Moment, key: Key) {
    match m.event
    case Read(_, k, _) => k == key
    case Resume(reader, _) => reader in m.before.pending && m.before.pending[reader] == key
    case Claim(k, _, _, _) => k == key
    case _ => false
  }

  /** The answer when this is what the cache is to hold. */
  predicate Answered(m: Moment, held: Option<Value>) {
    match m.event
    case Read(_, _, _) => m.reply == Found(held) || (m.reply == Silent && held.None?)
    case Resume(_, _) => m.reply == Found(held)
    case Claim(_, _, _, _) => m.reply == Added(held.None?)
    case _ => true
  }

  // ----- what the plain table holds under one key

  ghost predicate Binds(table: Table, key: Key, bound: Option<Entry>) {
    bound == if key in table then Some(table[key]) else None
  }

  function HeldAt(bound: Option<Entry>, now: int): Option<Value> {
    if bound.Some? && !Expired(bound.value, now) then Some(bound.value.value) else None
  }

  lemma BoundIsHeld(table: Table, key: Key, bound: Option<Entry>, now: int)
    requires Binds(table, key, bound)
    ensures Live(table, key, now) == HeldAt(bound, now)
  {
  }

  /** Before moment i the table holds this under the key. */
  ghost predicate HoldsAt(run: seq<Moment>, i: nat, key: Key, bound: Option<Entry>)
    requires IsRun(run) && i < |run|
  {
    Binds(TableAt(run[0].before.cache.entries, EventsOf(run), i), key, bound)
  }

  lemma AnsweredAt(run: seq<Moment>, i: nat, key: Key, bound: Option<Entry>)
    requires IsRun(run) && i < |run| && HoldsAt(run, i, key, bound) && Asks(run[i], key)
    ensures Answered(run[i], HeldAt(bound, run[i].event.now))
  {
    var table := run[0].before.cache.entries;
    CacheIsAtomic(table, run, i);
    BoundIsHeld(TableAt(table, EventsOf(run), i), key, bound, run[i].event.now);
    hide Live, TableAt, HeldAt, IsRun;
  }

  lemma TableNext(run: seq<Moment>, i: nat)
    requires IsRun(run) && i + 1 < |run|
    ensures var table := run[0].before.cache.entries;
            TableAt(table, EventsOf(run), i + 1) == TableStep(TableAt(table, EventsOf(run), i), run[i].event)
  {
  }

  lemma UntouchedStays(run: seq<Moment>, i: nat, key: Key, bound: Option<Entry>)
    requires IsRun(run) && i + 1 < |run| && HoldsAt(run, i, key, bound) && !Touches(run[i], key)
    ensures HoldsAt(run, i + 1, key, bound)
  {
    hide IsRun;
    TableNext(run, i);
    CacheIsAtomic(run[0].before.cache.entries, run, i);
    hide TableAt, Live;
  }

  lemma {:induction false} StaysBound(run: seq<Moment>, j: nat, i: nat, key: Key, bound: Option<Entry>)
    requires IsRun(run) && j <= i < |run| && HoldsAt(run, j, key, bound)
    requires forall k :: j <= k < i ==> !Touches(run[k], key)
    ensures HoldsAt(run, i, key, bound)
    decreases i
  {
    hide IsRun, HoldsAt, Touches;
    if j < i {
      StaysBound(run, j, i - 1, key, bound);
      UntouchedStays(run, i - 1, key, bound);
    }
  }

  lemma StoredIsBound(run: seq<Moment>, j: nat, key: Key, value: Value, ttl: nat, since: int)
    requires IsRun(run) && j + 1 < |run| && Stores(run[j], key, value, ttl, since)
    ensures HoldsAt(run, j + 1, key, Some(Entry(value, if ttl == 0 then None else Some(since + ttl))))
  {
    hide IsRun;
    TableNext(run, j);
    CacheIsAtomic(run[0].before.cache.entries, run, j);
    hide TableAt, Live;
  }

  /** Read your writes: after a value is stored under a key, and until something else is
      stored under it or it is deleted, both halves of every read find that value, and
      every claim is refused, as long as the TTL has not passed; and from then on reads
      find nothing and claims succeed. */
  lemma StoredIsFound(run: seq<Moment>, j: nat, i: nat, key: Key, value: Value, ttl: nat, since: int)
    requires IsRun(run) && j < i < |run| && Stores(run[j], key, value, ttl, since)
    requires (forall k :: j < k < i ==> !Touches(run[k], key)) && Asks(run[i], key)
    ensures Answered(run[i], if Lasts(ttl, since, run[i].event.now) then Some(value) else None)
  {
    hide IsRun, HoldsAt, Stores, Touches, Asks, Answered;
    var bound := Some(Entry(value, if ttl == 0 then None else Some(since + ttl)));
    StoredIsBound(run, j, key, value, ttl, since);
    StaysBound(run, j + 1, i, key, bound);
    AnsweredAt(run, i, key, bound);
  }

  /** After a deletion, nothing is found and a claim succeeds. */
  lemma DroppedIsGone(run: seq<Moment>, j: nat, i: nat, key: Key)
    requires IsRun(run) && j < i < |run| && run[j].event.Drop? && run[j].event.key == key
    requires (forall k :: j < k < i ==> !Touches(run[k], key)) && Asks(run[i], key)
    ensures Answered(run[i], None)
  {
    hide IsRun, Touches, Asks, Answered;
    TableNext(run, j);
    assert HoldsAt(run, j + 1, key, None);
    hide HoldsAt;
    StaysBound(run, j + 1, i, key, None);
    AnsweredAt(run, i, key, None);
  }

  /** So it is for a key that was not there and that nothing was stored under. */
  lemma NothingIsInvented(run: seq<Moment>, i: nat, key: Key)
    requires IsRun(run) && i < |run| && key !in run[0].before.cache.entries
    requires (forall k :: 0 <= k < i ==> !Touches(run[k], key)) && Asks(run[i], key)
    ensures Answered(run[i], None)
  {
    hide IsRun, Touches, Asks, Answered;
    assert HoldsAt(run, 0, key, None);
    hide HoldsAt;
    StaysBound(run, 0, i, key, None);
    AnsweredAt(run, i, key, None);
  }

  /** A read that waits for its second half has asked for that key: its first half found
      nothing, and it has not come back since. */
  ghost predicate Waits(run: seq<Moment>, i: nat, reader: Reader, key: Key, j: nat)
    requires i < |run|
  {
    && j < i && BeginsWait(run[j], reader, key)
    && forall k :: j < k < i ==> !(run[k].event.Resume? && run[k].event.reader == reader)
  }

  predicate BeginsWait(m: Moment, reader: Reader, key: Key) {
    m.event.Read? && m.event.reader == reader && m.event.key == key && m.reply == Silent
  }

  lemma PendingNext(m: Moment, reader: Reader)
    requires Happens(m) && reader in m.after.pending
    ensures var key := m.after.pending[reader];
            || BeginsWait(m, reader, key)
            || (reader in m.before.pending && m.before.pending[reader] == key
                && !(m.event.Resume? && m.event.reader == reader))
  {
    hide Valid;
  }

  lemma {:induction false} PendingWasAsked(run: seq<Moment>, i: nat, reader: Reader) returns (j: nat)
    requires IsRun(run) && i < |run| && run[0].before.pending == map[] && reader in run[i].before.pending
    ensures Waits(run, i, reader, run[i].before.pending[reader], j)
  {
    hide Happens;
    assert i > 0 && run[i].before == run[i - 1].after && Happens(run[i - 1]);
    PendingNext(run[i - 1], reader);
    if BeginsWait(run[i - 1], reader, run[i].before.pending[reader]) {
      j := i - 1;
    } else {
      j := PendingWasAsked(run, i - 1, reader);
    }
  }
}

/** The bounded cache: a read finds the value last stored under the key, or nothing. */
module BoundedReads {
  import opened Wrappers
  import opened CacheSpec
  import opened LeastRecentlyUsed

  predicate Stores(c: Cache, maxEntries: int, op: Op, key: Key, value: Value, ttl: nat, now: int)
    requires Valid(c)
  {
    || op == Write(key, value, ttl, now)
    || (op == Claim(key, value, ttl, now) && Add(c, maxEntries, key, value, ttl, now).0)
  }

  predicate Touches(c: Cache, maxEntries: int, op: Op, key: Key)
    requires Valid(c)
  {
    match op
    case Write(k, _, _, _) => k == key
    case Drop(k, _) => k == key
    case Claim(k, value, ttl, now) => k == key && Add(c, maxEntries, k, value, ttl, now).0
    case _ => false
  }

  /** If anything is under the key, it is this. */
  predicate Bound(c: Cache, key: Key, bound: Option<Entry>) {
    key in c.entries ==> bound == Some(c.entries[key])
  }

  lemma {:induction false} VisitsBound(c: Cache, now: int, n: nat, key: Key, bound: Option<Entry>)
    requires Valid(c) && Bound(c, key, bound)
    ensures Bound(Visits(c, now, n), key, bound)
    decreases n
  {
    if n > 0 && c.order != [] {
      VisitOneIsValid(c, now);
      VisitsBound(VisitOne(c, now), now, n - 1, key, bound);
    }
  }

  lemma {:induction false} EvictBound(c: Cache, maxEntries: int, key: Key, bound: Option<Entry>)
    requires Valid(c) && Bound(c, key, bound)
    ensures Bound(Evict(c, maxEntries), key, bound)
    decreases |c.order|
  {
    if maxEntries > 0 && |c.order| > maxEntries {
      RemoveIsValid(c, c.order[0]);
      EvictBound(Remove(c, c.order[0]), maxEntries, key, bound);
    }
  }

  lemma SampleBound(c: Cache, now: int, key: Key, bound: Option<Entry>)
    requires Valid(c) && Bound(c, key, bound)
    ensures Bound(Sample(c, now), key, bound)
  {
    VisitsBound(c, now, if SAMPLE_SIZE < |c.order| then SAMPLE_SIZE else |c.order|, key, bound);
  }

  /** Storing under this key, or under another. */
  lemma SetBound(c: Cache, maxEntries: int, stored: Key, value: Value, ttl: nat, now: int, key: Key, bound: Option<Entry>)
    requires Valid(c) && (if stored == key then bound == Some(Entry(value, if ttl == 0 then None else Some(now + ttl)))
                          else Bound(c, key, bound))
    ensures Bound(Set(c, maxEntries, stored, value, ttl, now), key, bound)
  {
    hide Sample, Evict;
    if stored != key {
      SampleBound(c, now, key, bound);
    }
    var e := Entry(value, if ttl == 0 then None else Some(now + ttl));
    PutIsValid(Sample(c, now), stored, e);
    EvictBound(Put(Sample(c, now), stored, e), maxEntries, key, bound);
  }

  lemma UntouchedStays(c: Cache, maxEntries: int, op: Op, key: Key, bound: Option<Entry>)
    requires Valid(c) && Bound(c, key, bound) && !Touches(c, maxEntries, op, key)
    ensures Bound(Apply(c, maxEntries, op), key, bound)
  {
    hide Set, Sample, PurgeIn;
    match op
    case Get(read, now) => SampleBound(Delete(c, read), now, key, bound);
    case Write(stored, value, ttl, now) => SetBound(c, maxEntries, stored, value, ttl, now, key, bound);
    case Claim(stored, value, ttl, now) =>
      if stored != key {
        SetBound(Delete(c, stored), maxEntries, stored, value, ttl, now, key, bound);
      }
    case Drop(_, _) =>
    case Purge(ranged, now) => PurgeInRemoves(c, now, ranged);
  }

  lemma {:induction false} StaysBound(caches: seq<Cache>, maxEntries: int, ops: seq<Op>, j: nat, i: nat, key: Key,
                                      bound: Option<Entry>)
    requires IsRun(caches, maxEntries, ops) && j <= i < |caches| && Bound(caches[j], key, bound)
    requires forall k :: j <= k < i ==> Valid(caches[k]) && !Touches(caches[k], maxEntries, ops[k], key)
    ensures Bound(caches[i], key, bound)
    decreases i
  {
    hide Apply, Touches, Bound;
    if j < i {
      StaysBound(caches, maxEntries, ops, j, i - 1, key, bound);
      assert Follows(caches[i - 1], maxEntries, ops[i - 1], caches[i]);
      UntouchedStays(caches[i - 1], maxEntries, ops[i - 1], key, bound);
    }
  }

  lemma StoredIsBound(c: Cache, maxEntries: int, op: Op, key: Key, value: Value, ttl: nat, since: int)
    requires Valid(c) && Stores(c, maxEntries, op, key, value, ttl, since)
    ensures Bound(Apply(c, maxEntries, op), key, Some(Entry(value, if ttl == 0 then None else Some(since + ttl))))
  {
    hide Set;
    var bound := Some(Entry(value, if ttl == 0 then None else Some(since + ttl)));
    SetBound(c, maxEntries, key, value, ttl, since, key, bound);
    SetBound(Delete(c, key), maxEntries, key, value, ttl, since, key, bound);
  }

  lemma BoundIsFound(c: Cache, maxEntries: int, key: Key, bound: Option<Entry>, now: int)
    requires Valid(c) && Bound(c, key, bound)
    ensures GetAndPromote(c, key, now).0 ==
            if key in c.order && bound.Some? && (bound.value.expiresAt.None? || now < bound.value.expiresAt.value)
            then Some(bound.value.value) else None
    ensures forall value, ttl :: Add(c, maxEntries, key, value, ttl, now).0 <==> GetAndPromote(c, key, now).0.None?
  {
    InOrder(c, key);
  }

  /** After a value is stored under a key, and until something else is stored under it or
      it is deleted, a read finds it exactly while the key is listed and its TTL has not
      passed, and otherwise nothing; and a claim succeeds exactly when a read finds
      nothing. What takes a key off the list is in LeastRecentlyUsed. */
  lemma StoredIsFoundOrEvicted(caches: seq<Cache>, maxEntries: int, ops: seq<Op>, j: nat, i: nat, key: Key,
                               value: Value, ttl: nat, since: int, now: int)
    requires IsRun(caches, maxEntries, ops) && j < i < |caches| && forall k :: 0 <= k < |caches| ==> Valid(caches[k])
    requires Stores(caches[j], maxEntries, ops[j], key, value, ttl, since)
    requires forall k :: j < k < i ==> !Touches(caches[k], maxEntries, ops[k], key)
    ensures var found := GetAndPromote(caches[i], key, now).0;
            && found == (if key in caches[i].order && (ttl == 0 || now < since + ttl) then Some(value) else None)
            && forall v, t :: Add(caches[i], maxEntries, key, v, t, now).0 <==> found.None?
  {
    hide Apply, Stores, Touches, GetAndPromote, Add;
    var bound := Some(Entry(value, if ttl == 0 then None else Some(since + ttl)));
    assert Follows(caches[j], maxEntries, ops[j], caches[j + 1]);
    StoredIsBound(caches[j], maxEntries, ops[j], key, value, ttl, since);
    StaysBound(caches, maxEntries, ops, j + 1, i, key, bound);
    BoundIsFound(caches[i], maxEntries, key, bound, now);
  }

  /** Nothing is found under a key that was not there and that nothing was stored under. */
  lemma NothingIsInvented(caches: seq<Cache>, maxEntries: int, ops: seq<Op>, i: nat, key: Key, now: int)
    requires IsRun(caches, maxEntries, ops) && i < |caches| && forall k :: 0 <= k < |caches| ==> Valid(caches[k])
    requires key !in caches[0].entries && forall k :: 0 <= k < i ==> !Touches(caches[k], maxEntries, ops[k], key)
    ensures GetAndPromote(caches[i], key, now).0 == None
  {
    hide Apply, Touches, GetAndPromote;
    StaysBound(caches, maxEntries, ops, 0, i, key, None);
    BoundIsFound(caches[i], maxEntries, key, None, now);
  }
}
