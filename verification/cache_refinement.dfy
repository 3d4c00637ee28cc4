/**
  An unbounded cache against a plain table from keys to values and expiry times.

  Reads are in two halves with anything in between: the shared half answers, or
  gives up on an entry that looks expired; the exclusive half looks again. The
  plain table does none of the cleaning. The clock never runs backwards.
  */
module CacheRefinement {
  import opened Wrappers
  import opened CacheSpec

  type Reader = nat

  /** One critical section of the cache, at the time it reads. */
  datatype Event =
    | Read(reader: Reader, key: Key, now: int)
    | Resume(reader: Reader, now: int)
    | Write(key: Key, value: Value, ttl: nat, now: int)
    | Claim(key: Key, value: Value, ttl: nat, now: int)
    | Drop(key: Key, now: int)
    | Purge(ranged: seq<Key>, now: int)

  datatype Reply = Silent | Found(value: Option<Value>) | Added(stored: bool)

  /** `pending` holds the reads that are between their two halves. */
  datatype System = System(cache: Cache, pending: map<Reader, Key>, clock: int)

  predicate Enabled(s: System, e: Event) {
    && s.clock <= e.now
    && (e.Read? ==> e.reader !in s.pending)
    && (e.Resume? ==> e.reader in s.pending)
  }

  /** The cache's step, and its reply to the caller; Silent while a read is pending. */
  function Step(s: System, e: Event): (r: (System, Reply))
    requires Enabled(s, e) && Valid(s.cache)
    ensures Valid(r.0.cache)
  {
    match e
    case Read(reader, key, now) =>
      if key in s.cache.entries && Expired(s.cache.entries[key], now) then
        (s.(pending := s.pending[reader := key], clock := now), Silent)
      else
        (s.(clock := now), Found(Live(s.cache.entries, key, now)))
    case Resume(reader, now) =>
      var (answer, cache) := GetLocked(s.cache, s.pending[reader], now);
      (System(cache, s.pending - {reader}, now), Found(answer))
    case Write(key, value, ttl, now) =>
      (s.(cache := Set(s.cache, 0, key, value, ttl, now), clock := now), Silent)
    case Claim(key, value, ttl, now) =>
      var (stored, cache) := Add(s.cache, 0, key, value, ttl, now);
      (s.(cache := cache, clock := now), Added(stored))
    case Drop(key, now) =>
      (s.(cache := Delete(s.cache, key), clock := now), Silent)
    case Purge(ranged, now) =>
      (s.(cache := PurgeIn(s.cache, now, ranged), clock := now), Silent)
  }

  type Table = map<Key, Entry>

  /** The plain table after an event: nothing is ever cleaned. */
  function TableStep(table: Table, e: Event): Table {
    match e
    case Write(key, value, ttl, now) => table[key := Entry(value, if ttl == 0 then None else Some(now + ttl))]
    case Claim(key, value, ttl, now) =>
      if Live(table, key, now).Some? then table
      else table[key := Entry(value, if ttl == 0 then None else Some(now + ttl))]
    case Drop(key, _) => table - {key}
    case _ => table
  }

  /** Whether a reply is what the plain table says at that very moment. A read waits for
      its second half only when there is nothing to be found. */
  predicate Answers(table: Table, s: System, e: Event, reply: Reply)
    requires Enabled(s, e)
  {
    match e
    case Read(_, key, now) => reply == Found(Live(table, key, now)) || (reply.Silent? && Live(table, key, now).None?)
    case Resume(reader, now) => reply == Found(Live(table, s.pending[reader], now))
    case Claim(key, _, _, now) => reply == Added(Live(table, key, now).None?)
    case _ => reply == Silent
  }

  /** One event of a run: the system before it, the reply, the system after it. */
  datatype Moment = Moment(before: System, event: Event, reply: Reply, after: System)

  ghost predicate Happens(m: Moment) {
    && Valid(m.before.cache) && Enabled(m.before, m.event)
    && (m.after, m.reply) == Step(m.before, m.event)
  }

  ghost predicate IsRun(run: seq<Moment>) {
    && (forall i :: 0 <= i < |run| ==> Happens(run[i]))
    && (forall i, j :: 0 <= i < j < |run| && j == i + 1 ==> run[j].before == run[i].after)
  }

  function EventsOf(run: seq<Moment>): (events: seq<Event>)
    ensures |events| == |run|
  {
    seq(|run|, i requires 0 <= i < |run| => run[i].event)
  }

  /** The plain table when event i happens. */
  function TableAt(table: Table, events: seq<Event>, i: nat): Table
    requires i <= |events|
  {
    if i == 0 then table else TableStep(TableAt(table, events, i - 1), events[i - 1])
  }

  /** The cache and the table hold the same unexpired entries. */
  ghost predicate Agree(c: Cache, table: Table, now: int) {
    Unexpired(c.entries, now) == Unexpired(table, now)
  }

  lemma LiveIsUnexpired(entries: Table, key: Key, now: int)
    ensures var kept := Unexpired(entries, now);
            Live(entries, key, now) == if key in kept then Some(kept[key].value) else None
  {
  }

  lemma AgreeLater(c: Cache, table: Table, now: int, later: int)
    requires Agree(c, table, now) && now <= later
    ensures Agree(c, table, later)
  {
    UnexpiredLater(c.entries, now, later);
    UnexpiredLater(table, now, later);
  }

  lemma UnexpiredLater(entries: Table, now: int, later: int)
    requires now <= later
    ensures Unexpired(entries, later) == Unexpired(Unexpired(entries, now), later)
  {
  }

  lemma UnexpiredPut(entries: Table, key: Key, e: Entry, now: int)
    ensures Unexpired(entries[key := e], now)
         == if Expired(e, now) then Unexpired(entries, now) - {key} else Unexpired(entries, now)[key := e]
  {
  }

  lemma UnexpiredDelete(entries: Table, key: Key, now: int)
    ensures Unexpired(entries - {key}, now) == Unexpired(entries, now) - {key}
  {
  }

  lemma DeleteDeletes(c: Cache, key: Key, now: int)
    requires Valid(c)
    ensures Unexpired(Delete(c, key).entries, now) == Unexpired(c.entries, now) - {key}
  {
    UnexpiredDelete(c.entries, key, now);
  }

  function Kept(entries: Table, key: Key, now: int): Option<Entry> {
    if key in entries && !Expired(entries[key], now) then Some(entries[key]) else None
  }

  lemma VisitOneKeeps(c: Cache, now: int, key: Key)
    requires Valid(c) && c.order != []
    ensures Kept(VisitOne(c, now).entries, key, now) == Kept(c.entries, key, now)
  {
  }

  lemma {:induction false} VisitsKeep(c: Cache, now: int, n: nat, key: Key)
    requires Valid(c)
    ensures Kept(Visits(c, now, n).entries, key, now) == Kept(c.entries, key, now)
    decreases n
  {
    if n > 0 && c.order != [] {
      VisitOneKeeps(c, now, key);
      VisitOneIsValid(c, now);
      VisitsKeep(VisitOne(c, now), now, n - 1, key);
    }
  }

  lemma KeptMeansUnexpired(entries: Table, entries': Table, now: int)
    requires forall key :: Kept(entries', key, now) == Kept(entries, key, now)
    ensures Unexpired(entries', now) == Unexpired(entries, now)
  {
    assert forall e: Table, key :: key in Unexpired(e, now) <==> Kept(e, key, now).Some?;
  }

  /** Sampled cleanup cannot be observed. */
  lemma SampleKeepsUnexpired(c: Cache, now: int)
    requires Valid(c)
    ensures Unexpired(Sample(c, now).entries, now) == Unexpired(c.entries, now)
  {
    forall key ensures Kept(Sample(c, now).entries, key, now) == Kept(c.entries, key, now) {
      VisitsKeep(c, now, if SAMPLE_SIZE < |c.order| then SAMPLE_SIZE else |c.order|, key);
    }
    KeptMeansUnexpired(c.entries, Sample(c, now).entries, now);
  }

  lemma SetStores(c: Cache, key: Key, value: Value, ttl: nat, now: int)
    requires Valid(c)
    ensures Unexpired(Set(c, 0, key, value, ttl, now).entries, now)
         == Unexpired(c.entries, now)[key := NewEntry(value, ttl, now)]
  {
    SampleKeepsUnexpired(c, now);
    UnexpiredPut(Sample(c, now).entries, key, NewEntry(value, ttl, now), now);
  }

  /** A full pass removes every expired entry, a partial one only expired ones. */
  lemma PurgeKeepsUnexpired(c: Cache, now: int, ranged: seq<Key>)
    requires Valid(c)
    ensures Unexpired(PurgeIn(c, now, ranged).entries, now) == Unexpired(c.entries, now)
  {
    PurgeInRemoves(c, now, ranged);
  }

  lemma LockedReadAgrees(c: Cache, table: Table, key: Key, now: int)
    requires Valid(c) && Agree(c, table, now)
    ensures var (answer, c') := GetLocked(c, key, now);
            answer == Live(table, key, now) && Agree(c', table, now)
  {
    LiveIsUnexpired(c.entries, key, now);
    LiveIsUnexpired(table, key, now);
    UnexpiredDelete(c.entries, key, now);
    SampleKeepsUnexpired(c, now);
    SampleKeepsUnexpired(Delete(c, key), now);
  }

  lemma AddAgrees(c: Cache, table: Table, key: Key, value: Value, ttl: nat, now: int)
    requires Valid(c) && Agree(c, table, now)
    ensures var (stored, c') := Add(c, 0, key, value, ttl, now);
            && stored == Live(table, key, now).None?
            && Agree(c', TableStep(table, Claim(key, value, ttl, now)), now)
  {
    hide Set, Delete, Unexpired, Live, Expired;
    LiveIsUnexpired(c.entries, key, now);
    LiveIsUnexpired(table, key, now);
    if Live(table, key, now).None? {
      ReplacedAgrees(c, table, key, value, ttl, now);
    }
  }

  lemma PutAfterDelete(table: Table, key: Key, e: Entry)
    ensures (table - {key})[key := e] == table[key := e]
  {
  }

  lemma ReplacedAgrees(c: Cache, table: Table, key: Key, value: Value, ttl: nat, now: int)
    requires Valid(c) && Agree(c, table, now)
    ensures Agree(Set(Delete(c, key), 0, key, value, ttl, now), table[key := NewEntry(value, ttl, now)], now)
  {
    var e := NewEntry(value, ttl, now);
    var kept := Unexpired(c.entries, now);
    DeleteDeletes(c, key, now);
    SetStores(Delete(c, key), key, value, ttl, now);
    UnexpiredPut(table, key, e, now);
    PutAfterDelete(kept, key, e);
  }

  lemma WriteAgrees(c: Cache, table: Table, key: Key, value: Value, ttl: nat, now: int)
    requires Valid(c) && Agree(c, table, now)
    ensures Agree(Set(c, 0, key, value, ttl, now), TableStep(table, Write(key, value, ttl, now)), now)
  {
    hide Set;
    SetStores(c, key, value, ttl, now);
    UnexpiredPut(table, key, NewEntry(value, ttl, now), now);
  }

  lemma StepAgrees(s: System, table: Table, e: Event)
    requires Valid(s.cache) && Enabled(s, e) && Agree(s.cache, table, s.clock)
    ensures var (s', reply) := Step(s, e);
            Answers(table, s, e, reply) && Agree(s'.cache, TableStep(table, e), s'.clock)
  {
    AgreeLater(s.cache, table, s.clock, e.now);
    hide Set, Add, Delete, PurgeIn, GetLocked, Unexpired, Valid;
    match e
    case Read(_, key, now) =>
      LiveIsUnexpired(s.cache.entries, key, now);
      LiveIsUnexpired(table, key, now);
    case Resume(reader, now) =>
      LockedReadAgrees(s.cache, table, s.pending[reader], now);
    case Write(key, value, ttl, now) =>
      WriteAgrees(s.cache, table, key, value, ttl, now);
    case Claim(key, value, ttl, now) =>
      AddAgrees(s.cache, table, key, value, ttl, now);
    case Drop(key, now) =>
      DeleteDeletes(s.cache, key, now);
      UnexpiredDelete(table, key, now);
    case Purge(ranged, now) =>
      PurgeKeepsUnexpired(s.cache, now, ranged);
  }

  lemma {:induction false} RunAgrees(table: Table, run: seq<Moment>, i: nat)
    requires IsRun(run) && i < |run| && Agree(run[0].before.cache, table, run[0].before.clock)
    ensures Agree(run[i].before.cache, TableAt(table, EventsOf(run), i), run[i].before.clock)
  {
    if i > 0 {
      RunAgrees(table, run, i - 1);
      StepAgrees(run[i - 1].before, TableAt(table, EventsOf(run), i - 1), run[i - 1].event);
    }
  }

  /** The refinement, over every interleaving: whenever the cache replies, it gives
      the answer of the plain table at that moment. */
  lemma CacheIsAtomic(table: Table, run: seq<Moment>, i: nat)
    requires IsRun(run) && i < |run| && Agree(run[0].before.cache, table, run[0].before.clock)
    ensures Answers(TableAt(table, EventsOf(run), i), run[i].before, run[i].event, run[i].reply)
  {
    RunAgrees(table, run, i);
    StepAgrees(run[i].before, TableAt(table, EventsOf(run), i), run[i].event);
  }
}
