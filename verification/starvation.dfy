/**
  Where cleanup coverage fails (cache/memory.go). On a bounded cache a hit moves
  its key to the back without cleaning a sample. When the budget is at least two
  more than a sample, hits between samples can keep the cursor from ever wrapping:
  the expired key at the front stays, however many samples are cleaned.
  CleanupCoverage shows that this never happens with a smaller budget.
  */
module CleanupStarvation {
  import opened Wrappers
  import opened Sequences
  import opened Decimals
  import opened CacheSpec
  import opened LeastRecentlyUsed
  import opened CleanupCoverage

  /** An expired key at the front, the cursor just behind it on the first of more
      than a sample of keys that do not expire. */
  ghost predicate Stuck(c: Cache, expired: Key, others: seq<Key>) {
    && Lined(c, expired, others) && |others| > SAMPLE_SIZE && c.cursor == Some(others[0])
  }

  /** A key that expires at time 1, in front of keys that do not expire. */
  ghost predicate Lined(c: Cache, expired: Key, others: seq<Key>) {
    && Valid(c) && c.order == [expired] + others && Lasting(c, others)
    && expired in c.entries && c.entries[expired].expiresAt == Some(1)
  }

  ghost predicate Lasting(c: Cache, keys: seq<Key>) {
    forall i :: 0 <= i < |keys| ==> keys[i] in c.entries && c.entries[keys[i]].expiresAt.None?
  }

  // ----- sequences of operations

  lemma {:induction false} EndAppend(c: Cache, maxEntries: int, a: seq<Op>, b: seq<Op>)
    requires Valid(c)
    ensures End(c, maxEntries, a + b) == End(End(c, maxEntries, a), maxEntries, b)
    ensures SampleCount(c, maxEntries, a + b) ==
            SampleCount(c, maxEntries, a) + SampleCount(End(c, maxEntries, a), maxEntries, b)
    decreases b
  {
    hide Apply;
    if b == [] {
      assert a + b == a;
    } else {
      EndAppend(c, maxEntries, a, b[..|b| - 1]);
      assert (a + b)[..|a + b| - 1] == a + b[..|b| - 1];
    }
  }

  lemma EndOne(c: Cache, maxEntries: int, op: Op)
    requires Valid(c)
    ensures End(c, maxEntries, [op]) == Apply(c, maxEntries, op)
    ensures SampleCount(c, maxEntries, [op]) == if Samples(c, op) then 1 else 0
  {
    hide Apply;
    assert [op][..0] == [];
    assert End(c, maxEntries, []) == c;
  }

  lemma EndOneMore(c: Cache, maxEntries: int, ops: seq<Op>, op: Op)
    requires Valid(c)
    ensures End(c, maxEntries, ops + [op]) == Apply(End(c, maxEntries, ops), maxEntries, op)
  {
    assert (ops + [op])[..|ops|] == ops;
  }

  /** The operations make a run of their own. */
  lemma {:induction false} EndIsRun(c: Cache, maxEntries: int, ops: seq<Op>) returns (caches: seq<Cache>)
    requires Valid(c) && maxEntries > 0 && |c.order| <= maxEntries
    ensures IsRun(caches, maxEntries, ops) && caches[0] == c
    ensures caches[|ops|] == End(c, maxEntries, ops)
  {
    hide Apply;
    if ops == [] {
      caches := [c];
    } else {
      var rest, last := ops[..|ops| - 1], ops[|ops| - 1];
      var before := EndIsRun(c, maxEntries, rest);
      caches := before + [End(c, maxEntries, ops)];
      assert forall i :: 0 <= i < |rest| ==> rest[i] == ops[i];
      forall i, j | 0 <= i < |ops| && j == i + 1 ensures Follows(caches[i], maxEntries, ops[i], caches[j]) {
        if i < |rest| {
          assert Follows(before[i], maxEntries, rest[i], before[j]);
        }
      }
    }
  }

  // ----- the loop of a sample

  lemma VisitAdvances(c: Cache, now: int, p: nat)
    requires Valid(c) && p < |c.order| && c.cursor == Some(c.order[p])
    requires c.order[p] in c.entries && !Expired(c.entries[c.order[p]], now)
    ensures VisitOne(c, now) == c.(cursor := if p + 1 < |c.order| then Some(c.order[p + 1]) else None)
  {
    ValidIsDistinct(c);
    IndexIsUnique(c.order, p);
  }

  ghost predicate Fresh(c: Cache, keys: seq<Key>, now: int) {
    forall i :: 0 <= i < |keys| ==> keys[i] in c.entries && !Expired(c.entries[keys[i]], now)
  }

  lemma {:induction false} VisitsAdvance(c: Cache, now: int, p: nat, n: nat)
    requires Valid(c) && p < |c.order| && p + n <= |c.order| && c.cursor == Some(c.order[p])
    requires Fresh(c, c.order[p..p + n], now)
    ensures Visits(c, now, n) == c.(cursor := if p + n < |c.order| then Some(c.order[p + n]) else None)
    decreases n
  {
    hide VisitOne;
    if n > 0 {
      assert c.order[p..p + n][0] == c.order[p];
      VisitAdvances(c, now, p);
      if n > 1 {
        var c' := c.(cursor := Some(c.order[p + 1]));
        assert c.order[p + 1..p + n] == c.order[p..p + n][1..];
        VisitsAdvance(c', now, p + 1, n - 1);
      } else {
        assert Visits(VisitOne(c, now), now, 0) == VisitOne(c, now);
      }
    }
  }

  lemma VisitsStart(c: Cache, now: int, n: nat)
    requires Valid(c) && c.cursor.None?
    ensures c.order == [] ==> Visits(c, now, n) == c
    ensures c.order != [] && n > 0 ==> Visits(c, now, n) == Visits(c.(cursor := Some(c.order[0])), now, n)
  {
    if c.order != [] {
      assert VisitOne(c, now) == VisitOne(c.(cursor := Some(c.order[0])), now);
    }
  }

  /** A sample from the front of a list without expired keys. */
  lemma SampleFromFront(c: Cache, now: int)
    requires Valid(c) && c.cursor.None? && Fresh(c, c.order, now)
    ensures Sample(c, now) == c.(cursor := if SAMPLE_SIZE < |c.order| then Some(c.order[SAMPLE_SIZE]) else None)
  {
    hide Visits;
    var n := if SAMPLE_SIZE < |c.order| then SAMPLE_SIZE else |c.order|;
    VisitsStart(c, now, n);
    if c.order != [] {
      assert c.order[0..n] == c.order[..n];
      VisitsAdvance(c.(cursor := Some(c.order[0])), now, 0, n);
    }
  }

  /** A miss cleans a sample of the keys behind the cursor and finds nothing. */
  lemma MissAdvances(c: Cache, expired: Key, others: seq<Key>, missing: Key, now: int)
    requires Stuck(c, expired, others) && missing !in c.entries
    ensures GetAndPromote(c, missing, now) == (None, c.(cursor := Some(others[SAMPLE_SIZE])))
  {
    hide Visits;
    assert c.order[1..1 + SAMPLE_SIZE] == others[..SAMPLE_SIZE];
    VisitsAdvance(c, now, 1, SAMPLE_SIZE);
  }

  // ----- hits

  lemma SecondToBack(first: Key, second: Key, rest: seq<Key>)
    requires NoDuplicates([first] + ([second] + rest))
    ensures Without([first] + ([second] + rest), second) + [second] == [first] + (rest + [second])
  {
    var s := [first] + ([second] + rest);
    assert s[1] == second;
    IndexIsUnique(s, 1);
    assert s[..1] == [first] && s[2..] == rest;
  }

  /** A hit on the key behind the expired one. */
  lemma HitRotates(c: Cache, expired: Key, hit: Key, rest: seq<Key>, now: int)
    requires Valid(c) && c.order == [expired] + ([hit] + rest)
    requires hit in c.entries && c.entries[hit].expiresAt.None?
    ensures GetAndPromote(c, hit, now) == (Some(c.entries[hit].value), c.(order := [expired] + (rest + [hit])))
  {
    hide Without;
    ValidIsDistinct(c);
    SecondToBack(expired, hit, rest);
    assert c.entries[hit := c.entries[hit]] == c.entries;
  }

  function Gets(keys: seq<Key>, now: int): (ops: seq<Op>)
    ensures |ops| == |keys|
  {
    seq(|keys|, i requires 0 <= i < |keys| => Get(keys[i], now))
  }

  lemma GetsOneMore(keys: seq<Key>, now: int)
    requires keys != []
    ensures Gets(keys, now) == Gets(keys[..|keys| - 1], now) + [Get(keys[|keys| - 1], now)]
  {
  }

  lemma {:induction false} HitsRotate(c: Cache, maxEntries: int, expired: Key, keys: seq<Key>, rest: seq<Key>, now: int)
    requires Valid(c) && c.order == [expired] + (keys + rest) && Lasting(c, keys)
    ensures End(c, maxEntries, Gets(keys, now)) == c.(order := [expired] + (rest + keys))
    decreases keys
  {
    hide GetAndPromote, Gets;
    if keys == [] {
      assert rest + keys == rest && keys + rest == rest && Gets(keys, now) == [];
    } else {
      var front, hit := keys[..|keys| - 1], keys[|keys| - 1];
      assert keys == front + [hit];
      Associative(front, [hit], rest);
      HitsRotate(c, maxEntries, expired, front, [hit] + rest, now);
      GetsOneMore(keys, now);
      EndOneMore(c, maxEntries, Gets(front, now), Get(hit, now));
      Associative([hit], rest, front);
      HitRotates(End(c, maxEntries, Gets(front, now)), expired, hit, rest + front, now);
      Associative(rest, front, [hit]);
    }
  }

  // ----- a miss, then a hit on each key the sample looked at

  function Round(others: seq<Key>, missing: Key): seq<Op>
    requires |others| > SAMPLE_SIZE
  {
    [Get(missing, 1)] + Gets(others[..SAMPLE_SIZE], 1)
  }

  function Rotated(others: seq<Key>): (rotated: seq<Key>)
    requires |others| > SAMPLE_SIZE
    ensures |rotated| == |others|
  {
    others[SAMPLE_SIZE..] + others[..SAMPLE_SIZE]
  }

  lemma RoundStaysStuck(c: Cache, maxEntries: int, expired: Key, others: seq<Key>, missing: Key)
    requires Stuck(c, expired, others) && missing !in c.entries
    ensures var c' := End(c, maxEntries, Round(others, missing));
            Stuck(c', expired, Rotated(others)) && c'.entries == c.entries
    ensures SampleCount(c, maxEntries, Round(others, missing)) >= 1
  {
    hide GetAndPromote, Gets, End, SampleCount;
    var first, last := others[..SAMPLE_SIZE], others[SAMPLE_SIZE..];
    MissAdvances(c, expired, others, missing, 1);
    EndOne(c, maxEntries, Get(missing, 1));
    EndAppend(c, maxEntries, [Get(missing, 1)], Gets(first, 1));
    assert others == first + last;
    HitsRotate(GetAndPromote(c, missing, 1).1, maxEntries, expired, first, last, 1);
  }

  function Turned(others: seq<Key>, n: nat): (turned: seq<Key>)
    requires |others| > SAMPLE_SIZE
    ensures |turned| == |others|
  {
    if n == 0 then others else Rotated(Turned(others, n - 1))
  }

  function Rounds(others: seq<Key>, missing: Key, n: nat): seq<Op>
    requires |others| > SAMPLE_SIZE
  {
    if n == 0 then [] else Rounds(others, missing, n - 1) + Round(Turned(others, n - 1), missing)
  }

  /** However many samples are cleaned this way, the expired key is still there. */
  lemma {:induction false} HitsStarveCleanup(c: Cache, maxEntries: int, expired: Key, others: seq<Key>, missing: Key, n: nat)
    requires Stuck(c, expired, others) && missing !in c.entries
    ensures var c' := End(c, maxEntries, Rounds(others, missing, n));
            Stuck(c', expired, Turned(others, n)) && c'.entries == c.entries
    ensures SampleCount(c, maxEntries, Rounds(others, missing, n)) >= n
  {
    hide Round, Rotated, Stuck, Apply;
    StuckIsValid(c, expired, others);
    if n > 0 {
      HitsStarveCleanup(c, maxEntries, expired, others, missing, n - 1);
      OneMoreRound(c, maxEntries, expired, Rounds(others, missing, n - 1), Turned(others, n - 1), missing);
    }
  }

  lemma OneMoreRound(c: Cache, maxEntries: int, expired: Key, before: seq<Op>, others: seq<Key>, missing: Key)
    requires Valid(c) && Stuck(End(c, maxEntries, before), expired, others)
    requires missing !in End(c, maxEntries, before).entries
    ensures var ops := before + Round(others, missing);
            && Stuck(End(c, maxEntries, ops), expired, Rotated(others))
            && End(c, maxEntries, ops).entries == End(c, maxEntries, before).entries
            && SampleCount(c, maxEntries, ops) > SampleCount(c, maxEntries, before)
  {
    hide Round, Rotated, Stuck, End, SampleCount;
    StuckIsValid(End(c, maxEntries, before), expired, others);
    EndAppend(c, maxEntries, before, Round(others, missing));
    RoundStaysStuck(End(c, maxEntries, before), maxEntries, expired, others, missing);
  }

  lemma StuckIsValid(c: Cache, expired: Key, others: seq<Key>)
    requires Stuck(c, expired, others)
    ensures Valid(c) && |others| > SAMPLE_SIZE && Lined(c, expired, others)
  {
  }

  ghost predicate Reads(ops: seq<Op>) {
    forall i :: 0 <= i < |ops| ==> ops[i].Get? && ops[i].now == 1
  }

  lemma {:induction false} RoundsOnlyRead(others: seq<Key>, missing: Key, n: nat)
    requires |others| > SAMPLE_SIZE
    ensures Reads(Rounds(others, missing, n))
  {
    if n > 0 {
      RoundsOnlyRead(others, missing, n - 1);
    }
  }

  // ----- how a cache gets there

  function Writes(keys: seq<Key>): (ops: seq<Op>)
    ensures |ops| == |keys|
  {
    seq(|keys|, i requires 0 <= i < |keys| => Write(keys[i], "", 0, 0))
  }

  lemma WritesOneMore(keys: seq<Key>)
    requires keys != []
    ensures Writes(keys) == Writes(keys[..|keys| - 1]) + [Write(keys[|keys| - 1], "", 0, 0)]
  {
  }

  lemma LinedIsFresh(c: Cache, expired: Key, others: seq<Key>)
    requires Lined(c, expired, others)
    ensures Fresh(c, c.order, 0)
  {
  }

  /** A write of one more key that does not expire, while nothing has expired. */
  lemma WriteLines(c: Cache, maxEntries: int, expired: Key, others: seq<Key>, key: Key)
    requires Lined(c, expired, others) && c.cursor.None? && key !in c.order && |others| + 2 <= maxEntries
    ensures var c' := Set(c, maxEntries, key, "", 0, 0);
            && Lined(c', expired, others + [key])
            && c'.cursor == if SAMPLE_SIZE <= |others| then Some(c.order[SAMPLE_SIZE]) else None
  {
    hide Sample;
    LinedIsFresh(c, expired, others);
    SampleFromFront(c, 0);
    Associative([expired], others, [key]);
  }

  /** The first writes, until there is one key more than a sample. */
  lemma {:induction false} WritesLine(maxEntries: int, expired: Key, keys: seq<Key>)
    requires |keys| <= SAMPLE_SIZE && |keys| + 1 <= maxEntries && NoDuplicates([expired] + keys)
    ensures var c := End(EMPTY, maxEntries, [Write(expired, "", 1, 0)] + Writes(keys));
            Lined(c, expired, keys) && c.cursor.None?
    decreases keys
  {
    hide Set, Writes;
    var first := [Write(expired, "", 1, 0)];
    if keys == [] {
      assert first + Writes(keys) == first;
      EndOne(EMPTY, maxEntries, first[0]);
      FirstWrite(maxEntries, expired);
    } else {
      var front, key := keys[..|keys| - 1], keys[|keys| - 1];
      assert keys == front + [key];
      DistinctFront(expired, front, key);
      WritesLine(maxEntries, expired, front);
      WritesOneMore(keys);
      Associative(first, Writes(front), [Write(key, "", 0, 0)]);
      EndOneMore(EMPTY, maxEntries, first + Writes(front), Write(key, "", 0, 0));
      WriteLines(End(EMPTY, maxEntries, first + Writes(front)), maxEntries, expired, front, key);
    }
  }

  lemma DistinctFront(expired: Key, front: seq<Key>, key: Key)
    requires NoDuplicates([expired] + (front + [key]))
    ensures NoDuplicates([expired] + front) && key !in [expired] + front
  {
    Associative([expired], front, [key]);
    var all, some := [expired] + (front + [key]), [expired] + front;
    assert forall i :: 0 <= i < |some| ==> some[i] == all[i];
    assert all[|some|] == key;
  }

  lemma FirstWrite(maxEntries: int, expired: Key)
    requires maxEntries >= 1
    ensures var c := Set(EMPTY, maxEntries, expired, "", 1, 0); Lined(c, expired, []) && c.cursor.None?
  {
    assert Sample(EMPTY, 0) == EMPTY;
    assert [expired] + [] == [expired] == EMPTY.order + [expired];
  }

  /** Writes of the expired key and of 17 others, and then hits on the others in front
      of the cursor, which is on the sixteenth. */
  function Setup(expired: Key, others: seq<Key>): seq<Op>
    requires |others| == SAMPLE_SIZE + 1
  {
    [Write(expired, "", 1, 0)] + Writes(others) + Gets(others[..SAMPLE_SIZE - 1], 0)
  }

  lemma WritesFill(maxEntries: int, expired: Key, others: seq<Key>)
    requires |others| == SAMPLE_SIZE + 1 && SAMPLE_SIZE + 2 <= maxEntries && NoDuplicates([expired] + others)
    ensures var c := End(EMPTY, maxEntries, [Write(expired, "", 1, 0)] + Writes(others));
            Lined(c, expired, others) && c.cursor == Some(others[SAMPLE_SIZE - 1])
  {
    hide Set, Writes, End;
    var first, front, key := [Write(expired, "", 1, 0)], others[..SAMPLE_SIZE], others[SAMPLE_SIZE];
    assert others == front + [key];
    DistinctFront(expired, front, key);
    WritesLine(maxEntries, expired, front);
    WritesOneMore(others);
    Associative(first, Writes(front), [Write(key, "", 0, 0)]);
    EndOneMore(EMPTY, maxEntries, first + Writes(front), Write(key, "", 0, 0));
    WriteLines(End(EMPTY, maxEntries, first + Writes(front)), maxEntries, expired, front, key);
  }

  lemma TurnedSticks(c: Cache, c': Cache, expired: Key, hit: seq<Key>, rest: seq<Key>)
    requires Lined(c, expired, hit + rest) && |hit + rest| > SAMPLE_SIZE && rest != [] && c.cursor == Some(rest[0])
    requires Valid(c') && c' == c.(order := [expired] + (rest + hit))
    ensures Stuck(c', expired, rest + hit)
  {
    forall i | 0 <= i < |rest + hit| ensures (rest + hit)[i] in c.entries && c.entries[(rest + hit)[i]].expiresAt.None? {
      var j := if i < |rest| then |hit| + i else i - |rest|;
      assert (rest + hit)[i] == (hit + rest)[j];
    }
  }

  lemma SetupSticks(maxEntries: int, expired: Key, others: seq<Key>)
    requires |others| == SAMPLE_SIZE + 1 && SAMPLE_SIZE + 2 <= maxEntries && NoDuplicates([expired] + others)
    ensures Stuck(End(EMPTY, maxEntries, Setup(expired, others)), expired,
                  others[SAMPLE_SIZE - 1..] + others[..SAMPLE_SIZE - 1])
  {
    hide Set, Writes, Gets, End, Stuck;
    WritesFill(maxEntries, expired, others);
    var writes := [Write(expired, "", 1, 0)] + Writes(others);
    var c := End(EMPTY, maxEntries, writes);
    var hit, rest := others[..SAMPLE_SIZE - 1], others[SAMPLE_SIZE - 1..];
    assert others == hit + rest;
    HitsRotate(c, maxEntries, expired, hit, rest, 0);
    EndAppend(EMPTY, maxEntries, writes, Gets(hit, 0));
    TurnedSticks(c, End(c, maxEntries, Gets(hit, 0)), expired, hit, rest);
  }

  function Names(from: nat, n: nat): (names: seq<Key>)
    ensures |names| == n
  {
    seq(n, i requires 0 <= i < n => Decimal(from + i))
  }

  lemma NamesDiffer(from: nat, n: nat)
    ensures NoDuplicates(Names(from, n))
    ensures forall k: nat :: k < from ==> Decimal(k) !in Names(from, n)
  {
    forall i, j | 0 <= i < j < n ensures Names(from, n)[i] != Names(from, n)[j] {
      if Decimal(from + i) == Decimal(from + j) {
        DecimalIsInjective(from + i, from + j);
      }
    }
    forall k: nat | k < from ensures Decimal(k) !in Names(from, n) {
      if Decimal(k) in Names(from, n) {
        var i :| 0 <= i < n && Names(from, n)[i] == Decimal(k);
        DecimalIsInjective(k, from + i);
      }
    }
  }

  lemma MissingIsMissing(c: Cache, key: Key, rotated: seq<Key>, missing: Key)
    requires Lined(c, key, rotated) && missing != key && missing !in rotated
    ensures missing !in c.entries
  {
    InOrder(c, missing);
  }

  lemma StarvesWith(maxEntries: int, key: Key, others: seq<Key>, missing: Key, n: nat)
    returns (setup: seq<Op>, later: seq<Op>)
    requires maxEntries >= SAMPLE_SIZE + 2 && |others| == SAMPLE_SIZE + 1
    requires NoDuplicates([key] + others) && missing != key && missing !in others
    ensures var c := End(EMPTY, maxEntries, setup);
            && key in c.entries && c.entries[key].expiresAt == Some(1) && Reads(later)
            && SampleCount(c, maxEntries, later) >= n && key in End(c, maxEntries, later).entries
  {
    hide End, SampleCount, Setup, Rounds, Stuck, NoDuplicates;
    setup := Setup(key, others);
    SetupSticks(maxEntries, key, others);
    var rotated := others[SAMPLE_SIZE - 1..] + others[..SAMPLE_SIZE - 1];
    later := Rounds(rotated, missing, n);
    var c := End(EMPTY, maxEntries, setup);
    StuckIsValid(c, key, rotated);
    MissingIsMissing(c, key, rotated, missing);
    HitsStarveCleanup(c, maxEntries, key, rotated, missing, n);
    RoundsOnlyRead(rotated, missing, n);
  }

  /** From the empty cache, with any budget of 18 or more: these operations leave a
      key that expires and is not stored again, and any number of samples later it
      is still there. */
  lemma LargeCacheStarves(maxEntries: int, n: nat) returns (setup: seq<Op>, later: seq<Op>, key: Key)
    requires maxEntries >= SAMPLE_SIZE + 2
    ensures var c := End(EMPTY, maxEntries, setup);
            && key in c.entries && c.entries[key].expiresAt == Some(1) && Reads(later)
            && Neglected(c, later, key) && SampleCount(c, maxEntries, later) >= n
            && key in End(c, maxEntries, later).entries
  {
    hide End, SampleCount, Names;
    var names := Names(1, SAMPLE_SIZE + 2);
    key := names[0];
    NamesDiffer(1, SAMPLE_SIZE + 2);
    assert names == [key] + names[1..];
    setup, later := StarvesWith(maxEntries, key, names[1..], Decimal(0), n);
  }

  /** Coverage, with a budget: after any operations, this many samples later a
      neglected key is gone. */
  ghost predicate Covered(maxEntries: int, bound: nat) {
    forall setup, later, key ::
      Neglected(End(EMPTY, maxEntries, setup), later, key)
      && SampleCount(End(EMPTY, maxEntries, setup), maxEntries, later) >= bound ==>
        key !in End(End(EMPTY, maxEntries, setup), maxEntries, later).entries
  }

  lemma SmallCacheIsCovered(maxEntries: int)
    requires 0 < maxEntries <= SAMPLE_SIZE + 1
    ensures Covered(maxEntries, 2)
  {
    hide End, SampleCount, Neglected;
    forall setup, later, key |
      Neglected(End(EMPTY, maxEntries, setup), later, key)
      && SampleCount(End(EMPTY, maxEntries, setup), maxEntries, later) >= 2
      ensures key !in End(End(EMPTY, maxEntries, setup), maxEntries, later).entries
    {
      var c := End(EMPTY, maxEntries, setup);
      EndFits(EMPTY, maxEntries, setup);
      SecondSampleReclaims(c, maxEntries, later, key);
      InOrder(End(c, maxEntries, later), key);
    }
  }

  /** The boundary: every resident key is visited within a bounded number of samples
      exactly when the budget is at most one more than a sample. */
  lemma CoverageExactly(maxEntries: int)
    requires maxEntries > 0
    ensures (exists bound: nat :: Covered(maxEntries, bound)) <==> maxEntries <= SAMPLE_SIZE + 1
  {
    hide End, SampleCount, Neglected;
    if maxEntries <= SAMPLE_SIZE + 1 {
      SmallCacheIsCovered(maxEntries);
    } else {
      forall bound: nat ensures !Covered(maxEntries, bound) {
        var setup, later, key := LargeCacheStarves(maxEntries, bound);
        var c := End(EMPTY, maxEntries, setup);
        assert Neglected(c, later, key) && key in End(c, maxEntries, later).entries;
      }
    }
  }
}
