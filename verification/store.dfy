/** Claim and Once (cache/store.go) against the in-memory driver. */
module StoreHelpers {
  import opened Wrappers
  import opened CacheSpec
  import opened MemoryCache
  import Lease

  datatype ClaimError = NilStore | EmptyKey | NoLease | NotAtomic | Refusing(err: Error) | NilWork | WorkFailed | ReleaseFailed

  /** The checks of Claim, in order; `atomic` is whether the store can add. */
  function ClaimRefused(store: Memory?, atomic: bool, contextDone: bool, key: Key, ttl: int): (err: Option<ClaimError>)
    ensures err.None? <==> store != null && key != "" && ttl > 0 && atomic && !contextDone
    ensures err == Some(NilStore) <==> store == null
    ensures err == Some(EmptyKey) <==> store != null && key == ""
    ensures err == Some(NoLease) <==> store != null && key != "" && ttl <= 0
    ensures err == Some(NotAtomic) <==> store != null && key != "" && ttl > 0 && !atomic
  {
    if store == null then Some(NilStore)
    else if key == "" then Some(EmptyKey)
    else if ttl <= 0 then Some(NoLease)
    else if !atomic then Some(NotAtomic)
    else if contextDone then Some(Refusing(ContextDone))
    else None
  }

  method Claim(store: Memory?, atomic: bool, contextDone: bool, key: Key, ttl: int, now: int)
    returns (claimed: bool, err: Option<ClaimError>)
    requires store != null ==> store.Valid()
    modifies if store == null then {} else {store}
    ensures store != null ==> store.Valid()
    ensures err == ClaimRefused(store, atomic, contextDone, key, ttl)
    ensures err.Some? ==> !claimed && (store != null ==> store.Contents() == old(store.Contents()))
    ensures err.None? ==> (claimed, store.Contents()) ==
                          Add(old(store.Contents()), store.maxEntries, key, Lease.CLAIM_VALUE, ttl, now)
  {
    hide CacheSpec.Valid, View, Add;
    if store == null {
      return false, Some(NilStore);
    }
    if key == "" {
      return false, Some(EmptyKey);
    }
    if ttl <= 0 {
      return false, Some(NoLease);
    }
    if !atomic {
      return false, Some(NotAtomic);
    }
    var stored, failed := store.Add(contextDone, key, Lease.CLAIM_VALUE, ttl, now);
    if failed.Some? {
      return false, Some(Refusing(failed.value));
    }
    return stored, None;
  }

  /** Once, with nothing between its steps. `work` is None for nil, or whether it
      fails; a failure deletes the key, with a context that cannot be cancelled.
      `releases` is whether the driver can delete it then: this one always can. */
  method Once(store: Memory?, atomic: bool, contextDone: bool, key: Key, ttl: int, now: int, work: Option<bool>,
              releases: bool)
    returns (ran: bool, err: Option<ClaimError>)
    requires store != null ==> store.Valid()
    modifies if store == null then {} else {store}
    ensures store != null ==> store.Valid()
    ensures work.None? ==> !ran && err == Some(NilWork)
    ensures var refused := ClaimRefused(store, atomic, contextDone, key, ttl);
            work.Some? && refused.Some? ==> !ran && err == refused
    ensures work.None? || ClaimRefused(store, atomic, contextDone, key, ttl).Some? ==>
              store != null ==> store.Contents() == old(store.Contents())
    ensures work.Some? && ClaimRefused(store, atomic, contextDone, key, ttl).None? ==>
              var (claimed, c) := Add(old(store.Contents()), store.maxEntries, key, Lease.CLAIM_VALUE, ttl, now);
              && (ran <==> claimed && (!work.value || !releases))
              && (err == if !claimed || !work.value then None else Some(if releases then WorkFailed else ReleaseFailed))
              && store.Contents() == if claimed && work.value && releases then CacheSpec.Delete(c, key) else c
  {
    hide CacheSpec.Valid, View, Add, CacheSpec.Delete;
    if work.None? {
      return false, Some(NilWork);
    }
    var claimed, failed := Claim(store, atomic, contextDone, key, ttl, now);
    if failed.Some? || !claimed {
      return false, failed;
    }
    if work.value {
      if !releases {
        return true, Some(ReleaseFailed);
      }
      var released := store.Delete(false, key);
      return false, Some(WorkFailed);
    }
    return true, None;
  }
}
