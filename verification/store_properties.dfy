/** Properties that relate several record store operations to each other:
    read-after-write, inverses, the agreement of the write paths, the
    difference between `put` and `putIfAbsent` and between `remove` and
    `evict`, and what the lock table does around the abstract `LockInfo`. */
module StoreProperties {
  import opened Wrappers
  import opened Bytes
  import opened LockInfos
  import opened DefaultStore

  // ---------------------------------------------------------------------
  // Reads
  // ---------------------------------------------------------------------

  /** A second `get` of the same key returns what the first returned and
      changes nothing. It calls nothing when the first found a value (a hit,
      or a loaded value now cached); a miss that loaded nothing left nothing
      behind, so the second asks the loader again. */
  lemma GetIdempotent(s: RecordStore, k: Data)
    ensures var g := Get(s, k);
            && Get(g.store, k).store == g.store
            && Get(g.store, k).result == g.result
            && Get(g.store, k).calls == (if g.result.Some? then [] else LoadCalls(s, k))
  {
    var g := Get(s, k);
    if g.result.None? {
      assert g.store == s;
    }
  }

  /** Read-through caching: a miss that the loader answers with `v` calls
      the loader once, and the next `get` returns `v` without calling it. */
  lemma ReadThroughCaches(s: RecordStore, k: Data, v: Data)
    requires k !in s.records && Loaded(s, k) == Some(v)
    ensures var g := Get(s, k);
            && g.result == Some(v)
            && g.calls == [Load(k)]
            && Get(g.store, k) == Step(g.store, Some(v), [])
  {
    GetIdempotent(s, k);
  }

  // ---------------------------------------------------------------------
  // Writes
  // ---------------------------------------------------------------------

  /** After any of the four upserts, `get` returns the written value from
      memory and calls nothing. */
  lemma WriteThenGet(s: RecordStore, k: Data, v: Data, ttl: int)
    ensures Get(Put(s, k, v, ttl).store, k) == Step(Put(s, k, v, ttl).store, Some(v), [])
    ensures Get(Set(s, k, v, ttl).store, k) == Step(Set(s, k, v, ttl).store, Some(v), [])
    ensures Get(PutTransient(s, k, v, ttl).store, k) == Step(PutTransient(s, k, v, ttl).store, Some(v), [])
    ensures Get(TryPut(s, k, v, ttl).store, k) == Step(TryPut(s, k, v, ttl).store, Some(v), [])
  {
  }

  /** `put`, `set`, `putTransient` and `tryPut` leave the same tables; they
      differ only in what they return and which bridge calls they make:
      `put` reads through on a miss, `putTransient` never persists. */
  lemma WritesAgree(s: RecordStore, k: Data, v: Data, ttl: int)
    ensures Put(s, k, v, ttl).store == Set(s, k, v, ttl).store
    ensures PutTransient(s, k, v, ttl).store == Set(s, k, v, ttl).store
    ensures TryPut(s, k, v, ttl).store == Set(s, k, v, ttl).store
    ensures Put(s, k, v, ttl).calls ==
              (if k in s.records then [] else LoadCalls(s, k)) + Set(s, k, v, ttl).calls
    ensures PutTransient(s, k, v, ttl).calls == []
  {
  }

  /** A write-through `put` stores the new value exactly once, as its last
      bridge call, and the record already holds that value. */
  lemma PutWritesThrough(s: RecordStore, k: Data, v: Data, ttl: int)
    requires WriteThrough(s)
    ensures var p := Put(s, k, v, ttl);
            && |p.calls| >= 1
            && p.calls[|p.calls| - 1] == Store(k, v)
            && multiset(p.calls)[Store(k, v)] == 1
            && Lookup(p.store, k) == Some(v)
  {
  }

  /** Without write-through no write path makes a store call. */
  lemma WriteBehindNeverStores(s: RecordStore, k: Data, v: Data, ttl: int)
    requires !WriteThrough(s)
    ensures forall c :: c in Put(s, k, v, ttl).calls ==> c.Load?
    ensures Set(s, k, v, ttl).calls == [] && TryPut(s, k, v, ttl).calls == []
    ensures Replace(s, k, v).calls == []
  {
  }

  /** `putIfAbsent` against `put` on a miss the loader answers with `v`:
      both return `v`, but `putIfAbsent` leaves the store as it was (the key
      stays non-resident) while `put` makes the key hold `w`. */
  lemma PutIfAbsentVersusPut(s: RecordStore, k: Data, v: Data, w: Data, ttl: int)
    requires k !in s.records && s.settings.loader.Some? && Loaded(s, k) == Some(v)
    ensures PutIfAbsent(s, k, w, ttl).result == Some(v)
    ensures PutIfAbsent(s, k, w, ttl).store == s
    ensures Lookup(PutIfAbsent(s, k, w, ttl).store, k).None?
    ensures Put(s, k, w, ttl).result == Some(v)
    ensures Lookup(Put(s, k, w, ttl).store, k) == Some(w)
  {
  }

  /** On a resident key `putIfAbsent` is a read: the same answer as `get`,
      nothing changed. */
  lemma PutIfAbsentOnResidentIsGet(s: RecordStore, k: Data, v: Data, ttl: int)
    requires k in s.records
    ensures PutIfAbsent(s, k, v, ttl) == Get(s, k)
  {
  }

  /** A successful conditional replace has the same effect as the
      unconditional one; after either, the key holds the new value. */
  lemma ReplaceIfAgreesWithReplace(s: RecordStore, k: Data, expected: Data, v: Data)
    requires Lookup(s, k) == Some(expected)
    ensures ReplaceIf(s, k, expected, v).store == Replace(s, k, v).store
    ensures ReplaceIf(s, k, expected, v).calls == Replace(s, k, v).calls
    ensures Lookup(Replace(s, k, v).store, k) == Some(v)
  {
  }

  /** `replace` undoes itself: `replace(k, v)` then
      `replace(k, old)` restores the old value and returns `v`. */
  lemma ReplaceRoundTrip(s: RecordStore, k: Data, v: Data)
    requires k in s.records
    ensures var r1 := Replace(s, k, v);
            var r2 := Replace(r1.store, k, s.records[k].value);
            && r2.result == Some(v)
            && Lookup(r2.store, k) == Lookup(s, k)
            && r2.store.nextId == s.nextId
  {
  }

  // ---------------------------------------------------------------------
  // Deletes
  // ---------------------------------------------------------------------

  /** `remove` undoes a `put` of a key that was not resident: the record
      table is as it was before, and the put value is returned. */
  lemma RemoveUndoesPut(s: RecordStore, k: Data, v: Data, ttl: int)
    requires k !in s.records
    ensures var p := Put(s, k, v, ttl);
            var r := Remove(p.store, k);
            && r.Done?
            && r.result == Some(v)
            && r.store.records == s.records
            && r.store.locks == s.locks
            && r.calls == DeleteCalls(s, k)
  {
    var p := Put(s, k, v, ttl);
    var r := Remove(p.store, k);
    assert r.store.records.Keys == s.records.Keys;
    forall k' | k' in s.records
      ensures r.store.records[k'] == s.records[k']
    {
      assert k' != k;
    }
  }

  /** `evict` and `remove` of a resident key leave the same tables; only
      `remove` calls the store (a delete, under write-through). */
  lemma EvictVersusRemove(s: RecordStore, k: Data)
    requires k in s.records
    ensures Remove(s, k).Done? && Remove(s, k).store == Evict(s, k).store
    ensures Evict(s, k).calls == []
    ensures WriteThrough(s) ==> Remove(s, k).calls == [Delete(k)]
  {
  }

  /** `tryRemove` has the effect of `remove`: the same tables, the same
      calls, the same null dereference; it reports residency instead of
      the value. */
  lemma TryRemoveAgreesWithRemove(s: RecordStore, k: Data)
    ensures TryRemove(s, k).NullPointer? <==> Remove(s, k).NullPointer?
    ensures TryRemove(s, k).calls == Remove(s, k).calls
    ensures TryRemove(s, k).Done? ==>
              TryRemove(s, k).store == Remove(s, k).store &&
              (TryRemove(s, k).result <==> Lookup(s, k).Some?)
  {
  }

  /** A conditional remove that matches the resident value is a `remove`. */
  lemma RemoveIfMatchIsRemove(s: RecordStore, k: Data)
    requires k in s.records
    ensures var test := s.records[k].value;
            && RemoveIf(s, k, test).Done? && RemoveIf(s, k, test).result
            && RemoveIf(s, k, test).store == Remove(s, k).store
            && RemoveIf(s, k, test).calls == Remove(s, k).calls
  {
  }

  /** None of the deletes ever creates a record. */
  lemma DeletesNeverCreate(s: RecordStore, k: Data, test: Data)
    ensures Remove(s, k).Done? ==> Remove(s, k).store.records.Keys <= s.records.Keys
    ensures TryRemove(s, k).Done? ==> TryRemove(s, k).store.records.Keys <= s.records.Keys
    ensures RemoveIf(s, k, test).Done? ==> RemoveIf(s, k, test).store.records.Keys <= s.records.Keys
    ensures Evict(s, k).store.records.Keys <= s.records.Keys
  {
  }

  /** The null dereference is reachable only when a loader AND a
      write-through store are both configured. */
  lemma NullPointerNeedsBothHooks(s: RecordStore, k: Data, test: Data)
    requires Remove(s, k).NullPointer? || TryRemove(s, k).NullPointer? || RemoveIf(s, k, test).NullPointer?
    ensures s.settings.loader.Some? && WriteThrough(s)
  {
  }

  // ---------------------------------------------------------------------
  // Size
  // ---------------------------------------------------------------------

  /** A write grows the record count by one exactly when the key was not
      resident. */
  lemma SizeAfterWrite(s: RecordStore, k: Data, v: Data, ttl: int)
    ensures Size(Set(s, k, v, ttl).store) == Size(s) + (if k in s.records then 0 else 1)
  {
    var s' := Set(s, k, v, ttl).store;
    assert s'.records == s.records[k := s'.records[k]];
  }

  /** An eviction shrinks the record count by one exactly when the key was
      resident. */
  lemma SizeAfterEvict(s: RecordStore, k: Data)
    ensures Size(Evict(s, k).store) == Size(s) - (if k in s.records then 1 else 0)
  {
    var s' := Evict(s, k).store;
    assert Size(s') == |KeySet(s')| && Size(s) == |KeySet(s)|;
    if k in s.records {
      assert KeySet(s') == KeySet(s) - {k};
    } else {
      assert KeySet(s') == KeySet(s);
    }
  }

  // ---------------------------------------------------------------------
  // Lock table
  // ---------------------------------------------------------------------

  /** If a cleared `LockInfo` reports unlocked, `forceUnlock` unlocks any
      key that has an entry. */
  lemma ForceUnlockReleases(s: RecordStore, lk: LockInfoOps, k: Data, now: int)
    requires k in s.locks
    requires !lk.isLocked(lk.clear(s.locks[k]), now)
    ensures !IsLocked(ForceUnlock(s, lk, k).store, lk, k, now)
  {
  }

  /** If a cleared `LockInfo` can be acquired by (caller, threadId), then
      after `forceUnlock` that caller's `lock` succeeds, whoever held the
      key before. */
  lemma ForceUnlockThenLock(s: RecordStore, lk: LockInfoOps, k: Data, caller: Address, threadId: int, ttl: int, now: int)
    requires k in s.locks
    requires lk.acquire(lk.clear(s.locks[k]), caller, threadId, ttl, now).1
    ensures Lock(ForceUnlock(s, lk, k).store, lk, k, caller, threadId, ttl, now).result
  {
  }

  /** No lock operation touches the record table; `lock` files an entry
      when there was none, and no lock operation removes one. */
  lemma LockLeavesRecords(s: RecordStore, lk: LockInfoOps, k: Data, caller: Address, threadId: int, ttl: int, now: int)
    ensures Lock(s, lk, k, caller, threadId, ttl, now).store.records == s.records
    ensures Unlock(s, lk, k, caller, threadId, now).store.records == s.records
    ensures ForceUnlock(s, lk, k).store.records == s.records
    ensures k in s.locks ==> Lock(s, lk, k, caller, threadId, ttl, now).store.locks.Keys == s.locks.Keys
    ensures k !in s.locks ==> Lock(s, lk, k, caller, threadId, ttl, now).store.locks.Keys == s.locks.Keys + {k}
    ensures Unlock(s, lk, k, caller, threadId, now).store.locks.Keys == s.locks.Keys
    ensures ForceUnlock(s, lk, k).store.locks.Keys == s.locks.Keys
  {
    var s' := Lock(s, lk, k, caller, threadId, ttl, now).store;
    if k in s.locks {
      assert s'.locks.Keys == s.locks.Keys;
    } else {
      assert s'.locks.Keys == s.locks.Keys + {k};
    }
  }

  /** After `clear`, every key is unlocked, every lock-aware operation may
      run, nothing is resident, and a `get` goes to the loader. */
  lemma ClearResets(s: RecordStore, lk: LockInfoOps, k: Data, caller: Address, threadId: int, now: int)
    ensures Size(Clear(s)) == 0
    ensures !IsLocked(Clear(s), lk, k, now)
    ensures CanRun(Clear(s), lk, k, threadId, caller, now)
    ensures Get(Clear(s), k).calls == LoadCalls(s, k)
    ensures !Unlock(Clear(s), lk, k, caller, threadId, now).result
    ensures !ForceUnlock(Clear(s), lk, k).result
  {
  }

  /** A lock entry filed by `getOrCreateLock` for a key that had none is
      exactly what `removeLock` takes away: the pair leaves the store as it
      was. */
  lemma RemoveLockUndoesCreate(s: RecordStore, k: Data)
    requires k !in s.locks
    ensures RemoveLock(GetOrCreateLock(s, k).0, k) == s
  {
    var s' := RemoveLock(GetOrCreateLock(s, k).0, k);
    assert s'.locks == s.locks;
  }

  /** A second `getOrCreateLock` on the same key neither files another
      entry nor returns a different lock. */
  lemma GetOrCreateLockIdempotent(s: RecordStore, k: Data)
    ensures var p := GetOrCreateLock(s, k);
            GetOrCreateLock(p.0, k) == p
  {
  }
}
