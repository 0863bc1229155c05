/** `DefaultRecordStore`: one partition's slice of one named map. It owns the
    record table (key -> Record) and the lock table (key -> LockInfo), and it
    bridges to an optional loader (read-through) and an optional store
    (write-through when the write delay is zero).

    Every operation is a pure transition from the old store to the new store,
    its result, and the log of calls it made into the loader/store bridge. */
module DefaultStore {
  import opened Wrappers
  import opened Bytes
  import opened MapConfigs
  import opened LockInfos

  /** `DefaultRecord`: a resident value and its metadata. */
  datatype Record = Record(id: nat, key: Data, value: Data, ttl: int, active: bool, dirty: bool)

  /** `MapLoader.load`: `None` is a `null` result. */
  type Loader = Data -> Option<Data>

  /** One call into the persistence bridge. */
  datatype Call = Load(key: Data) | Store(key: Data, value: Data) | Delete(key: Data)

  /** What the store fixes at construction. */
  datatype Settings = Settings(
    loader: Option<Loader>,
    hasStore: bool,
    writeDelayMillis: int,
    backupCount: int32,
    asyncBackupCount: int32)

  /** `nextId` stands for the map service's id counter (`mapService.nextId()`). */
  datatype RecordStore = RecordStore(
    settings: Settings,
    records: map<Data, Record>,
    locks: map<Data, LockInfo>,
    nextId: nat)

  /** The result of an operation that cannot fail. */
  datatype Step<+R> = Step(store: RecordStore, result: R, calls: seq<Call>)

  /** The result of an operation that may dereference a null record: the
      `NullPointer` outcome is the exception, raised after the calls logged;
      the store it carries is the one the next operation finds. */
  datatype Outcome<+R> =
    | Done(store: RecordStore, result: R, calls: seq<Call>)
    | NullPointer(store: RecordStore, calls: seq<Call>)

  // ---------------------------------------------------------------------
  // Vocabulary
  // ---------------------------------------------------------------------

  /** Every record is filed under its own key, carries an id the counter has
      already handed out, and no two records share an id. */
  ghost predicate Valid(s: RecordStore) {
    && (forall k :: k in s.records ==> s.records[k].key == k && s.records[k].id < s.nextId)
    && (forall k1, k2 :: k1 in s.records && k2 in s.records && k1 != k2 ==>
          s.records[k1].id != s.records[k2].id)
  }

  /** A store as the constructor builds it: no loader and no store. */
  predicate Unhooked(s: RecordStore) {
    s.settings.loader.None? && !s.settings.hasStore
  }

  /** `store != null && writeDelayMillis == 0`. */
  predicate WriteThrough(s: RecordStore) {
    s.settings.hasStore && s.settings.writeDelayMillis == 0
  }

  /** The resident value of `k`, if any. */
  function Lookup(s: RecordStore, k: Data): Option<Data> {
    if k in s.records then Some(s.records[k].value) else None
  }

  /** What the loader reports for `k`; `None` also when there is no loader. */
  function Loaded(s: RecordStore, k: Data): Option<Data> {
    match s.settings.loader
    case None => None
    case Some(load) => load(k)
  }

  /** The loader call a miss makes, if a loader is configured. */
  function LoadCalls(s: RecordStore, k: Data): seq<Call> {
    if s.settings.loader.Some? then [Load(k)] else []
  }

  /** The store call a write makes under write-through. */
  function StoreCalls(s: RecordStore, k: Data, v: Data): seq<Call> {
    if WriteThrough(s) then [Store(k, v)] else []
  }

  /** The delete call a removal makes under write-through. */
  function DeleteCalls(s: RecordStore, k: Data): seq<Call> {
    if WriteThrough(s) then [Delete(k)] else []
  }

  /** Only `k`'s record may differ; settings and locks are untouched. */
  ghost predicate OthersUnchanged(s: RecordStore, s': RecordStore, k: Data) {
    && s'.settings == s.settings
    && s'.locks == s.locks
    && (forall k' :: k' != k ==> (k' in s'.records <==> k' in s.records))
    && (forall k' :: k' in s.records && k' != k ==> s'.records[k'] == s.records[k'])
  }

  /** `k`'s record is gone, nothing else changed, no id was consumed. */
  ghost predicate Removed(s: RecordStore, s': RecordStore, k: Data) {
    k !in s'.records && OthersUnchanged(s, s', k) && s'.nextId == s.nextId
  }

  /** The effect of every write path (`put`, `set`, `putTransient`,
      `tryPut`, and `replace` on a resident key): `k` holds `v` with the
      active and dirty flags set; an existing record keeps its id and ttl; a
      new one takes the next id and the given ttl. */
  ghost predicate Upserted(s: RecordStore, s': RecordStore, k: Data, v: Data, ttl: int) {
    && k in s'.records
    && s'.records[k].value == v
    && s'.records[k].active
    && s'.records[k].dirty
    && OthersUnchanged(s, s', k)
    && (k in s.records ==>
          && s'.records[k].id == s.records[k].id
          && s'.records[k].ttl == s.records[k].ttl
          && s'.nextId == s.nextId)
    && (k !in s.records ==>
          && s'.records[k].id == s.nextId
          && s'.records[k].ttl == ttl
          && s'.nextId == s.nextId + 1)
  }

  // ---------------------------------------------------------------------
  // Construction and configuration
  // ---------------------------------------------------------------------

  /** The constructor: empty tables, `loader = null`, `store = null`, backup
      counts and write delay taken from the map configuration. `firstId` is
      the id counter's current value. */
  function Create(mc: MapConfig, firstId: nat): (s: RecordStore)
    ensures Unhooked(s) && Valid(s)
    ensures s.records == map[] && s.locks == map[]
    ensures s.settings.backupCount == mc.backupCount
    ensures s.settings.asyncBackupCount == mc.asyncBackupCount
    ensures s.settings.writeDelayMillis == 0 <==>
              mc.mapStoreConfig.None? || mc.mapStoreConfig.value.writeDelaySeconds == 0
  {
    RecordStore(
      Settings(None, false, WriteDelayMillis(mc), mc.backupCount, mc.asyncBackupCount),
      map[], map[], firstId)
  }

  /** `getTotalBackupCount`: an `int` sum, exact whenever it fits. */
  function TotalBackupCount(s: RecordStore): (r: int32)
    ensures (r - (s.settings.backupCount + s.settings.asyncBackupCount)) % TwoTo32 == 0
    ensures 0 <= s.settings.backupCount && 0 <= s.settings.asyncBackupCount &&
            s.settings.backupCount + s.settings.asyncBackupCount < TwoTo31 ==>
              r == s.settings.backupCount + s.settings.asyncBackupCount && r >= 0
  {
    WrapInt32(s.settings.backupCount + s.settings.asyncBackupCount)
  }

  // ---------------------------------------------------------------------
  // Record table helpers
  // ---------------------------------------------------------------------

  /** `new DefaultRecord(mapService.nextId(), key, value, ttl, -1)` filed
      under `k`. A fresh record's flags are clear until a write path sets them. */
  function Allocate(s: RecordStore, k: Data, v: Data, ttl: int): (s': RecordStore)
    requires k !in s.records
    ensures k in s'.records && s'.records[k] == Record(s.nextId, k, v, ttl, false, false)
    ensures OthersUnchanged(s, s', k) && s'.nextId == s.nextId + 1
    ensures Valid(s) ==> Valid(s')
  {
    s.(records := s.records[k := Record(s.nextId, k, v, ttl, false, false)],
       nextId := s.nextId + 1)
  }

  /** The in-memory half shared by `put`, `set`, `putTransient` and `tryPut`. */
  function Upsert(s: RecordStore, k: Data, v: Data, ttl: int): (s': RecordStore)
    ensures Upserted(s, s', k, v, ttl)
    ensures Valid(s) ==> Valid(s')
  {
    if k in s.records then
      s.(records := s.records[k := s.records[k].(value := v, active := true, dirty := true)])
    else
      var s1 := Allocate(s, k, v, ttl);
      s1.(records := s1.records[k := s1.records[k].(active := true, dirty := true)])
  }

  /** `records.remove(k)`. */
  function Drop(s: RecordStore, k: Data): (s': RecordStore)
    ensures Removed(s, s', k)
    ensures Valid(s) ==> Valid(s')
  {
    s.(records := s.records - {k})
  }

  // ---------------------------------------------------------------------
  // Reads
  // ---------------------------------------------------------------------

  /** `get`: afterwards `k` holds exactly the returned value. A hit changes
      nothing and calls nothing; a miss asks the loader once and caches a
      non-null answer in a fresh record (next id, no ttl). */
  function Get(s: RecordStore, k: Data): (r: Step<Option<Data>>)
    ensures Lookup(r.store, k) == r.result
    ensures k in s.records ==> r.store == s && r.calls == []
    ensures k !in s.records ==> r.result == Loaded(s, k) && r.calls == LoadCalls(s, k)
    ensures r.result.None? ==> r.store == s
    ensures k !in s.records && r.result.Some? ==>
              && OthersUnchanged(s, r.store, k)
              && r.store.records[k].id == s.nextId && r.store.records[k].ttl == -1
              && r.store.nextId == s.nextId + 1
    ensures Valid(s) ==> Valid(r.store)
  {
    if k in s.records then
      Step(s, Some(s.records[k].value), [])
    else
      match s.settings.loader
      case None => Step(s, None, [])
      case Some(load) =>
        match load(k)
        case None => Step(s, None, [Load(k)])
        case Some(v) => Step(Allocate(s, k, v, -1), Some(v), [Load(k)])
  }

  /** `size`: the number of resident records; zero exactly when none is. */
  function Size(s: RecordStore): (n: nat)
    ensures n == |KeySet(s)|
    ensures n == 0 <==> forall k :: Lookup(s, k).None?
  {
    if s.records == map[] then 0
    else
      assert exists k :: Lookup(s, k).Some? by {
        var k :| k in s.records;
        assert Lookup(s, k).Some?;
      }
      |s.records|
  }

  /** `keySet`: the resident keys. */
  function KeySet(s: RecordStore): (ks: set<Data>)
    ensures forall k :: k in ks <==> Lookup(s, k).Some?
  {
    s.records.Keys
  }

  /** `containsValue`: scans the resident records only, never the loader. */
  method ContainsValue(s: RecordStore, v: Data) returns (found: bool)
    ensures found <==> exists k :: Lookup(s, k) == Some(v)
  {
    var remaining := s.records.Keys;
    while remaining != {}
      invariant remaining <= s.records.Keys
      invariant forall k :: k in s.records && k !in remaining ==> s.records[k].value != v
      decreases remaining
    {
      var k :| k in remaining;
      if s.records[k].value == v {
        assert Lookup(s, k) == Some(v);
        return true;
      }
      remaining := remaining - {k};
    }
    found := false;
  }

  /** `values`: one entry per resident record. The iteration order of the
      table is unspecified, so the keys are returned beside the values in
      the order they were visited. */
  method Values(s: RecordStore) returns (vs: seq<Data>, order: seq<Data>)
    ensures |vs| == |order| == |s.records|
    ensures forall i :: 0 <= i < |order| ==> order[i] in s.records && vs[i] == s.records[order[i]].value
    ensures forall i, j :: 0 <= i < j < |order| ==> order[i] != order[j]
    ensures forall k :: k in s.records ==> k in order
  {
    var remaining := s.records.Keys;
    vs, order := [], [];
    while remaining != {}
      invariant remaining <= s.records.Keys
      invariant |vs| == |order|
      invariant |order| + |remaining| == |s.records|
      invariant forall i :: 0 <= i < |order| ==> order[i] in s.records && order[i] !in remaining
      invariant forall i :: 0 <= i < |order| ==> vs[i] == s.records[order[i]].value
      invariant forall i, j :: 0 <= i < j < |order| ==> order[i] != order[j]
      invariant forall k :: k in s.records && k !in remaining ==> k in order
      decreases remaining
    {
      var k :| k in remaining;
      vs, order := vs + [s.records[k].value], order + [k];
      remaining := remaining - {k};
    }
  }

  // ---------------------------------------------------------------------
  // Writes
  // ---------------------------------------------------------------------

  /** `put`: always overwrites. Returns the resident value, or on a miss
      what the loader reports (`None` without a loader); stores `v` once
      under write-through, after the in-memory write. */
  function Put(s: RecordStore, k: Data, v: Data, ttl: int): (r: Step<Option<Data>>)
    ensures Upserted(s, r.store, k, v, ttl)
    ensures k in s.records ==> r.result == Some(s.records[k].value) && r.calls == StoreCalls(s, k, v)
    ensures k !in s.records ==> r.result == Loaded(s, k) && r.calls == LoadCalls(s, k) + StoreCalls(s, k, v)
    ensures Valid(s) ==> Valid(r.store)
  {
    var (prior, loads) := if k in s.records then (Some(s.records[k].value), [])
                        else (Loaded(s, k), LoadCalls(s, k));
    Step(Upsert(s, k, v, ttl), prior, loads + StoreCalls(s, k, v))
  }

  /** `set`: the write of `put` without its read-through. */
  function Set(s: RecordStore, k: Data, v: Data, ttl: int): (r: Step<()>)
    ensures Upserted(s, r.store, k, v, ttl)
    ensures r.calls == StoreCalls(s, k, v)
    ensures Valid(s) ==> Valid(r.store)
  {
    Step(Upsert(s, k, v, ttl), (), StoreCalls(s, k, v))
  }

  /** `putTransient`: the write of `set`, never persisted. */
  function PutTransient(s: RecordStore, k: Data, v: Data, ttl: int): (r: Step<()>)
    ensures Upserted(s, r.store, k, v, ttl)
    ensures r.calls == []
    ensures Valid(s) ==> Valid(r.store)
  {
    Step(Upsert(s, k, v, ttl), (), [])
  }

  /** `tryPut`: the write of `set`; it always succeeds. */
  function TryPut(s: RecordStore, k: Data, v: Data, ttl: int): (r: Step<bool>)
    ensures Upserted(s, r.store, k, v, ttl)
    ensures r.result
    ensures r.calls == StoreCalls(s, k, v)
    ensures Valid(s) ==> Valid(r.store)
  {
    Step(Upsert(s, k, v, ttl), true, StoreCalls(s, k, v))
  }

  /** `putIfAbsent`. A resident value is returned and nothing changes. On a
      miss with a loader, the loader's answer is returned and NOTHING is
      inserted, even when that answer is null. Only a miss without a loader
      inserts `v` (and returns `None`). */
  function PutIfAbsent(s: RecordStore, k: Data, v: Data, ttl: int): (r: Step<Option<Data>>)
    ensures k in s.records ==> r.store == s && r.result == Some(s.records[k].value) && r.calls == []
    ensures k !in s.records && s.settings.loader.Some? ==>
              r.store == s && r.result == Loaded(s, k) && r.calls == [Load(k)]
    ensures k !in s.records && s.settings.loader.None? ==>
              Upserted(s, r.store, k, v, ttl) && r.result.None? && r.calls == StoreCalls(s, k, v)
    ensures r.store != s ==> Lookup(s, k).None? && Lookup(r.store, k) == Some(v)
    ensures Valid(s) ==> Valid(r.store)
  {
    if k in s.records then
      Step(s, Some(s.records[k].value), [])
    else if s.settings.loader.Some? then
      Step(s, Loaded(s, k), [Load(k)])
    else
      Step(Upsert(s, k, v, ttl), None, StoreCalls(s, k, v))
  }

  /** `replace(k, v)`: only a resident key is overwritten (its old value is
      returned); a miss returns `None`, changes nothing and calls nothing. */
  function Replace(s: RecordStore, k: Data, v: Data): (r: Step<Option<Data>>)
    ensures r.result == Lookup(s, k)
    ensures k !in s.records ==> r.store == s && r.calls == []
    ensures k in s.records ==>
              Upserted(s, r.store, k, v, s.records[k].ttl) && r.calls == StoreCalls(s, k, v)
    ensures Valid(s) ==> Valid(r.store)
  {
    if k in s.records then
      Step(Upsert(s, k, v, s.records[k].ttl), Some(s.records[k].value), StoreCalls(s, k, v))
    else
      Step(s, None, [])
  }

  /** `replace(k, expected, v)`: succeeds exactly when `k` holds `expected`;
      a failure changes nothing and calls nothing. */
  function ReplaceIf(s: RecordStore, k: Data, expected: Data, v: Data): (r: Step<bool>)
    ensures r.result <==> Lookup(s, k) == Some(expected)
    ensures !r.result ==> r.store == s && r.calls == []
    ensures r.result ==> Upserted(s, r.store, k, v, s.records[k].ttl) && r.calls == StoreCalls(s, k, v)
    ensures Valid(s) ==> Valid(r.store)
  {
    if k in s.records && s.records[k].value == expected then
      Step(Upsert(s, k, v, s.records[k].ttl), true, StoreCalls(s, k, v))
    else
      Step(s, false, [])
  }

  // ---------------------------------------------------------------------
  // Deletes
  // ---------------------------------------------------------------------

  /** `remove(k)`. A resident record is deleted and its value returned, with a
      delete under write-through. A miss asks the loader for the value to
      return and deletes nothing; when that value is non-null under
      write-through the code dereferences the null record (`NullPointer`). */
  function Remove(s: RecordStore, k: Data): (r: Outcome<Option<Data>>)
    ensures r.NullPointer? <==> k !in s.records && Loaded(s, k).Some? && WriteThrough(s)
    ensures k in s.records ==>
              r.Done? && Removed(s, r.store, k) && r.result == Some(s.records[k].value) &&
              r.calls == DeleteCalls(s, k)
    ensures k !in s.records ==> r.calls == LoadCalls(s, k)
    ensures k !in s.records && r.Done? ==> r.store == s && r.result == Loaded(s, k)
    ensures r.Done? ==> k !in r.store.records && r.store.records.Keys <= s.records.Keys
    ensures r.NullPointer? ==> r.store == s
    ensures Valid(s) ==> Valid(r.store)
  {
    if k in s.records then
      Done(Drop(s, k), Some(s.records[k].value), DeleteCalls(s, k))
    else
      match s.settings.loader
      case None => Done(s, None, [])
      case Some(load) =>
        if load(k).Some? && WriteThrough(s) then NullPointer(s, [Load(k)])
        else Done(s, load(k), [Load(k)])
  }

  /** `tryRemove(k)`: reports whether a resident record was deleted; the miss
      path and its null dereference are those of `remove(k)`. */
  function TryRemove(s: RecordStore, k: Data): (r: Outcome<bool>)
    ensures r.NullPointer? <==> k !in s.records && Loaded(s, k).Some? && WriteThrough(s)
    ensures r.Done? ==> (r.result <==> k in s.records)
    ensures k in s.records ==> r.Done? && Removed(s, r.store, k) && r.calls == DeleteCalls(s, k)
    ensures k !in s.records ==> r.calls == LoadCalls(s, k)
    ensures k !in s.records && r.Done? ==> r.store == s
    ensures r.NullPointer? ==> r.store == s
    ensures Valid(s) ==> Valid(r.store)
  {
    if k in s.records then
      Done(Drop(s, k), true, DeleteCalls(s, k))
    else
      match s.settings.loader
      case None => Done(s, false, [])
      case Some(load) =>
        if load(k).Some? && WriteThrough(s) then NullPointer(s, [Load(k)])
        else Done(s, false, [Load(k)])
  }

  /** `remove(k, expected)`: the value compared is the resident one, or on a
      miss the loader's. A resident match is deleted (delete under
      write-through) and reported. A loaded match reports true with nothing
      to delete, or dereferences the null record under write-through. Every
      mismatch reports false and changes nothing. */
  function RemoveIf(s: RecordStore, k: Data, expected: Data): (r: Outcome<bool>)
    ensures r.NullPointer? <==> k !in s.records && Loaded(s, k) == Some(expected) && WriteThrough(s)
    ensures k in s.records ==> r.Done? && (r.result <==> s.records[k].value == expected)
    ensures k !in s.records ==> r.calls == LoadCalls(s, k)
    ensures k !in s.records && r.Done? ==> r.store == s && (r.result <==> Loaded(s, k) == Some(expected))
    ensures r.Done? && !r.result ==> r.store == s
    ensures k in s.records && r.result ==> Removed(s, r.store, k) && r.calls == DeleteCalls(s, k)
    ensures k in s.records && !r.result ==> r.calls == []
    ensures r.NullPointer? ==> r.store == s
    ensures Valid(s) ==> Valid(r.store)
  {
    var (current, loads) := if k in s.records then (Some(s.records[k].value), [])
                            else (Loaded(s, k), LoadCalls(s, k));
    if current != Some(expected) then
      Done(s, false, loads)
    else if k in s.records then
      Done(Drop(s, k), true, DeleteCalls(s, k))
    else if WriteThrough(s) then
      NullPointer(s, loads)
    else
      Done(s, true, loads)
  }

  /** `evict`: drops the resident record only; no loader, no store. */
  function Evict(s: RecordStore, k: Data): (r: Step<bool>)
    ensures r.result <==> Lookup(s, k).Some?
    ensures Removed(s, r.store, k)
    ensures r.calls == []
    ensures Valid(s) ==> Valid(r.store)
  {
    Step(Drop(s, k), k in s.records, [])
  }

  // ---------------------------------------------------------------------
  // Lock table
  // ---------------------------------------------------------------------

  /** The lock state of `k` that `getOrCreateLock` would hand out. */
  function CurrentLock(s: RecordStore, k: Data): LockInfo {
    if k in s.locks then s.locks[k] else NewLockInfo()
  }

  /** Only `k`'s lock entry may differ; records, ids and settings are untouched. */
  ghost predicate OtherLocksUnchanged(s: RecordStore, s': RecordStore, k: Data) {
    && s'.settings == s.settings
    && s'.records == s.records
    && s'.nextId == s.nextId
    && (forall k' :: k' != k ==> (k' in s'.locks <==> k' in s.locks))
    && (forall k' :: k' in s.locks && k' != k ==> s'.locks[k'] == s.locks[k'])
  }

  /** `getOrCreateLock`: returns `k`'s lock, first filing a new one if absent. */
  function GetOrCreateLock(s: RecordStore, k: Data): (r: (RecordStore, LockInfo))
    ensures k in r.0.locks && r.0.locks[k] == r.1
    ensures k in s.locks ==> r.0 == s && r.1 == s.locks[k]
    ensures k !in s.locks ==> r.1 == NewLockInfo()
    ensures OtherLocksUnchanged(s, r.0, k)
  {
    if k in s.locks then (s, s.locks[k])
    else (s.(locks := s.locks[k := NewLockInfo()]), NewLockInfo())
  }

  /** `removeLock`: drops `k`'s lock entry, whatever its state. */
  function RemoveLock(s: RecordStore, k: Data): (s': RecordStore)
    ensures k !in s'.locks
    ensures OtherLocksUnchanged(s, s', k)
  {
    s.(locks := s.locks - {k})
  }

  /** `lock` at time `now`: acquires through the (possibly new) lock entry
      of `k`, which is present afterwards whatever the outcome. */
  function Lock(s: RecordStore, lk: LockInfoOps, k: Data, caller: Address, threadId: int, ttl: int, now: int): (r: Step<bool>)
    ensures k in r.store.locks
    ensures (r.store.locks[k], r.result) == lk.acquire(CurrentLock(s, k), caller, threadId, ttl, now)
    ensures OtherLocksUnchanged(s, r.store, k)
    ensures r.calls == []
    ensures Valid(s) ==> Valid(r.store)
  {
    var (s1, l) := GetOrCreateLock(s, k);
    var (l', ok) := lk.acquire(l, caller, threadId, ttl, now);
    Step(s1.(locks := s1.locks[k := l']), ok, [])
  }

  /** `unlock`: without an entry, or when the owner test fails, nothing
      changes and the answer is false; otherwise the entry takes the
      released state. The entry itself is never removed. */
  function Unlock(s: RecordStore, lk: LockInfoOps, k: Data, caller: Address, threadId: int, now: int): (r: Step<bool>)
    ensures k !in s.locks ==> r.store == s && !r.result
    ensures k in s.locks ==> k in r.store.locks
    ensures k in s.locks && !lk.testLock(s.locks[k], threadId, caller, now) ==> r.store == s && !r.result
    ensures k in s.locks && lk.testLock(s.locks[k], threadId, caller, now) ==>
              (r.store.locks[k], r.result) == lk.release(s.locks[k], caller, threadId, now)
    ensures r.result ==> k in s.locks && lk.testLock(s.locks[k], threadId, caller, now)
    ensures OtherLocksUnchanged(s, r.store, k)
    ensures r.store.locks.Keys == s.locks.Keys
    ensures r.calls == []
  {
    if k !in s.locks then Step(s, false, [])
    else if !lk.testLock(s.locks[k], threadId, caller, now) then Step(s, false, [])
    else
      var (l', ok) := lk.release(s.locks[k], caller, threadId, now);
      Step(s.(locks := s.locks[k := l']), ok, [])
  }

  /** `forceUnlock`: clears an existing entry regardless of its owner. */
  function ForceUnlock(s: RecordStore, lk: LockInfoOps, k: Data): (r: Step<bool>)
    ensures r.result <==> k in s.locks
    ensures !r.result ==> r.store == s
    ensures r.result ==> k in r.store.locks && r.store.locks[k] == lk.clear(s.locks[k])
    ensures OtherLocksUnchanged(s, r.store, k)
    ensures r.calls == []
  {
    if k !in s.locks then Step(s, false, [])
    else Step(s.(locks := s.locks[k := lk.clear(s.locks[k])]), true, [])
  }

  /** `isLocked` at time `now`: false without an entry, otherwise the
      entry's own answer at that time. */
  function IsLocked(s: RecordStore, lk: LockInfoOps, k: Data, now: int): (b: bool)
    ensures k !in s.locks ==> !b
    ensures b ==> lk.isLocked(s.locks[k], now)
    ensures k in s.locks && lk.isLocked(s.locks[k], now) ==> b
  {
    k in s.locks && lk.isLocked(s.locks[k], now)
  }

  /** `canRun` at time `now` for a lock-aware operation on `k` by (caller,
      threadId): true without an entry, otherwise the entry's owner test. */
  function CanRun(s: RecordStore, lk: LockInfoOps, k: Data, threadId: int, caller: Address, now: int): (b: bool)
    ensures k !in s.locks ==> b
    ensures k in s.locks ==> (b <==> lk.testLock(s.locks[k], threadId, caller, now))
  {
    k !in s.locks || lk.testLock(s.locks[k], threadId, caller, now)
  }

  /** `clear`: both tables emptied, locks dropped regardless of owner. */
  function Clear(s: RecordStore): (s': RecordStore)
    ensures forall k :: Lookup(s', k).None? && k !in s'.locks
    ensures s'.settings == s.settings && s'.nextId == s.nextId
    ensures Valid(s')
  {
    s.(records := map[], locks := map[])
  }
}
