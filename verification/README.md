# DefaultRecordStore, modelled in Dafny

This project models `DefaultRecordStore`, the per-partition record store of the Hazelcast map service. A store owns one partition's slice of one named map. It keeps two tables: `records` (key → record with value, id, ttl, and active and dirty flags) and `locks` (key → `LockInfo`). It also bridges to an optional `MapLoader` (read-through on a miss) and an optional `MapStore`. The store is written to synchronously only when `store != null && writeDelayMillis == 0` (write-through).

Every public operation is modelled as a pure transition. It takes the old store and returns the new store, its result, and the log of calls it made into the loader/store bridge (`Load(k)`, `Store(k, v)`, `Delete(k)`). Modules:

- `Wrappers` (wrappers.dfy): `Option` for Java's nullable references.
- `Bytes` (bytes.dfy): the byte form `Data` of keys and values.
- `MapConfigs` (map_config.dfy): the map settings read at construction, with the `int` arithmetic of the write-delay conversion written out.
- `LockInfos` (lock_info.dfy): the `LockInfo` state (owner pair and count). The class is not shown, so its `lock`/`unlock`/`testLock`/`isLocked`/`clear` are a record of function parameters (`LockInfoOps`). Every lock property is proved for every choice of them. All but `clear` also take the clock reading `now`, so a lock may expire between two calls with no operation on its key.
- `DefaultStore` (record_store.dfy): the state, the `Valid` invariant, and every operation of the store.
- `StoreProperties` (store_properties.dfy): lemmas that relate operations to each other.
- `StoreRuns` (store_runs.dfy): arbitrary sequences of operations and what holds over all of them.

Things the model pins down:

- `loader` and `store` are parameters (`Settings.loader`, `Settings.hasStore`), so the hook logic is modelled. The constructor fixes both to null, and `StoreRuns.AsConstructedIsSilent` proves that a store built that way never calls the bridge and never faults.
- `mapService.nextId()` is the counter `nextId`. The invariant `Valid` says each record is filed under its own key, carries an id already handed out, and has an id no other record shares. Every operation preserves it. Because of `Valid`, the key a store call logs (`k`) is the `record.getKey()` the code passes.
- On a miss, `remove`, `tryRemove` and the conditional `remove` dereference the null record (`record.getKey()`) whenever a store call is due. That happens when a loader returned a value (and, for the conditional remove, that value matched) and write-through is on. The model returns the outcome `NullPointer` there, with the loader call already made and the tables unchanged. It never invents a successful delete. The exception fails only that operation: in a run of operations, the next one is served from the unchanged store.
- Unlike `put`, `putIfAbsent` with a loader configured returns the loader's answer and inserts nothing, even when that answer is null. The code sets `absent = false` unconditionally on that path (line 362).
- The conditional `remove` on a non-resident key whose loaded value equals the test value returns `true` without deleting anything when write-through is off.
- `unlock` never removes the lock entry, even when the lock is fully released (lines 129-139). Only `removeLock` and `clear` drop entries.

## Model

| member | source | states |
|---|---|---|
| MapConfigs.WriteDelayMillisAsWritten | hazelcast/src/main/java/com/hazelcast/map/DefaultRecordStore.java:61 | the delay as computed: 0 without a map store config, otherwise the seconds times 1000 reduced modulo 2^32 (Java `int` product) |
| MapConfigs.WriteDelayAsWrittenVanishes | hazelcast/src/main/java/com/hazelcast/map/DefaultRecordStore.java:61 | a configured delay of 536870912 s yields an as-written delay of 0 (write-through), while the exact delay is non-zero |
| MapConfigs.WriteDelayMillis | hazelcast/src/main/java/com/hazelcast/map/DefaultRecordStore.java:61 | the delay in milliseconds fits a `long`; it is zero iff no map store config exists or its delay is zero, and positive iff the configured delay is positive |
| MapConfigs.WriteDelayAgreesInRange | hazelcast/src/main/java/com/hazelcast/map/DefaultRecordStore.java:61 | for delays within ±2147483 s the as-written and exact derivations agree |
| LockInfos.NewLockInfo | hazelcast/src/main/java/com/hazelcast/map/DefaultRecordStore.java:68 | a new lock state has no owner and count zero |
| DefaultStore.Create | hazelcast/src/main/java/com/hazelcast/map/DefaultRecordStore.java:52-63 | a new store has empty tables, no loader and no store, the configured backup counts, and a zero write delay exactly when no delay is configured; it satisfies `Valid` |
| DefaultStore.TotalBackupCount | hazelcast/src/main/java/com/hazelcast/map/DefaultRecordStore.java:90-92 | the `int` sum of both backup counts: congruent to the exact sum modulo 2^32, and equal to it when both are non-negative and the sum fits |
| DefaultStore.Get | hazelcast/src/main/java/com/hazelcast/map/DefaultRecordStore.java:233-250 | afterwards the key holds exactly the returned value; a hit changes and calls nothing; a miss returns the loader's answer with one loader call; a non-null answer is cached in a fresh record (next id, ttl -1) and a null one leaves the store unchanged; preserves `Valid` |
| DefaultStore.Size | hazelcast/src/main/java/com/hazelcast/map/DefaultRecordStore.java:109-111 | the number of resident keys; zero exactly when no key is resident |
| DefaultStore.KeySet | hazelcast/src/main/java/com/hazelcast/map/DefaultRecordStore.java:172-174 | a key is in the key set iff it is resident |
| DefaultStore.ContainsValue | hazelcast/src/main/java/com/hazelcast/map/DefaultRecordStore.java:113-120 | true iff some resident record holds the value; resident records only, never the loader |
| DefaultStore.Values | hazelcast/src/main/java/com/hazelcast/map/DefaultRecordStore.java:176-182 | one value per resident record: the returned visiting order lists every resident key exactly once, and each value is the value of the key at the same position |
| DefaultStore.Put | hazelcast/src/main/java/com/hazelcast/map/DefaultRecordStore.java:252-272 | the key ends resident with the new value and both flags set, other keys and locks unchanged; returns the prior resident value, or on a miss the loader's answer (None without a loader); calls are the miss's loader call then one store call under write-through; preserves `Valid` |
| DefaultStore.Set | hazelcast/src/main/java/com/hazelcast/map/DefaultRecordStore.java:310-323 | the same upsert as `put` with no loader call; one store call exactly under write-through |
| DefaultStore.PutTransient | hazelcast/src/main/java/com/hazelcast/map/DefaultRecordStore.java:326-336 | the same upsert, with no bridge call at all |
| DefaultStore.TryPut | hazelcast/src/main/java/com/hazelcast/map/DefaultRecordStore.java:338-352 | the same upsert, always returning true, with a store call exactly under write-through |
| DefaultStore.PutIfAbsent | hazelcast/src/main/java/com/hazelcast/map/DefaultRecordStore.java:354-378 | a resident key returns its value with nothing changed; a miss with a loader returns the loader's answer and changes nothing; a miss without a loader inserts the value and returns None; the store changes only when the key was absent and then holds the new value |
| DefaultStore.Replace | hazelcast/src/main/java/com/hazelcast/map/DefaultRecordStore.java:274-289 | returns the prior resident value; a non-resident key changes and calls nothing; a resident key is overwritten, keeping its ttl, with a store call under write-through |
| DefaultStore.ReplaceIf | hazelcast/src/main/java/com/hazelcast/map/DefaultRecordStore.java:292-307 | true iff the key is resident with the expected value; false changes nothing and calls nothing; true overwrites the key |
| DefaultStore.Remove | hazelcast/src/main/java/com/hazelcast/map/DefaultRecordStore.java:184-201 | a resident key is removed (only that key, no id used) and its value returned, with a delete under write-through; a miss returns the loader's answer, deletes nothing and calls only the loader; it faults exactly when a loaded value meets write-through; never creates a record |
| DefaultStore.TryRemove | hazelcast/src/main/java/com/hazelcast/map/DefaultRecordStore.java:150-170 | true iff the key was resident and is now removed; the miss path calls only the loader, changes nothing, and faults exactly when a loaded value meets write-through |
| DefaultStore.RemoveIf | hazelcast/src/main/java/com/hazelcast/map/DefaultRecordStore.java:207-231 | a resident key is removed iff its value equals the test value; a miss compares the loader's answer, changes nothing, and faults exactly when that answer matches under write-through; false always means unchanged |
| DefaultStore.Evict | hazelcast/src/main/java/com/hazelcast/map/DefaultRecordStore.java:203-205 | true iff the key was resident; exactly that record is removed; no bridge call |
| DefaultStore.GetOrCreateLock | hazelcast/src/main/java/com/hazelcast/map/DefaultRecordStore.java:65-72 | returns the key's existing lock unchanged, or files and returns a new one; nothing else changes |
| DefaultStore.RemoveLock | hazelcast/src/main/java/com/hazelcast/map/DefaultRecordStore.java:78-80 | the key's lock entry is gone; nothing else changes |
| DefaultStore.Lock | hazelcast/src/main/java/com/hazelcast/map/DefaultRecordStore.java:104-107 | the key has a lock entry afterwards, holding the state `LockInfo.lock` produced from the existing or a new lock, with its result; records and other locks untouched |
| DefaultStore.Unlock | hazelcast/src/main/java/com/hazelcast/map/DefaultRecordStore.java:129-139 | false and unchanged without an entry or when the owner test fails; otherwise the entry takes `LockInfo.unlock`'s state and result; true only after a passing owner test; the entry is never removed; records untouched |
| DefaultStore.ForceUnlock | hazelcast/src/main/java/com/hazelcast/map/DefaultRecordStore.java:142-148 | true iff an entry exists, which is then cleared regardless of owner; otherwise nothing changes |
| DefaultStore.IsLocked | hazelcast/src/main/java/com/hazelcast/map/DefaultRecordStore.java:122-127 | false without an entry, otherwise the entry's own `isLocked` |
| DefaultStore.CanRun | hazelcast/src/main/java/com/hazelcast/map/DefaultRecordStore.java:94-97 | true without an entry, otherwise the entry's owner test for the operation's thread and caller |
| DefaultStore.Clear | hazelcast/src/main/java/com/hazelcast/map/DefaultRecordStore.java:99-102 | no key is resident and no key has a lock entry; settings and id counter kept |
| StoreProperties.GetIdempotent | hazelcast/src/main/java/com/hazelcast/map/DefaultRecordStore.java:233-250 | a second get returns the same value and changes nothing; it calls nothing if the first found a value, and the loader again otherwise |
| StoreProperties.ReadThroughCaches | hazelcast/src/main/java/com/hazelcast/map/DefaultRecordStore.java:237-244 | a miss the loader answers with v calls it once and caches v, so the next get returns v with no call |
| StoreProperties.WriteThenGet | hazelcast/src/main/java/com/hazelcast/map/DefaultRecordStore.java:252-352 | after put, set, putTransient or tryPut, get returns the written value from memory with no call |
| StoreProperties.WritesAgree | hazelcast/src/main/java/com/hazelcast/map/DefaultRecordStore.java:252-352 | the four upserts leave identical tables; put's calls are set's calls preceded by the miss's loader call; putTransient calls nothing |
| StoreProperties.PutWritesThrough | hazelcast/src/main/java/com/hazelcast/map/DefaultRecordStore.java:266-270 | under write-through, put's last call stores the new value, exactly once, and memory already holds it |
| StoreProperties.WriteBehindNeverStores | hazelcast/src/main/java/com/hazelcast/map/DefaultRecordStore.java:268-270 | without write-through, put makes loader calls only, and set, tryPut and replace make none |
| StoreProperties.PutIfAbsentVersusPut | hazelcast/src/main/java/com/hazelcast/map/DefaultRecordStore.java:354-378 | on a miss the loader answers with v, putIfAbsent returns v and leaves the key non-resident, while put returns v and leaves the key holding the new value |
| StoreProperties.PutIfAbsentOnResidentIsGet | hazelcast/src/main/java/com/hazelcast/map/DefaultRecordStore.java:374-376 | on a resident key putIfAbsent behaves exactly as get |
| StoreProperties.ReplaceIfAgreesWithReplace | hazelcast/src/main/java/com/hazelcast/map/DefaultRecordStore.java:292-307 | a matching conditional replace has the effect and calls of the unconditional one, after which the key holds the new value |
| StoreProperties.ReplaceRoundTrip | hazelcast/src/main/java/com/hazelcast/map/DefaultRecordStore.java:274-289 | replacing with v then with the old value restores the old value, returns v, and uses no id |
| StoreProperties.RemoveUndoesPut | hazelcast/src/main/java/com/hazelcast/map/DefaultRecordStore.java:184-201 | remove after a put of a non-resident key returns the put value and restores the record and lock tables |
| StoreProperties.EvictVersusRemove | hazelcast/src/main/java/com/hazelcast/map/DefaultRecordStore.java:203-205 | on a resident key evict and remove leave the same tables; evict calls nothing, remove deletes under write-through |
| StoreProperties.TryRemoveAgreesWithRemove | hazelcast/src/main/java/com/hazelcast/map/DefaultRecordStore.java:150-170 | tryRemove faults, calls and changes the tables exactly as remove, and reports residency |
| StoreProperties.RemoveIfMatchIsRemove | hazelcast/src/main/java/com/hazelcast/map/DefaultRecordStore.java:218-229 | a conditional remove whose test value is the resident value succeeds with the effect and calls of remove |
| StoreProperties.DeletesNeverCreate | hazelcast/src/main/java/com/hazelcast/map/DefaultRecordStore.java:150-231 | remove, tryRemove, conditional remove and evict never add a resident key |
| StoreProperties.NullPointerNeedsBothHooks | hazelcast/src/main/java/com/hazelcast/map/DefaultRecordStore.java:164-168 | a null dereference in any remove needs both a loader and write-through |
| StoreProperties.SizeAfterWrite | hazelcast/src/main/java/com/hazelcast/map/DefaultRecordStore.java:310-323 | a write grows the size by one iff the key was not resident |
| StoreProperties.SizeAfterEvict | hazelcast/src/main/java/com/hazelcast/map/DefaultRecordStore.java:203-205 | an eviction shrinks the size by one iff the key was resident |
| StoreProperties.ForceUnlockReleases | hazelcast/src/main/java/com/hazelcast/map/DefaultRecordStore.java:142-148 | if a cleared lock reports unlocked, isLocked is false after forceUnlock |
| StoreProperties.ForceUnlockThenLock | hazelcast/src/main/java/com/hazelcast/map/DefaultRecordStore.java:142-148 | if a cleared lock can be acquired by a caller, that caller's lock succeeds after forceUnlock, whoever held it |
| StoreProperties.LockLeavesRecords | hazelcast/src/main/java/com/hazelcast/map/DefaultRecordStore.java:104-148 | lock, unlock and forceUnlock never touch records; lock adds an entry exactly when none existed; unlock and forceUnlock keep the set of keys with entries |
| StoreProperties.RemoveLockUndoesCreate | hazelcast/src/main/java/com/hazelcast/map/DefaultRecordStore.java:65-80 | removing the lock entry that getOrCreateLock filed for a key without one gives back the original store |
| StoreProperties.GetOrCreateLockIdempotent | hazelcast/src/main/java/com/hazelcast/map/DefaultRecordStore.java:65-72 | a second getOrCreateLock on the same key returns the same lock and leaves the store as the first call left it |
| StoreProperties.ClearResets | hazelcast/src/main/java/com/hazelcast/map/DefaultRecordStore.java:99-102 | after clear: size 0, no key locked, every operation may run, get goes to the loader, unlock and forceUnlock report false |
| StoreRuns.Apply | hazelcast/src/main/java/com/hazelcast/map/DefaultRecordStore.java:65-378 | any one operation keeps the settings, never lowers the id counter, preserves `Valid`, leaves the store unchanged when it faults, and on a store without hooks neither faults nor calls the bridge |
| StoreRuns.Run | hazelcast/src/main/java/com/hazelcast/map/DefaultRecordStore.java:65-378 | over any sequence of operations the settings are kept, the id counter never drops, `Valid` is preserved, at most one fault per operation is counted, and a store without hooks neither faults nor calls the bridge. That a fault fails only its own operation is not in this contract: it follows from the definition and from `Apply` keeping the store on a fault |
| StoreRuns.FaultDoesNotEndRun | hazelcast/src/main/java/com/hazelcast/map/DefaultRecordStore.java:184-201 | after a faulting remove, a following set finds the unchanged store and writes as usual; the run counts one fault |
| StoreRuns.AsConstructedIsSilent | hazelcast/src/main/java/com/hazelcast/map/DefaultRecordStore.java:56-57 | from the constructor's state, any sequence of operations runs without a fault or a bridge call and keeps `Valid` |
| StoreRuns.ScenarioWithoutHooks | hazelcast/src/main/java/com/hazelcast/map/DefaultRecordStore.java:184-272 | with no loader or store: put returns None, a second put returns the first value, get the second, remove the second, and a final get None |

## Left out

- hazelcast-client/src/main/java/com/hazelcast/client/cache/HazelcastClientCachingProvider.java: client and JCache bootstrap wiring, with no store logic.
- hazelcast/src/main/java/com/hazelcast/queue/impl/client/ClearRequest.java: request glue of constants (class id, permission, method name) with no behaviour.
- Concurrency: the tables are `ConcurrentHashMap`s in the code. Here they are immutable maps under a single writer.
- Serialization: `toData`/`toObject` are the identity, and `equals` is value equality.
- Constructor lookups: `MapConfig`, `PartitionContainer`, `PartitionInfo`, the map name and `MapService` are replaced by a `MapConfig` value and the starting id.
- `getBackupCount`, `getAsyncBackupCount` and `getLock`: plain field reads and a table lookup, stated through `Create` and the lock operations.
- `LockInfo`: the class is not part of this model. Its ownership matching, reentrancy, TTL and expiry are uninterpreted parameters: `acquire`, `release`, `testLock` and `isLocked` receive the current time `now`, and what a lock reports at each time is theirs to decide. Lock properties hold for every implementation of them. Which time a caller passes (the cluster clock) is not modelled.
- `DefaultRecord`: the class is not part of this model. A freshly constructed record is taken to have both flags clear; this matters only for the record `get` caches. The fifth constructor argument is `-1` at every call site and is dropped.
- DefaultStore.Create: it derives the write delay with the corrected `MapConfigs.WriteDelayMillis` of the "## Findings" row, not the wrapping `int` product of line 61. The two values differ for every delay beyond ±2147483 seconds. The store only compares the delay with zero, though, and that comparison differs only for a non-zero multiple of 2^29 seconds: there the source gets 0 and `Create` does not.
- DefaultStore.Size: it returns the exact number of records as an unbounded `nat`. The source's `int size()` is capped at 2^31-1 (`Integer.MAX_VALUE`) once the table holds more records. `Values` likewise returns every value, although the source's `ArrayList` cannot hold more than 2^31-1.
- DefaultStore.KeySet: it returns a snapshot of the resident keys. The source's `records.keySet()` is a live view of the table: removing a key through it removes the record, and later writes show up in it.
- The loader is a fixed function from key to answer, so repeated loads of a key give the same answer. A real `MapLoader` reads an external store whose contents may change between calls. The model does not cover that.
- StoreProperties.GetIdempotent: after a miss that loaded nothing, it promises that a second `get` returns `None` again. That holds only because the loader is deterministic here. With a changing external store, the second load could find a value.
- Null arguments: `Data` is never null, so keys, values and test values are taken to be non-null. In the source, `remove(k, null)` on a resident key throws at line 222 (`testValue.equals`). A null value written by `put` or `set` makes a record that `containsValue` would dereference at line 116. Callers are assumed to reject nulls before the store.
- Loader and store exceptions: they are not modelled. The bridge calls are logged, and the null dereference is the only fault.

## Findings

| source | as written | input that shows it | evidently intended | confidence | as-written member | corrected member |
|---|---|---|---|---|---|---|
| hazelcast/src/main/java/com/hazelcast/map/DefaultRecordStore.java:61 | `getWriteDelaySeconds() * 1000` is computed in 32-bit `int` and wraps before widening to `long` | write delay 536870912 s: the product is 125·2^32, so `writeDelayMillis` is 0. Because line 57 fixes `store = null`, the wrong value stays latent; it would turn the store write-through once a store is configured | the product taken in `long`, zero only for a zero delay | low: assumes `getWriteDelaySeconds` returns `int` (MapStoreConfig is not part of this model); not executed | MapConfigs.WriteDelayAsWrittenVanishes | MapConfigs.WriteDelayMillis |
