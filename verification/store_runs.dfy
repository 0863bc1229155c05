/** Sequences of record store operations, as the partition's single writer
    applies them one after another, and what holds of every such run. */
module StoreRuns {
  import opened Wrappers
  import opened Bytes
  import opened MapConfigs
  import opened LockInfos
  import opened DefaultStore

  /** Every state-changing operation of the record store. */
  datatype Op =
    | GetOp(key: Data)
    | PutOp(key: Data, value: Data, ttl: int)
    | SetOp(key: Data, value: Data, ttl: int)
    | PutTransientOp(key: Data, value: Data, ttl: int)
    | TryPutOp(key: Data, value: Data, ttl: int)
    | PutIfAbsentOp(key: Data, value: Data, ttl: int)
    | ReplaceOp(key: Data, value: Data)
    | ReplaceIfOp(key: Data, expected: Data, value: Data)
    | RemoveOp(key: Data)
    | RemoveIfOp(key: Data, expected: Data)
    | TryRemoveOp(key: Data)
    | EvictOp(key: Data)
    | GetOrCreateLockOp(key: Data)
    | RemoveLockOp(key: Data)
    | LockOp(key: Data, caller: Address, threadId: int, ttl: int, now: int)
    | UnlockOp(key: Data, caller: Address, threadId: int, now: int)
    | ForceUnlockOp(key: Data)
    | ClearOp

  /** One operation, its result dropped. */
  function Apply(s: RecordStore, lk: LockInfoOps, op: Op): (r: Outcome<()>)
    ensures r.store.settings == s.settings && r.store.nextId >= s.nextId
    ensures r.NullPointer? ==> r.store == s
    ensures Valid(s) ==> Valid(r.store)
    ensures Unhooked(s) ==> r.Done? && r.calls == []
  {
    match op
    case GetOp(k) => var g := Get(s, k); Done(g.store, (), g.calls)
    case PutOp(k, v, ttl) => var p := Put(s, k, v, ttl); Done(p.store, (), p.calls)
    case SetOp(k, v, ttl) => var p := Set(s, k, v, ttl); Done(p.store, (), p.calls)
    case PutTransientOp(k, v, ttl) => var p := PutTransient(s, k, v, ttl); Done(p.store, (), p.calls)
    case TryPutOp(k, v, ttl) => var p := TryPut(s, k, v, ttl); Done(p.store, (), p.calls)
    case PutIfAbsentOp(k, v, ttl) => var p := PutIfAbsent(s, k, v, ttl); Done(p.store, (), p.calls)
    case ReplaceOp(k, v) => var p := Replace(s, k, v); Done(p.store, (), p.calls)
    case ReplaceIfOp(k, e, v) => var p := ReplaceIf(s, k, e, v); Done(p.store, (), p.calls)
    case RemoveOp(k) =>
      (match Remove(s, k)
       case Done(s', _, calls) => Done(s', (), calls)
       case NullPointer(s', calls) => NullPointer(s', calls))
    case RemoveIfOp(k, e) =>
      (match RemoveIf(s, k, e)
       case Done(s', _, calls) => Done(s', (), calls)
       case NullPointer(s', calls) => NullPointer(s', calls))
    case TryRemoveOp(k) =>
      (match TryRemove(s, k)
       case Done(s', _, calls) => Done(s', (), calls)
       case NullPointer(s', calls) => NullPointer(s', calls))
    case EvictOp(k) => var p := Evict(s, k); Done(p.store, (), p.calls)
    case GetOrCreateLockOp(k) => Done(GetOrCreateLock(s, k).0, (), [])
    case RemoveLockOp(k) => Done(RemoveLock(s, k), (), [])
    case LockOp(k, c, t, ttl, now) => var p := Lock(s, lk, k, c, t, ttl, now); Done(p.store, (), p.calls)
    case UnlockOp(k, c, t, now) => var p := Unlock(s, lk, k, c, t, now); Done(p.store, (), p.calls)
    case ForceUnlockOp(k) => var p := ForceUnlock(s, lk, k); Done(p.store, (), p.calls)
    case ClearOp => Done(Clear(s), (), [])
  }

  /** A run of operations as the partition's single writer serves them. A
      null dereference fails only its own operation: the store it leaves
      (unchanged) serves the next one. The result counts the operations
      that failed. Settings never change, ids are never reused, every run
      keeps `Valid`, and a store without loader and store never calls the
      bridge and never faults. */
  function Run(s: RecordStore, lk: LockInfoOps, ops: seq<Op>): (r: Step<nat>)
    ensures r.store.settings == s.settings && r.store.nextId >= s.nextId
    ensures Valid(s) ==> Valid(r.store)
    ensures r.result <= |ops|
    ensures Unhooked(s) ==> r.result == 0 && r.calls == []
    decreases |ops|
  {
    if ops == [] then Step(s, 0, [])
    else
      var first := Apply(s, lk, ops[0]);
      var rest := Run(first.store, lk, ops[1..]);
      Step(rest.store, rest.result + (if first.NullPointer? then 1 else 0), first.calls + rest.calls)
  }

  /** A failing `remove` does not stop the partition: the following `set`
      finds the store as it was and writes as usual. */
  lemma FaultDoesNotEndRun(s: RecordStore, lk: LockInfoOps, k: Data, v: Data, ttl: int)
    requires Remove(s, k).NullPointer?
    ensures var r := Run(s, lk, [RemoveOp(k), SetOp(k, v, ttl)]);
            && r.result == 1
            && r.store == Set(s, k, v, ttl).store
            && r.calls == [Load(k), Store(k, v)]
  {
    var ops := [RemoveOp(k), SetOp(k, v, ttl)];
    var tail := [SetOp(k, v, ttl)];
    assert ops[1..] == tail;
    assert Apply(s, lk, RemoveOp(k)).store == s;
    var w := Set(s, k, v, ttl).store;
    assert Run(w, lk, tail[1..]) == Step(w, 0, []);
    assert Run(s, lk, tail) == Step(w, 0, Set(s, k, v, ttl).calls);
  }

  /** As constructed (`loader = null`, `store = null`), a record store never
      calls the bridge and none of the null dereferences is reachable, over
      any run of operations; the tables it reaches keep `Valid`. */
  lemma AsConstructedIsSilent(mc: MapConfig, firstId: nat, lk: LockInfoOps, ops: seq<Op>)
    ensures var r := Run(Create(mc, firstId), lk, ops);
            r.result == 0 && r.calls == [] && Valid(r.store) && Unhooked(r.store)
  {
  }

  /** With neither loader nor store: put returns nothing, a second put
      returns the first value, get returns the second, remove returns it,
      and a final get finds nothing. */
  lemma ScenarioWithoutHooks(mc: MapConfig, firstId: nat, k: Data, v1: Data, v2: Data)
    ensures var s0 := Create(mc, firstId);
            var p1 := Put(s0, k, v1, -1);
            var p2 := Put(p1.store, k, v2, -1);
            var g1 := Get(p2.store, k);
            var rm := Remove(g1.store, k);
            && p1.result == None
            && p2.result == Some(v1)
            && g1.result == Some(v2)
            && rm.Done? && rm.result == Some(v2)
            && Get(rm.store, k).result == None
  {
  }
}
