/** The per-key lock state. The behaviour of `LockInfo` itself (ownership
    matching, reentrancy counting, expiry) belongs to a class that is not
    part of this model, so its operations are parameters: a record store is
    verified against every possible `LockInfoOps`. The operations that may
    depend on expiry take the current time `now`, so a lock may expire
    between two calls without any operation on its key. */
module LockInfos {
  import opened Wrappers

  /** The cluster address of a calling member or client. */
  datatype Address = Address(host: string, port: int)

  /** A lock owner is the pair (caller, thread). */
  datatype Owner = Owner(caller: Address, threadId: int)

  /** Lock state: the current owner, if any, and the reentrancy count. */
  datatype LockInfo = LockInfo(owner: Option<Owner>, count: nat)

  /** `new LockInfo()`: no owner, count zero. */
  function NewLockInfo(): (l: LockInfo)
    ensures l.owner.None? && l.count == 0
  {
    LockInfo(None, 0)
  }

  /** The operations the record store calls on a `LockInfo`, left
      uninterpreted:
      - acquire(l, caller, threadId, ttl, now) is `lock.lock(caller, threadId, ttl)`;
      - release(l, caller, threadId, now)      is `lock.unlock(caller, threadId)`;
      - testLock(l, threadId, caller, now)     is `lock.testLock(threadId, caller)`;
      - isLocked(l, now)                       is `lock.isLocked()`;
      - clear(l)                               is `lock.clear()`.
      `now` is the clock reading at the call. The mutating ones return the
      new lock state beside their result. */
  datatype LockInfoOps = LockInfoOps(
    acquire: (LockInfo, Address, int, int, int) -> (LockInfo, bool),
    release: (LockInfo, Address, int, int) -> (LockInfo, bool),
    testLock: (LockInfo, int, Address, int) -> bool,
    isLocked: (LockInfo, int) -> bool,
    clear: LockInfo -> LockInfo)
}
