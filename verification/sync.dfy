/*
 * Mutexes and semaphores of the PSP port. Both are kernel counting
 * semaphores: a mutex is one with initial and maximum count 1, a
 * semaphore one whose maximum is the platform's SEM_VALUE_MAX. Waiting
 * and posting are the kernel's business; the port contributes the names,
 * the millisecond-to-microsecond timeout conversion and the mapping of
 * kernel results to OSAL status codes.
 */
module Sync {
  import opened OsalTypes
  import opened NameCounters
  import opened ThreadName
  import opened ProcessState
  import opened ThreadInvariants

  /** A creation result: the new state, the status returned and the value
      stored through the handle pointer. */
  datatype SyncCreated = SyncCreated(after: Process, status: OsResult, handle: int)

  /** pte_osMutexCreate. `id` is what sceKernelCreateSema returns. The
      status is OK even when the kernel fails; the handle then holds the
      kernel's negative error code. */
  function MutexCreate(p: Process, id: int): (r: SyncCreated)
    requires id >= 0 ==> id !in p.semaphores
    ensures r.status == Ok && r.handle == id
    ensures r.after.mutexCtr == NextCounter(p.mutexCtr)
    ensures id >= 0 ==>
              r.after == p.(mutexCtr := r.after.mutexCtr,
                            semaphores := p.semaphores[id := Semaphore(MutexName(r.after.mutexCtr), 1, 1)])
    ensures id < 0 ==> r.after == p.(mutexCtr := r.after.mutexCtr)
  {
    var c := NextCounter(p.mutexCtr);
    SyncCreated(CreateSema(p.(mutexCtr := c), id, MutexName(c), 1, 1), Ok, id)
  }

  /** pte_osSemaphoreCreate. `semValueMax` stands for the platform's
      SEM_VALUE_MAX. The status is OK even when the kernel fails. */
  function SemaphoreCreate(p: Process, initialValue: int, semValueMax: int, id: int): (r: SyncCreated)
    requires id >= 0 ==> id !in p.semaphores
    ensures r.status == Ok && r.handle == id
    ensures r.after.semCtr == NextCounter(p.semCtr)
    ensures id >= 0 ==>
              r.after == p.(semCtr := r.after.semCtr,
                            semaphores := p.semaphores[id := Semaphore(SemaphoreName(r.after.semCtr), initialValue, semValueMax)])
    ensures id < 0 ==> r.after == p.(semCtr := r.after.semCtr)
  {
    var c := NextCounter(p.semCtr);
    SyncCreated(CreateSema(p.(semCtr := c), id, SemaphoreName(c), initialValue, semValueMax), Ok, id)
  }

  /** pte_osMutexCreate keeps the process well formed. */
  lemma MutexCreatePreservesValid(p: Process, id: int)
    requires Valid(p) && (id >= 0 ==> id !in p.semaphores)
    ensures Valid(MutexCreate(p, id).after)
  {
    var q := p.(mutexCtr := NextCounter(p.mutexCtr));
    CounterBumpKeepsValid(p, q);
    if id >= 0 {
      AddSemaphoreKeepsValid(q, id, Semaphore(MutexName(q.mutexCtr), 1, 1));
    }
  }

  /** pte_osSemaphoreCreate keeps the process well formed. */
  lemma SemaphoreCreatePreservesValid(p: Process, initialValue: int, semValueMax: int, id: int)
    requires Valid(p) && (id >= 0 ==> id !in p.semaphores)
    ensures Valid(SemaphoreCreate(p, initialValue, semValueMax, id).after)
  {
    var q := p.(semCtr := NextCounter(p.semCtr));
    CounterBumpKeepsValid(p, q);
    if id >= 0 {
      AddSemaphoreKeepsValid(q, id, Semaphore(SemaphoreName(q.semCtr), initialValue, semValueMax));
    }
  }

  /** Moving a naming counter within its cycle disturbs nothing else. */
  lemma CounterBumpKeepsValid(p: Process, q: Process)
    requires Valid(p)
    requires q.(threadNum := p.threadNum, mutexCtr := p.mutexCtr, semCtr := p.semCtr) == p
    requires InCounterRange(q.threadNum) && InCounterRange(q.mutexCtr) && InCounterRange(q.semCtr)
    ensures Valid(q)
  {
    assert forall h | h in q.threads :: ThreadTable(q, h) == ThreadTable(p, h);
    assert forall t :: ControlSlot(q, t) == ControlSlot(p, t);
  }

  /*
   * Timeouts
   */

  /** `timeoutMsecs * 1000` in unsigned 32-bit arithmetic: the microsecond
      timeout handed to the kernel. */
  function MsToUs(ms: U32): (us: U32)
    ensures ms <= U32_MAX / 1000 ==> us == ms * 1000
    ensures ms > U32_MAX / 1000 ==> us < ms * 1000
    ensures (ms * 1000 - us) % TWO_32 == 0
  {
    (ms * 1000) % TWO_32
  }

  /** Millisecond timeouts above U32_MAX / 1000 (about 71.6 minutes) wrap:
      the kernel is given a much shorter wait, and a longer request can
      mean a shorter wait. */
  lemma TimeoutWraps()
    ensures U32_MAX / 1000 == 4294967
    ensures MsToUs(4294967) == 4294967000
    ensures MsToUs(4294968) == 704
    ensures MsToUs(4294968) < MsToUs(4294967)
  {
  }

  /** pte_osSemaphorePend's kernel timeout: none for a NULL pointer,
      otherwise the converted milliseconds. */
  function PendTimeout(timeoutMs: Option<U32>): (t: Option<U32>)
    ensures t.None? <==> timeoutMs.None?
    ensures t.Some? ==> t.value == MsToUs(timeoutMs.value)
  {
    match timeoutMs
    case None => None
    case Some(ms) => Some(MsToUs(ms))
  }

  /** pte_osSemaphorePend's status for what sceKernelWaitSema returned
      (compared bit for bit as an unsigned value). */
  function PendStatus(waitResult: int): (r: OsResult)
    ensures r == Ok <==> waitResult == SCE_KERNEL_ERROR_OK
    ensures r == Timeout <==> waitResult == SCE_KERNEL_ERROR_WAIT_TIMEOUT
    ensures r == GeneralFailure <==> waitResult != SCE_KERNEL_ERROR_OK && waitResult != SCE_KERNEL_ERROR_WAIT_TIMEOUT
  {
    if waitResult == SCE_KERNEL_ERROR_OK then Ok
    else if waitResult == SCE_KERNEL_ERROR_WAIT_TIMEOUT then Timeout
    else GeneralFailure
  }

  /** pte_osMutexTimedLock's status: every kernel error is read as a
      timeout. */
  function TimedLockStatus(waitResult: int): (r: OsResult)
    ensures r == Timeout <==> waitResult < 0
    ensures r == Ok <==> waitResult >= 0
  {
    if waitResult < 0 then Timeout else Ok
  }

  /** The two status mappings agree exactly on success and on a real
      timeout; any other kernel error is a TIMEOUT for a mutex but a
      GENERAL_FAILURE for a semaphore. */
  lemma PendAndTimedLockAgree(waitResult: int)
    requires IsInt32(waitResult)
    ensures PendStatus(waitResult) == TimedLockStatus(waitResult) <==>
              waitResult == SCE_KERNEL_ERROR_OK || waitResult == SCE_KERNEL_ERROR_WAIT_TIMEOUT
    ensures waitResult < 0 && waitResult != SCE_KERNEL_ERROR_WAIT_TIMEOUT ==>
              PendStatus(waitResult) == GeneralFailure && TimedLockStatus(waitResult) == Timeout
    ensures waitResult > 0 ==> PendStatus(waitResult) == GeneralFailure && TimedLockStatus(waitResult) == Ok
  {
  }
}
