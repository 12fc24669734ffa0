/*
 * The abstract state the port works on: the kernel objects it creates
 * (counting semaphores and threads), the heap objects it allocates (TLS
 * tables and per-thread control blocks), and its own globals (`globalTls`,
 * `threadDataKey` and the three naming counters).
 *
 * Kernel calls appear here only as the state change they make; their
 * results that the port cannot predict (ids handed out, allocation
 * failures) are parameters of the operations in the Threads and Sync
 * modules.
 */
module ProcessState {
  import opened OsalTypes
  import opened ThreadName
  import opened NameCounters

  /** A kernel counting semaphore. */
  datatype Semaphore = Semaphore(name: string, count: int, max: int)

  /** A kernel thread as the port sees it: the name carries its TLS table. */
  datatype KernelThread = KernelThread(name: string, priority: int, stackSize: int)

  /** pspThreadData: the entry point and argument of the thread's main
      function, and the id of its cancellation semaphore. */
  datatype ControlBlock = ControlBlock(entryPoint: Addr, argument: Addr, cancelSem: int)

  /** A TLS table, seen only as slot key to stored pointer; an unset slot
      reads as NULL. */
  type TlsTable = map<nat, Addr>

  datatype Process = Process(
    semaphores: map<int, Semaphore>,
    threads: map<int, KernelThread>,
    tlsTables: map<Addr, TlsTable>,
    controlBlocks: map<Addr, ControlBlock>,
    globalTls: Addr,
    threadDataKey: nat,
    threadNum: int,
    mutexCtr: int,
    semCtr: int)

  /** sceKernelCreateSema: a non-negative result is the id of a new
      semaphore; a negative one is an error code and creates nothing. */
  function CreateSema(p: Process, id: int, name: string, initial: int, max: int): (q: Process)
    requires id >= 0 ==> id !in p.semaphores
    ensures q.(semaphores := p.semaphores) == p
    ensures p.semaphores.Keys <= q.semaphores.Keys
    ensures id >= 0 ==> id in q.semaphores && q.semaphores[id] == Semaphore(name, initial, max)
    ensures id >= 0 ==> forall k | k in q.semaphores && k != id :: k in p.semaphores && q.semaphores[k] == p.semaphores[k]
    ensures id < 0 ==> q == p
  {
    if id >= 0 then p.(semaphores := p.semaphores[id := Semaphore(name, initial, max)]) else p
  }

  /** sceKernelDeleteSema. */
  function DeleteSema(p: Process, id: int): (q: Process)
    ensures q.(semaphores := p.semaphores) == p
    ensures id !in q.semaphores
    ensures forall k | k in p.semaphores && k != id :: k in q.semaphores && q.semaphores[k] == p.semaphores[k]
  {
    p.(semaphores := p.semaphores - {id})
  }

  datatype Signalled = Signalled(code: int, after: Process)

  /** sceKernelSignalSema(id, 1): adds one unit unless the semaphore does
      not exist or is already at its maximum. */
  function SignalSema(p: Process, id: int): (r: Signalled)
    ensures r.code == SCE_KERNEL_ERROR_OK <==>
              id in p.semaphores && p.semaphores[id].count < p.semaphores[id].max
    ensures r.code == SCE_KERNEL_ERROR_OK ==>
              r.after == p.(semaphores := p.semaphores[id := p.semaphores[id].(count := p.semaphores[id].count + 1)])
    ensures r.code != SCE_KERNEL_ERROR_OK ==> r.after == p
  {
    if id !in p.semaphores then Signalled(SCE_KERNEL_ERROR_UNKNOWN_SEMID, p)
    else
      var s := p.semaphores[id];
      if s.count >= s.max then Signalled(SCE_KERNEL_ERROR_SEMA_OVF, p)
      else Signalled(SCE_KERNEL_ERROR_OK, p.(semaphores := p.semaphores[id := s.(count := s.count + 1)]))
  }

  /** sceKernelReferSemaStatus: the current count, or None when the query fails. */
  function SemaCount(p: Process, id: int): (c: Option<int>)
    ensures c.Some? <==> id in p.semaphores
    ensures c.Some? ==> c.value == p.semaphores[id].count
  {
    if id in p.semaphores then Some(p.semaphores[id].count) else None
  }

  /** pteTlsGetValue. Reading a table that is not live is undefined in the
      source; the model reads NULL there. */
  function TlsGetValue(p: Process, table: Addr, key: nat): Addr
  {
    if table in p.tlsTables && key in p.tlsTables[table] then p.tlsTables[table][key] else 0
  }

  /** pteTlsSetValue. Writing a table that is not live changes nothing. */
  function TlsSetValue(p: Process, table: Addr, key: nat, value: Addr): (q: Process)
    ensures q.tlsTables.Keys == p.tlsTables.Keys
    ensures q.(tlsTables := p.tlsTables) == p
    ensures table in p.tlsTables ==> TlsGetValue(q, table, key) == value
    ensures forall t, k | t != table || k != key :: TlsGetValue(q, t, k) == TlsGetValue(p, t, k)
  {
    if table in p.tlsTables then
      var updated: TlsTable := p.tlsTables[table][key := value];
      p.(tlsTables := p.tlsTables[table := updated])
    else p
  }

  /** The TLS table a live thread uses, found from its name. */
  function ThreadTable(p: Process, h: int): Addr
    requires h in p.threads
  {
    TlsTableOf(p.threads[h].name, p.globalTls)
  }

  /** The pointer a table stores in the reserved control-block slot. */
  function ControlSlot(p: Process, table: Addr): Addr
  {
    TlsGetValue(p, table, p.threadDataKey)
  }

  /** A table just created with only the control-block slot set. */
  lemma FreshTableSlot(p: Process, table: Addr, block: Addr)
    requires table in p.tlsTables && p.tlsTables[table] == map[p.threadDataKey := block]
    ensures ControlSlot(p, table) == block
  {
  }

  /** getThreadData: the control block a thread's TLS table points to, or
      None where the source would get NULL. */
  function ThreadData(p: Process, h: int): (cb: Option<ControlBlock>)
    requires h in p.threads
    ensures cb.Some? <==> ControlSlot(p, ThreadTable(p, h)) != 0 && ControlSlot(p, ThreadTable(p, h)) in p.controlBlocks
    ensures cb.Some? ==> cb.value == p.controlBlocks[ControlSlot(p, ThreadTable(p, h))]
  {
    var b := ControlSlot(p, ThreadTable(p, h));
    if b != 0 && b in p.controlBlocks then Some(p.controlBlocks[b]) else None
  }

  /** A thread created by the port, as opposed to one that falls back to
      the ambient table. */
  predicate IsManaged(p: Process, h: int)
    requires h in p.threads
  {
    ThreadTable(p, h) != p.globalTls
  }

  /*
   * The well-formedness the port relies on without checking it: every
   * live thread's name leads to a live table, no two threads share a
   * table except through the ambient fallback, every reserved slot
   * points to a live control block of its own, and every control block's
   * cancellation semaphore is live (or was never created), its own, and
   * never below zero.
   */

  ghost predicate TablesResolve(p: Process) {
    forall h | h in p.threads :: ThreadTable(p, h) in p.tlsTables
  }

  ghost predicate TablesOwned(p: Process) {
    forall h1, h2 | h1 in p.threads && h2 in p.threads && h1 != h2 && ThreadTable(p, h1) == ThreadTable(p, h2) ::
      ThreadTable(p, h1) == p.globalTls
  }

  ghost predicate SlotsLive(p: Process) {
    forall t | t in p.tlsTables :: ControlSlot(p, t) == 0 || ControlSlot(p, t) in p.controlBlocks
  }

  ghost predicate SlotsDistinct(p: Process) {
    forall t1, t2 | t1 in p.tlsTables && t2 in p.tlsTables && t1 != t2 && ControlSlot(p, t1) != 0 ::
      ControlSlot(p, t1) != ControlSlot(p, t2)
  }

  ghost predicate CancelSemsLive(p: Process) {
    forall b | b in p.controlBlocks :: p.controlBlocks[b].cancelSem < 0 || p.controlBlocks[b].cancelSem in p.semaphores
  }

  ghost predicate CancelSemsDistinct(p: Process) {
    forall b1, b2 | b1 in p.controlBlocks && b2 in p.controlBlocks && b1 != b2 && p.controlBlocks[b1].cancelSem >= 0 ::
      p.controlBlocks[b1].cancelSem != p.controlBlocks[b2].cancelSem
  }

  ghost predicate CancelCountsNatural(p: Process) {
    forall b | b in p.controlBlocks && p.controlBlocks[b].cancelSem in p.semaphores ::
      p.semaphores[p.controlBlocks[b].cancelSem].count >= 0
  }

  ghost predicate SemaphoreIdsValid(p: Process) {
    forall id | id in p.semaphores :: id >= 0
  }

  ghost predicate Valid(p: Process) {
    && p.globalTls != 0 && p.globalTls in p.tlsTables
    && 0 !in p.tlsTables && 0 !in p.controlBlocks
    && InCounterRange(p.threadNum) && InCounterRange(p.mutexCtr) && InCounterRange(p.semCtr)
    && TablesResolve(p)
    && TablesOwned(p)
    && SlotsLive(p)
    && SlotsDistinct(p)
    && CancelSemsLive(p)
    && CancelSemsDistinct(p)
    && CancelCountsNatural(p)
    && SemaphoreIdsValid(p)
  }
}
