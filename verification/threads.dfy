/*
 * Thread lifecycle of the PSP port: process initialisation, thread
 * creation with its allocation sequence and unwinding, thread deletion,
 * cancellation and the cancellation check, and the TLS calls that locate
 * the calling thread's table through its name.
 */
module Threads {
  import opened OsalTypes
  import opened NameCounters
  import opened ThreadName
  import opened ProcessState

  datatype Outcome = Outcome(after: Process, status: OsResult)

  /*
   * Initialisation (pte_osInit)
   */

  /** What the TLS helper, the heap and the kernel answer during
      initialisation: the helper's two status codes, the reserved slot key,
      the ambient table (NULL on failure, which the source does not check),
      the control block (NULL on failure) and the id sceKernelCreateSema
      returns for the ambient cancellation semaphore. */
  datatype InitEnv = InitEnv(
    globalInit: OsResult,
    keyAlloc: OsResult,
    key: nat,
    globalTable: Addr,
    controlBlock: Addr,
    cancelSem: int)

  /** Allocators and the kernel hand out objects that are not already live. */
  predicate InitFresh(p: Process, env: InitEnv) {
    && (env.globalTable != 0 ==> env.globalTable !in p.tlsTables)
    && (env.controlBlock != 0 ==> env.controlBlock !in p.controlBlocks)
    && (env.cancelSem >= 0 ==> env.cancelSem !in p.semaphores)
  }

  /** The process before initialisation: the kernel threads that already
      run, nothing allocated, and the counters at their static values. */
  function InitialProcess(threads: map<int, KernelThread>): Process
  {
    Process(map[], threads, map[], map[], 0, 0, INITIAL_THREAD_NUM, INITIAL_MUTEX_CTR, INITIAL_SEM_CTR)
  }

  /** pte_osInit. The ambient control block's entry point and argument are
      never written by the source; the model stores NULL. */
  function OsInit(p: Process, env: InitEnv): (r: Outcome)
    requires InitFresh(p, env)
    // Only the port's globals change: the threads and the naming counters never do.
    ensures r.after.threads == p.threads
    ensures r.after.threadNum == p.threadNum && r.after.mutexCtr == p.mutexCtr && r.after.semCtr == p.semCtr
    ensures r.status != Ok ==> r.after.semaphores == p.semaphores && r.after.controlBlocks == p.controlBlocks
    ensures r.status == Ok <==> env.globalInit == Ok && env.keyAlloc == Ok && env.controlBlock != 0
    ensures env.globalInit != Ok ==> r == Outcome(p, env.globalInit)
    ensures env.globalInit == Ok && env.keyAlloc != Ok ==> r == Outcome(p, env.keyAlloc)
    ensures env.globalInit == Ok && env.keyAlloc == Ok && env.controlBlock == 0 ==>
              r.status == NoResources && r.after.controlBlocks == p.controlBlocks
    ensures r.status == Ok ==>
              && r.after.globalTls == env.globalTable
              && r.after.threadDataKey == env.key
              && r.after.controlBlocks == p.controlBlocks[env.controlBlock := ControlBlock(0, 0, env.cancelSem)]
              && (env.globalTable != 0 ==> ControlSlot(r.after, env.globalTable) == env.controlBlock)
              && r.after.tlsTables.Keys == p.tlsTables.Keys + (if env.globalTable != 0 then {env.globalTable} else {})
              && (forall t | t in p.tlsTables && t != env.globalTable :: r.after.tlsTables[t] == p.tlsTables[t])
              && r.after.semaphores.Keys == p.semaphores.Keys + (if env.cancelSem >= 0 then {env.cancelSem} else {})
              && (forall k | k in p.semaphores :: r.after.semaphores[k] == p.semaphores[k])
              && (env.cancelSem >= 0 ==>
                    env.cancelSem in r.after.semaphores
                    && r.after.semaphores[env.cancelSem] == Semaphore(GLOBAL_CANCEL_SEM_NAME, 0, CANCEL_SEM_MAX))
  {
    if env.globalInit != Ok then Outcome(p, env.globalInit)
    else if env.keyAlloc != Ok then Outcome(p, env.keyAlloc)
    else
      var emptyTable: TlsTable := map[];
      var p1 := p.(threadDataKey := env.key, globalTls := env.globalTable,
                   tlsTables := if env.globalTable != 0 then p.tlsTables[env.globalTable := emptyTable] else p.tlsTables);
      if env.controlBlock == 0 then Outcome(p1, NoResources)
      else
        var p2 := TlsSetValue(p1, env.globalTable, env.key, env.controlBlock);
        var p3 := p2.(controlBlocks := p2.controlBlocks[env.controlBlock := ControlBlock(0, 0, env.cancelSem)]);
        Outcome(CreateSema(p3, env.cancelSem, GLOBAL_CANCEL_SEM_NAME, 0, CANCEL_SEM_MAX), Ok)
  }

  /*
   * Thread creation (pte_osThreadCreate)
   */

  /** What the heap and the kernel answer during thread creation: the new
      TLS table and control block (NULL on failure), and the ids
      sceKernelCreateSema and sceKernelCreateThread return (negative on
      failure). */
  datatype CreateEnv = CreateEnv(tlsTable: Addr, controlBlock: Addr, cancelSem: int, threadId: int)

  predicate CreateFresh(p: Process, env: CreateEnv) {
    && (env.tlsTable != 0 ==> env.tlsTable !in p.tlsTables)
    && (env.controlBlock != 0 ==> env.controlBlock !in p.controlBlocks)
    && (env.cancelSem >= 0 ==> env.cancelSem !in p.semaphores)
    && (env.threadId >= 0 ==> env.threadId !in p.threads)
  }

  datatype Created = Created(after: Process, status: OsResult, handle: Option<int>)

  /** Frees a control block and destroys a TLS table, as both kernel
      failure paths do (the cancellation semaphore is left alive). */
  function Unwind(p: Process, table: Addr, block: Addr): Process
  {
    p.(controlBlocks := p.controlBlocks - {block}, tlsTables := p.tlsTables - {table})
  }

  /** The three allocations that precede sceKernelCreateThread: the TLS
      table with the control block in its reserved slot, the control block,
      and the cancellation semaphore named after the thread number. */
  function Allocate(p: Process, num: int, entryPoint: Addr, argument: Addr, env: CreateEnv): (q: Process)
    requires env.tlsTable != 0 && env.controlBlock != 0 && CreateFresh(p, env)
    ensures q.threads == p.threads && q.globalTls == p.globalTls && q.threadDataKey == p.threadDataKey
    ensures q.threadNum == p.threadNum && q.mutexCtr == p.mutexCtr && q.semCtr == p.semCtr
    ensures q.tlsTables == p.tlsTables[env.tlsTable := map[p.threadDataKey := env.controlBlock]]
    ensures q.controlBlocks == p.controlBlocks[env.controlBlock := ControlBlock(entryPoint, argument, env.cancelSem)]
    ensures env.cancelSem >= 0 ==> q.semaphores == p.semaphores[env.cancelSem := Semaphore(CancelSemName(num), 0, CANCEL_SEM_MAX)]
    ensures env.cancelSem < 0 ==> q.semaphores == p.semaphores
  {
    var table: TlsTable := map[p.threadDataKey := env.controlBlock];
    var p1 := p.(tlsTables := p.tlsTables[env.tlsTable := table],
                 controlBlocks := p.controlBlocks[env.controlBlock := ControlBlock(entryPoint, argument, env.cancelSem)]);
    var sema := Semaphore(CancelSemName(num), 0, CANCEL_SEM_MAX);
    var q := CreateSema(p1, env.cancelSem, sema.name, sema.count, sema.max);
    assert env.cancelSem >= 0 ==> q.semaphores == p.semaphores[env.cancelSem := sema];
    q
  }

  /** sceKernelCreateThread succeeded: the new kernel thread carries the
      number and the table address in its name. */
  function Started(p: Process, num: int, entryPoint: Addr, stack: int, priority: int, argument: Addr,
                   env: CreateEnv): (q: Process)
    requires env.tlsTable != 0 && env.controlBlock != 0 && env.threadId >= 0 && CreateFresh(p, env)
    ensures q.threadNum == p.threadNum
    ensures q.threads == p.threads[env.threadId := KernelThread(FormatThreadName(num, env.tlsTable), priority, stack)]
    ensures ControlSlot(q, env.tlsTable) == env.controlBlock
    ensures env.controlBlock in q.controlBlocks
    ensures q.controlBlocks[env.controlBlock] == ControlBlock(entryPoint, argument, env.cancelSem)
    ensures env.cancelSem >= 0 ==>
              env.cancelSem in q.semaphores && q.semaphores[env.cancelSem] == Semaphore(CancelSemName(num), 0, CANCEL_SEM_MAX)
  {
    var p3 := Allocate(p, num, entryPoint, argument, env);
    var q := p3.(threads := p3.threads[env.threadId := KernelThread(FormatThreadName(num, env.tlsTable), priority, stack)]);
    FreshTableSlot(q, env.tlsTable, env.controlBlock);
    q
  }

  /** sceKernelCreateThread failed: the table and the block are released,
      the cancellation semaphore is not. */
  function Unwound(p: Process, num: int, entryPoint: Addr, argument: Addr, env: CreateEnv): (q: Process)
    requires env.tlsTable != 0 && env.controlBlock != 0 && CreateFresh(p, env)
    ensures q.threadNum == p.threadNum
    ensures q.tlsTables == p.tlsTables && q.controlBlocks == p.controlBlocks && q.threads == p.threads
    ensures env.cancelSem >= 0 ==> env.cancelSem in q.semaphores
  {
    var p3 := Allocate(p, num, entryPoint, argument, env);
    AddThenRemove(p.tlsTables, env.tlsTable, map[p.threadDataKey := env.controlBlock]);
    AddThenRemove(p.controlBlocks, env.controlBlock, ControlBlock(entryPoint, argument, env.cancelSem));
    Unwind(p3, env.tlsTable, env.controlBlock)
  }

  lemma AddThenRemove<K, V>(m: map<K, V>, k: K, v: V)
    requires k !in m
    ensures m[k := v] - {k} == m
  {
    assert (m[k := v] - {k}).Keys == m.Keys;
  }

  /** The thread's fate once its table, control block and semaphore exist. */
  function Spawn(p: Process, num: int, entryPoint: Addr, stack: int, priority: int, argument: Addr,
                 env: CreateEnv): (r: Created)
    requires env.tlsTable != 0 && env.controlBlock != 0 && CreateFresh(p, env)
    ensures r.status == Ok <==> env.threadId >= 0
    ensures r.handle == (if env.threadId >= 0 then Some(env.threadId) else None)
    ensures env.threadId < 0 ==>
              && r.status == (if env.threadId == SCE_KERNEL_ERROR_NO_MEMORY then NoResources else GeneralFailure)
              && r.after == Unwound(p, num, entryPoint, argument, env)
    ensures env.threadId >= 0 ==> r.after == Started(p, num, entryPoint, stack, priority, argument, env)
  {
    if env.threadId == SCE_KERNEL_ERROR_NO_MEMORY then
      Created(Unwound(p, num, entryPoint, argument, env), NoResources, None)
    else if env.threadId < 0 then
      Created(Unwound(p, num, entryPoint, argument, env), GeneralFailure, None)
    else
      Created(Started(p, num, entryPoint, stack, priority, argument, env), Ok, Some(env.threadId))
  }

  /** pte_osThreadCreate. */
  function ThreadCreate(p: Process, entryPoint: Addr, stackSize: int, priority: int, argument: Addr,
                        env: CreateEnv): (r: Created)
    requires CreateFresh(p, env)
    ensures r.after.threadNum == NextCounter(p.threadNum)
    ensures r.status == Ok <==> env.tlsTable != 0 && env.controlBlock != 0 && env.threadId >= 0
    ensures r.handle.Some? <==> r.status == Ok
    ensures r.status == Ok ==> r.handle.value == env.threadId
    // A failed allocation returns NO_RESOURCES and leaves nothing allocated.
    ensures env.tlsTable == 0 || env.controlBlock == 0 ==>
              r.status == NoResources && r.after == p.(threadNum := NextCounter(p.threadNum))
    // A failed kernel call frees the block and the table but not the semaphore.
    ensures env.tlsTable != 0 && env.controlBlock != 0 && env.threadId < 0 ==>
              && r.status == (if env.threadId == SCE_KERNEL_ERROR_NO_MEMORY then NoResources else GeneralFailure)
              && r.after.tlsTables == p.tlsTables
              && r.after.controlBlocks == p.controlBlocks
              && r.after.threads == p.threads
              && (env.cancelSem >= 0 ==> env.cancelSem in r.after.semaphores)
    // Success: a new thread with a clamped stack, named after its table,
    // whose table points to a block holding the entry point and argument.
    ensures r.status == Ok ==>
              && env.threadId in r.after.threads
              && r.after.threads[env.threadId].stackSize >= DEFAULT_STACK_SIZE_BYTES
              && (stackSize >= DEFAULT_STACK_SIZE_BYTES ==> r.after.threads[env.threadId].stackSize == stackSize)
              && (stackSize < DEFAULT_STACK_SIZE_BYTES ==> r.after.threads[env.threadId].stackSize == DEFAULT_STACK_SIZE_BYTES)
              && r.after.threads[env.threadId].priority == priority
              && r.after.threads[env.threadId].name == FormatThreadName(NextCounter(p.threadNum), env.tlsTable)
              && ControlSlot(r.after, env.tlsTable) == env.controlBlock
              && env.controlBlock in r.after.controlBlocks
              && r.after.controlBlocks[env.controlBlock] == ControlBlock(entryPoint, argument, env.cancelSem)
              && (env.cancelSem >= 0 ==>
                    env.cancelSem in r.after.semaphores
                    && r.after.semaphores[env.cancelSem] == Semaphore(CancelSemName(NextCounter(p.threadNum)), 0, CANCEL_SEM_MAX))
  {
    var num := NextCounter(p.threadNum);
    var p1 := p.(threadNum := num);
    var stack := if stackSize < DEFAULT_STACK_SIZE_BYTES then DEFAULT_STACK_SIZE_BYTES else stackSize;
    if env.tlsTable == 0 || env.controlBlock == 0 then Created(p1, NoResources, None)
    else Spawn(p1, num, entryPoint, stack, priority, argument, env)
  }

  /*
   * Deletion (pte_osThreadDelete)
   */

  /** pte_osThreadDelete: deletes the cancellation semaphore, frees the
      control block, destroys the TLS table and deletes the kernel thread.
      The source dereferences the control block without a check, so the
      thread must have one. */
  function ThreadDelete(p: Process, h: int): (r: Outcome)
    requires h in p.threads && ThreadData(p, h).Some?
    ensures r.status == Ok
    ensures r.after.threads == p.threads - {h}
    ensures r.after.tlsTables == p.tlsTables - {ThreadTable(p, h)}
    ensures r.after.controlBlocks == p.controlBlocks - {ControlSlot(p, ThreadTable(p, h))}
    ensures r.after.semaphores == p.semaphores - {ThreadData(p, h).value.cancelSem}
    ensures r.after.globalTls == p.globalTls && r.after.threadDataKey == p.threadDataKey
    ensures r.after.threadNum == p.threadNum && r.after.mutexCtr == p.mutexCtr && r.after.semCtr == p.semCtr
  {
    var table := ThreadTable(p, h);
    var block := ControlSlot(p, table);
    var p1 := DeleteSema(p, p.controlBlocks[block].cancelSem);
    var p2 := Unwind(p1, table, block);
    Outcome(p2.(threads := p2.threads - {h}), Ok)
  }

  /*
   * Cancellation (pte_osThreadCancel, pte_osThreadCheckCancel)
   */

  /** pte_osThreadCancel: posts one unit to the target's cancellation
      semaphore. The source dereferences the control block without a check. */
  function ThreadCancel(p: Process, h: int): (r: Outcome)
    requires h in p.threads && ThreadData(p, h).Some?
    ensures var s := ThreadData(p, h).value.cancelSem;
            r.status == Ok <==> s in p.semaphores && p.semaphores[s].count < p.semaphores[s].max
    ensures r.status == Ok || r.status == GeneralFailure
    ensures r.status != Ok ==> r.after == p
    ensures r.status == Ok ==>
              var s := ThreadData(p, h).value.cancelSem;
              && r.after == p.(semaphores := r.after.semaphores)
              && r.after.semaphores.Keys == p.semaphores.Keys
              && r.after.semaphores[s].count == p.semaphores[s].count + 1
              && r.after.semaphores[s].max == p.semaphores[s].max
              && (forall k | k in p.semaphores && k != s :: r.after.semaphores[k] == p.semaphores[k])
  {
    var signalled := SignalSema(p, ThreadData(p, h).value.cancelSem);
    if signalled.code == SCE_KERNEL_ERROR_OK then Outcome(signalled.after, Ok)
    else Outcome(signalled.after, GeneralFailure)
  }

  /** Whether a cancellation request is pending for h: its control block
      exists and its cancellation semaphore reports a positive count. */
  predicate CancelPending(p: Process, h: int)
    requires h in p.threads
  {
    && ThreadData(p, h).Some?
    && SemaCount(p, ThreadData(p, h).value.cancelSem).Some?
    && SemaCount(p, ThreadData(p, h).value.cancelSem).value > 0
  }

  /** pte_osThreadCheckCancel: reads the cancellation semaphore's count
      without consuming it. */
  function ThreadCheckCancel(p: Process, h: int): (r: OsResult)
    requires h in p.threads
    ensures r == Interrupted <==> CancelPending(p, h)
    ensures r == GeneralFailure <==>
              ThreadData(p, h).None? || SemaCount(p, ThreadData(p, h).value.cancelSem).None?
    ensures r == Ok || r == Interrupted || r == GeneralFailure
  {
    match ThreadData(p, h)
    case None => GeneralFailure
    case Some(cb) =>
      match SemaCount(p, cb.cancelSem)
      case None => GeneralFailure
      case Some(count) => if count > 0 then Interrupted else Ok
  }

  /*
   * TLS for the calling thread (pte_osTlsSetValue, pte_osTlsGetValue)
   */

  /** pte_osTlsSetValue: stores into the table the caller's name leads to. */
  function OsTlsSetValue(p: Process, self: int, key: nat, value: Addr): (q: Process)
    requires self in p.threads
    ensures q.threads == p.threads && q.globalTls == p.globalTls
    ensures q.tlsTables.Keys == p.tlsTables.Keys
    ensures ThreadTable(p, self) in p.tlsTables ==> TlsGetValue(q, ThreadTable(p, self), key) == value
  {
    TlsSetValue(p, ThreadTable(p, self), key, value)
  }

  /** pte_osTlsGetValue: reads from the table the caller's name leads to;
      a slot never written, or a table that is not live, reads as NULL. */
  function OsTlsGetValue(p: Process, self: int, key: nat): (v: Addr)
    requires self in p.threads
    ensures ThreadTable(p, self) !in p.tlsTables || key !in p.tlsTables[ThreadTable(p, self)] ==> v == 0
    ensures ThreadTable(p, self) in p.tlsTables && key in p.tlsTables[ThreadTable(p, self)] ==>
              v == p.tlsTables[ThreadTable(p, self)][key]
  {
    TlsGetValue(p, ThreadTable(p, self), key)
  }

  /** A thread reads back what it stored under a key, provided its table is live. */
  lemma OsTlsSetThenGet(p: Process, self: int, key: nat, value: Addr)
    requires self in p.threads && ThreadTable(p, self) in p.tlsTables
    ensures OsTlsGetValue(OsTlsSetValue(p, self, key, value), self, key) == value
  {
  }

  /** Storing under one key leaves the thread's other keys as they were. */
  lemma OsTlsSetKeepsOtherKeys(p: Process, self: int, key: nat, other: nat, value: Addr)
    requires self in p.threads && other != key
    ensures OsTlsGetValue(OsTlsSetValue(p, self, key, value), self, other) == OsTlsGetValue(p, self, other)
  {
  }
}
