/*
 * What the thread operations preserve: the well-formedness of the
 * process (Valid), the link from a created thread back to its control
 * block, and create/delete as inverses.
 */
module ThreadInvariants {
  import opened OsalTypes
  import opened NameCounters
  import opened ThreadName
  import opened ProcessState
  import opened Threads

  /*
   * Creation
   */

  /** The trampoline's lookup: a thread the port created finds, through its
      own name, the control block holding the entry point and argument it
      was created with. */
  lemma CreatedThreadFindsItsControlBlock(p: Process, entryPoint: Addr, stackSize: int, priority: int,
                                          argument: Addr, env: CreateEnv)
    requires InCounterRange(p.threadNum) && CreateFresh(p, env)
    requires ThreadCreate(p, entryPoint, stackSize, priority, argument, env).status == Ok
    ensures var q := ThreadCreate(p, entryPoint, stackSize, priority, argument, env).after;
            && env.threadId in q.threads
            && ThreadTable(q, env.threadId) == env.tlsTable
            && ThreadData(q, env.threadId) == Some(ControlBlock(entryPoint, argument, env.cancelSem))
  {
    var q := ThreadCreate(p, entryPoint, stackSize, priority, argument, env).after;
    CounterNameRoundTrip(NextCounter(p.threadNum), env.tlsTable, q.globalTls);
  }

  /** Advancing the thread counter keeps the process well formed. */
  lemma BumpKeepsValid(p: Process)
    requires Valid(p)
    ensures Valid(p.(threadNum := NextCounter(p.threadNum)))
  {
    var q := p.(threadNum := NextCounter(p.threadNum));
    assert forall h | h in q.threads :: ThreadTable(q, h) == ThreadTable(p, h);
    assert forall t :: ControlSlot(q, t) == ControlSlot(p, t);
  }

  /** The state right after sceKernelCreateThread succeeded, described field
      by field. */
  lemma StartedShape(p: Process, num: int, entryPoint: Addr, stack: int, priority: int, argument: Addr,
                     env: CreateEnv)
    requires env.tlsTable != 0 && env.controlBlock != 0 && env.threadId >= 0 && CreateFresh(p, env)
    ensures var q := Started(p, num, entryPoint, stack, priority, argument, env);
            && q.globalTls == p.globalTls && q.threadDataKey == p.threadDataKey
            && q.threadNum == p.threadNum && q.mutexCtr == p.mutexCtr && q.semCtr == p.semCtr
            && q.tlsTables == p.tlsTables[env.tlsTable := map[p.threadDataKey := env.controlBlock]]
            && q.controlBlocks == p.controlBlocks[env.controlBlock := ControlBlock(entryPoint, argument, env.cancelSem)]
            && (env.cancelSem >= 0 ==> q.semaphores == p.semaphores[env.cancelSem := Semaphore(CancelSemName(num), 0, CANCEL_SEM_MAX)])
            && (env.cancelSem < 0 ==> q.semaphores == p.semaphores)
  {
  }

  /** A thread that already existed still resolves to the same table. */
  lemma StartedKeepsViews(p: Process, num: int, entryPoint: Addr, stack: int, priority: int, argument: Addr,
                          env: CreateEnv)
    requires env.tlsTable != 0 && env.controlBlock != 0 && env.threadId >= 0 && CreateFresh(p, env)
    ensures var q := Started(p, num, entryPoint, stack, priority, argument, env);
            forall h | h in p.threads :: h in q.threads && ThreadTable(q, h) == ThreadTable(p, h)
  {
    var q := Started(p, num, entryPoint, stack, priority, argument, env);
    StartedShape(p, num, entryPoint, stack, priority, argument, env);
    assert forall h | h in p.threads :: q.threads[h] == p.threads[h];
  }

  /** Adding a thread whose table is new keeps every thread's table live
      and unshared. */
  lemma AddThreadTables(p: Process, q: Process, id: int, t: Addr)
    requires TablesResolve(p) && TablesOwned(p)
    requires id !in p.threads && q.threads.Keys == p.threads.Keys + {id}
    requires t !in p.tlsTables && t in q.tlsTables && p.tlsTables.Keys <= q.tlsTables.Keys
    requires q.globalTls == p.globalTls
    requires ThreadTable(q, id) == t
    requires forall h | h in p.threads :: ThreadTable(q, h) == ThreadTable(p, h)
    ensures TablesResolve(q) && TablesOwned(q)
  {
    AddThreadResolves(p, q, id, t);
    AddThreadOwned(p, q, id, t);
  }

  lemma AddThreadResolves(p: Process, q: Process, id: int, t: Addr)
    requires TablesResolve(p)
    requires q.threads.Keys == p.threads.Keys + {id}
    requires t in q.tlsTables && p.tlsTables.Keys <= q.tlsTables.Keys
    requires ThreadTable(q, id) == t
    requires forall h | h in p.threads :: ThreadTable(q, h) == ThreadTable(p, h)
    ensures TablesResolve(q)
  {
    forall h | h in q.threads
      ensures ThreadTable(q, h) in q.tlsTables
    {
      if h != id {
        assert ThreadTable(p, h) in p.tlsTables;
      }
    }
  }

  lemma AddThreadOwned(p: Process, q: Process, id: int, t: Addr)
    requires TablesResolve(p) && TablesOwned(p)
    requires id !in p.threads && q.threads.Keys == p.threads.Keys + {id}
    requires t !in p.tlsTables
    requires q.globalTls == p.globalTls
    requires ThreadTable(q, id) == t
    requires forall h | h in p.threads :: ThreadTable(q, h) == ThreadTable(p, h)
    ensures TablesOwned(q)
  {
    forall h1, h2 | h1 in q.threads && h2 in q.threads && h1 != h2 && ThreadTable(q, h1) == ThreadTable(q, h2)
      ensures ThreadTable(q, h1) == q.globalTls
    {
      OldThreadKeepsTable(p, q, id, t, h1, h2);
      OldThreadKeepsTable(p, q, id, t, h2, h1);
    }
  }

  lemma OldThreadKeepsTable(p: Process, q: Process, id: int, t: Addr, h1: int, h2: int)
    requires TablesResolve(p)
    requires q.threads.Keys == p.threads.Keys + {id}
    requires t !in p.tlsTables
    requires ThreadTable(q, id) == t
    requires forall h | h in p.threads :: ThreadTable(q, h) == ThreadTable(p, h)
    requires h1 in q.threads && h2 in q.threads && h1 != h2 && ThreadTable(q, h1) == ThreadTable(q, h2)
    ensures h1 in p.threads && ThreadTable(p, h1) == ThreadTable(q, h1)
  {
    if h2 != id {
      assert ThreadTable(p, h2) in p.tlsTables;
    }
  }

  lemma StartedTables(p: Process, num: int, entryPoint: Addr, stack: int, priority: int, argument: Addr,
                      env: CreateEnv)
    requires Valid(p) && InCounterRange(num)
    requires env.tlsTable != 0 && env.controlBlock != 0 && env.threadId >= 0 && CreateFresh(p, env)
    ensures var q := Started(p, num, entryPoint, stack, priority, argument, env);
            TablesResolve(q) && TablesOwned(q)
  {
    var q := Started(p, num, entryPoint, stack, priority, argument, env);
    StartedShape(p, num, entryPoint, stack, priority, argument, env);
    StartedKeepsViews(p, num, entryPoint, stack, priority, argument, env);
    CounterNameRoundTrip(num, env.tlsTable, p.globalTls);
    assert q.threads[env.threadId].name == FormatThreadName(num, env.tlsTable);
    assert ThreadTable(q, env.threadId) == env.tlsTable;
    AddThreadTables(p, q, env.threadId, env.tlsTable);
  }

  lemma StartedSlots(p: Process, num: int, entryPoint: Addr, stack: int, priority: int, argument: Addr,
                     env: CreateEnv)
    requires Valid(p)
    requires env.tlsTable != 0 && env.controlBlock != 0 && env.threadId >= 0 && CreateFresh(p, env)
    ensures var q := Started(p, num, entryPoint, stack, priority, argument, env);
            SlotsLive(q) && SlotsDistinct(q)
  {
    var q := Started(p, num, entryPoint, stack, priority, argument, env);
    StartedShape(p, num, entryPoint, stack, priority, argument, env);
    AddTableSlots(p, q, env.tlsTable, env.controlBlock);
  }

  /** Adding a table whose slot points to a new block keeps every slot
      live and unshared. */
  lemma AddTableSlots(p: Process, q: Process, t0: Addr, b0: Addr)
    requires SlotsLive(p) && SlotsDistinct(p)
    requires t0 !in p.tlsTables && b0 != 0 && b0 !in p.controlBlocks
    requires q.tlsTables == p.tlsTables[t0 := map[p.threadDataKey := b0]] && q.threadDataKey == p.threadDataKey
    requires p.controlBlocks.Keys <= q.controlBlocks.Keys && b0 in q.controlBlocks
    ensures SlotsLive(q) && SlotsDistinct(q)
  {
    assert ControlSlot(q, t0) == b0;
    assert forall t | t in p.tlsTables :: ControlSlot(q, t) == ControlSlot(p, t) && ControlSlot(p, t) != b0;
  }

  /** Adding a control block whose cancellation semaphore is new (or was
      never created) keeps the semaphores live, unshared and natural. */
  lemma AddBlockSemaphores(p: Process, q: Process, b: Addr, cb: ControlBlock, name: string)
    requires CancelSemsLive(p) && CancelSemsDistinct(p) && CancelCountsNatural(p) && SemaphoreIdsValid(p)
    requires b !in p.controlBlocks && q.controlBlocks == p.controlBlocks[b := cb]
    requires cb.cancelSem >= 0 ==> cb.cancelSem !in p.semaphores
    requires cb.cancelSem >= 0 ==> q.semaphores == p.semaphores[cb.cancelSem := Semaphore(name, 0, CANCEL_SEM_MAX)]
    requires cb.cancelSem < 0 ==> q.semaphores == p.semaphores
    ensures CancelSemsLive(q) && CancelSemsDistinct(q) && CancelCountsNatural(q) && SemaphoreIdsValid(q)
  {
    var s := cb.cancelSem;
    // Every older block's semaphore is live in p, so it differs from s.
    assert forall k | k in p.controlBlocks && p.controlBlocks[k].cancelSem >= 0 ::
      p.controlBlocks[k].cancelSem in p.semaphores;
    forall k | k in q.controlBlocks && q.controlBlocks[k].cancelSem in q.semaphores
      ensures q.semaphores[q.controlBlocks[k].cancelSem].count >= 0
    {
      if k != b && s >= 0 && q.controlBlocks[k].cancelSem != s {
        assert q.controlBlocks[k].cancelSem in p.semaphores;
      }
    }
  }

  lemma StartedSemaphores(p: Process, num: int, entryPoint: Addr, stack: int, priority: int, argument: Addr,
                          env: CreateEnv)
    requires Valid(p)
    requires env.tlsTable != 0 && env.controlBlock != 0 && env.threadId >= 0 && CreateFresh(p, env)
    ensures var q := Started(p, num, entryPoint, stack, priority, argument, env);
            CancelSemsLive(q) && CancelSemsDistinct(q) && CancelCountsNatural(q) && SemaphoreIdsValid(q)
  {
    var q := Started(p, num, entryPoint, stack, priority, argument, env);
    StartedShape(p, num, entryPoint, stack, priority, argument, env);
    AddBlockSemaphores(p, q, env.controlBlock, ControlBlock(entryPoint, argument, env.cancelSem), CancelSemName(num));
  }

  lemma StartedKeepsValid(p: Process, num: int, entryPoint: Addr, stack: int, priority: int, argument: Addr,
                          env: CreateEnv)
    requires Valid(p) && InCounterRange(num)
    requires env.tlsTable != 0 && env.controlBlock != 0 && env.threadId >= 0 && CreateFresh(p, env)
    ensures Valid(Started(p, num, entryPoint, stack, priority, argument, env))
  {
    StartedShape(p, num, entryPoint, stack, priority, argument, env);
    StartedTables(p, num, entryPoint, stack, priority, argument, env);
    StartedSlots(p, num, entryPoint, stack, priority, argument, env);
    StartedSemaphores(p, num, entryPoint, stack, priority, argument, env);
  }

  /** After a failed sceKernelCreateThread only the leaked semaphore remains. */
  lemma UnwoundShape(p: Process, num: int, entryPoint: Addr, argument: Addr, env: CreateEnv)
    requires env.tlsTable != 0 && env.controlBlock != 0 && CreateFresh(p, env)
    ensures var q := Unwound(p, num, entryPoint, argument, env);
            && (env.cancelSem >= 0 ==> q == p.(semaphores := p.semaphores[env.cancelSem := Semaphore(CancelSemName(num), 0, CANCEL_SEM_MAX)]))
            && (env.cancelSem < 0 ==> q == p)
  {
    AddThenRemove(p.tlsTables, env.tlsTable, map[p.threadDataKey := env.controlBlock]);
    AddThenRemove(p.controlBlocks, env.controlBlock, ControlBlock(entryPoint, argument, env.cancelSem));
  }

  /** A kernel semaphore nobody refers to yet can be added to a well-formed
      process without disturbing it; mutexes, semaphores and leaked
      cancellation semaphores all arrive this way. */
  lemma AddSemaphoreKeepsValid(p: Process, id: int, sem: Semaphore)
    requires Valid(p) && id >= 0 && id !in p.semaphores
    ensures Valid(p.(semaphores := p.semaphores[id := sem]))
  {
    var q := p.(semaphores := p.semaphores[id := sem]);
    assert forall h | h in q.threads :: ThreadTable(q, h) == ThreadTable(p, h);
    assert forall t :: ControlSlot(q, t) == ControlSlot(p, t);
    assert forall b | b in p.controlBlocks :: p.controlBlocks[b].cancelSem != id;
  }

  lemma UnwoundKeepsValid(p: Process, num: int, entryPoint: Addr, argument: Addr, env: CreateEnv)
    requires Valid(p)
    requires env.tlsTable != 0 && env.controlBlock != 0 && CreateFresh(p, env)
    ensures Valid(Unwound(p, num, entryPoint, argument, env))
  {
    UnwoundShape(p, num, entryPoint, argument, env);
    if env.cancelSem >= 0 {
      AddSemaphoreKeepsValid(p, env.cancelSem, Semaphore(CancelSemName(num), 0, CANCEL_SEM_MAX));
    }
  }

  /** pte_osThreadCreate keeps the process well formed, whatever the heap
      and the kernel answer. */
  lemma CreatePreservesValid(p: Process, entryPoint: Addr, stackSize: int, priority: int, argument: Addr,
                             env: CreateEnv)
    requires Valid(p) && CreateFresh(p, env)
    ensures Valid(ThreadCreate(p, entryPoint, stackSize, priority, argument, env).after)
  {
    var num := NextCounter(p.threadNum);
    var p1 := p.(threadNum := num);
    var stack := if stackSize < DEFAULT_STACK_SIZE_BYTES then DEFAULT_STACK_SIZE_BYTES else stackSize;
    CreateOutcomes(p, entryPoint, stackSize, priority, argument, env);
    BumpKeepsValid(p);
    if env.tlsTable != 0 && env.controlBlock != 0 {
      if env.threadId >= 0 {
        StartedKeepsValid(p1, num, entryPoint, stack, priority, argument, env);
      } else {
        UnwoundKeepsValid(p1, num, entryPoint, argument, env);
      }
    }
  }

  /** The three ways pte_osThreadCreate can leave the process. */
  lemma CreateOutcomes(p: Process, entryPoint: Addr, stackSize: int, priority: int, argument: Addr,
                       env: CreateEnv)
    requires CreateFresh(p, env)
    ensures var num := NextCounter(p.threadNum);
            var p1 := p.(threadNum := num);
            var stack := if stackSize < DEFAULT_STACK_SIZE_BYTES then DEFAULT_STACK_SIZE_BYTES else stackSize;
            var q := ThreadCreate(p, entryPoint, stackSize, priority, argument, env).after;
            && (env.tlsTable == 0 || env.controlBlock == 0 ==> q == p1)
            && (env.tlsTable != 0 && env.controlBlock != 0 && env.threadId >= 0 ==>
                  q == Started(p1, num, entryPoint, stack, priority, argument, env))
            && (env.tlsTable != 0 && env.controlBlock != 0 && env.threadId < 0 ==>
                  q == Unwound(p1, num, entryPoint, argument, env))
  {
  }

  /*
   * Deletion
   */

  lemma DeleteTables(p: Process, h: int)
    requires Valid(p) && h in p.threads && IsManaged(p, h) && ThreadData(p, h).Some?
    ensures var q := ThreadDelete(p, h).after;
            && (forall k | k in q.threads :: ThreadTable(q, k) == ThreadTable(p, k) && ThreadTable(p, k) != ThreadTable(p, h))
            && TablesResolve(q) && TablesOwned(q)
  {
    var q := ThreadDelete(p, h).after;
    assert forall k | k in q.threads :: k in p.threads && k != h && ThreadTable(q, k) == ThreadTable(p, k);
  }

  /** Removing a table together with the block its slot points to keeps
      every other slot live and unshared. */
  lemma RemoveTableSlots(p: Process, q: Process, t0: Addr)
    requires SlotsLive(p) && SlotsDistinct(p)
    requires t0 in p.tlsTables && ControlSlot(p, t0) != 0
    requires q.tlsTables == p.tlsTables - {t0} && q.threadDataKey == p.threadDataKey
    requires q.controlBlocks == p.controlBlocks - {ControlSlot(p, t0)}
    ensures SlotsLive(q) && SlotsDistinct(q)
  {
    assert forall t | t in q.tlsTables :: ControlSlot(q, t) == ControlSlot(p, t);
    assert forall t | t in q.tlsTables && ControlSlot(p, t) != 0 :: ControlSlot(p, t) != ControlSlot(p, t0);
  }

  lemma DeleteSlots(p: Process, h: int)
    requires Valid(p) && h in p.threads && IsManaged(p, h) && ThreadData(p, h).Some?
    ensures var q := ThreadDelete(p, h).after;
            SlotsLive(q) && SlotsDistinct(q)
  {
    RemoveTableSlots(p, ThreadDelete(p, h).after, ThreadTable(p, h));
  }

  lemma DeleteSemaphores(p: Process, h: int)
    requires Valid(p) && h in p.threads && IsManaged(p, h) && ThreadData(p, h).Some?
    ensures var q := ThreadDelete(p, h).after;
            CancelSemsLive(q) && CancelSemsDistinct(q) && CancelCountsNatural(q) && SemaphoreIdsValid(q)
  {
    var q := ThreadDelete(p, h).after;
    var b0 := ControlSlot(p, ThreadTable(p, h));
    assert b0 in p.controlBlocks;
    assert forall b | b in q.controlBlocks :: b in p.controlBlocks && b != b0 && q.controlBlocks[b] == p.controlBlocks[b];
    assert forall b | b in q.controlBlocks && p.controlBlocks[b].cancelSem >= 0 ::
      p.controlBlocks[b].cancelSem != p.controlBlocks[b0].cancelSem;
  }

  /** pte_osThreadDelete of a thread the port created keeps the process
      well formed: nothing another thread still uses is released. */
  lemma DeletePreservesValid(p: Process, h: int)
    requires Valid(p) && h in p.threads && IsManaged(p, h) && ThreadData(p, h).Some?
    ensures Valid(ThreadDelete(p, h).after)
  {
    DeleteTables(p, h);
    DeleteSlots(p, h);
    DeleteSemaphores(p, h);
  }

  /** Deleting a thread right after creating it leaves the process as it
      was, except that the thread counter has moved on. */
  lemma CreateThenDeleteRestores(p: Process, entryPoint: Addr, stackSize: int, priority: int, argument: Addr,
                                 env: CreateEnv)
    requires Valid(p) && CreateFresh(p, env)
    requires ThreadCreate(p, entryPoint, stackSize, priority, argument, env).status == Ok
    ensures var q := ThreadCreate(p, entryPoint, stackSize, priority, argument, env).after;
            && env.threadId in q.threads && ThreadData(q, env.threadId).Some?
            && ThreadDelete(q, env.threadId).after == p.(threadNum := NextCounter(p.threadNum))
  {
    var num := NextCounter(p.threadNum);
    var p1 := p.(threadNum := num);
    var q := ThreadCreate(p, entryPoint, stackSize, priority, argument, env).after;
    CreatedThreadFindsItsControlBlock(p, entryPoint, stackSize, priority, argument, env);
    var stack := if stackSize < DEFAULT_STACK_SIZE_BYTES then DEFAULT_STACK_SIZE_BYTES else stackSize;
    CreateOutcomes(p, entryPoint, stackSize, priority, argument, env);
    StartedShape(p1, num, entryPoint, stack, priority, argument, env);
    RemoveWhatWasAdded(p1, q, env, q.threads[env.threadId], CancelSemName(num), ControlBlock(entryPoint, argument, env.cancelSem));
  }

  /** Removing the thread, table, block and semaphore that were just added
      gives back the state before they were. */
  lemma RemoveWhatWasAdded(p: Process, q: Process, env: CreateEnv, thread: KernelThread, name: string, cb: ControlBlock)
    requires CreateFresh(p, env) && env.threadId >= 0 && env.tlsTable != 0 && env.controlBlock != 0
    requires cb.cancelSem == env.cancelSem
    requires q.threads == p.threads[env.threadId := thread]
    requires q.tlsTables == p.tlsTables[env.tlsTable := map[p.threadDataKey := env.controlBlock]]
    requires q.controlBlocks == p.controlBlocks[env.controlBlock := cb]
    requires env.cancelSem >= 0 ==> q.semaphores == p.semaphores[env.cancelSem := Semaphore(name, 0, CANCEL_SEM_MAX)]
    requires env.cancelSem < 0 ==> q.semaphores == p.semaphores && env.cancelSem !in p.semaphores
    requires q.globalTls == p.globalTls && q.threadDataKey == p.threadDataKey
    requires q.threadNum == p.threadNum && q.mutexCtr == p.mutexCtr && q.semCtr == p.semCtr
    ensures q.(threads := q.threads - {env.threadId},
               tlsTables := q.tlsTables - {env.tlsTable},
               controlBlocks := q.controlBlocks - {env.controlBlock},
               semaphores := q.semaphores - {env.cancelSem}) == p
  {
    AddThenRemove(p.threads, env.threadId, thread);
    AddThenRemove(p.tlsTables, env.tlsTable, map[p.threadDataKey := env.controlBlock]);
    AddThenRemove(p.controlBlocks, env.controlBlock, cb);
    if env.cancelSem >= 0 {
      AddThenRemove(p.semaphores, env.cancelSem, Semaphore(name, 0, CANCEL_SEM_MAX));
    } else {
      assert p.semaphores - {env.cancelSem} == p.semaphores;
    }
  }

  /** When sceKernelCreateThread fails, the cancellation semaphore created
      for the thread stays alive but no control block refers to it, so no
      later pte_osThreadDelete can release it. */
  lemma CreateFailureLeaksCancelSemaphore(p: Process, entryPoint: Addr, stackSize: int, priority: int,
                                          argument: Addr, env: CreateEnv)
    requires Valid(p) && CreateFresh(p, env)
    requires env.tlsTable != 0 && env.controlBlock != 0 && env.threadId < 0 && env.cancelSem >= 0
    ensures var q := ThreadCreate(p, entryPoint, stackSize, priority, argument, env).after;
            && env.cancelSem !in p.semaphores && env.cancelSem in q.semaphores
            && (forall b | b in q.controlBlocks :: q.controlBlocks[b].cancelSem != env.cancelSem)
  {
    var q := ThreadCreate(p, entryPoint, stackSize, priority, argument, env).after;
    assert forall b | b in q.controlBlocks :: q.controlBlocks[b] == p.controlBlocks[b];
  }

  /*
   * Initialisation
   */

  /** A successful pte_osInit over threads whose names the port did not
      write leaves a well-formed process in which every such thread falls
      back to the ambient table and shares the ambient control block. */
  lemma InitEstablishesValid(threads: map<int, KernelThread>, env: InitEnv)
    requires env.globalTable != 0
    requires forall h | h in threads :: ScanThreadName(threads[h].name).Matches() != 2
    requires OsInit(InitialProcess(threads), env).status == Ok
    ensures var q := OsInit(InitialProcess(threads), env).after;
            && Valid(q)
            && q.threads == threads
            && (forall h | h in threads :: !IsManaged(q, h) && ThreadData(q, h) == Some(ControlBlock(0, 0, env.cancelSem)))
  {
    var q := OsInit(InitialProcess(threads), env).after;
    assert q.tlsTables == map[env.globalTable := map[env.key := env.controlBlock]];
    assert q.controlBlocks == map[env.controlBlock := ControlBlock(0, 0, env.cancelSem)];
    assert forall h | h in q.threads :: ThreadTable(q, h) == env.globalTable;
  }

  /*
   * Cancellation
   */

  /** pte_osThreadCancel keeps the process well formed. */
  lemma CancelPreservesValid(p: Process, h: int)
    requires Valid(p) && h in p.threads && ThreadData(p, h).Some?
    ensures Valid(ThreadCancel(p, h).after)
  {
    var q := ThreadCancel(p, h).after;
    if ThreadCancel(p, h).status == Ok {
      assert forall k | k in q.threads :: ThreadTable(q, k) == ThreadTable(p, k);
      assert forall t :: ControlSlot(q, t) == ControlSlot(p, t);
    }
  }

  /** A successful pte_osThreadCancel is seen by the next
      pte_osThreadCheckCancel of the same thread. */
  lemma CancelThenCheck(p: Process, h: int)
    requires Valid(p) && h in p.threads && ThreadData(p, h).Some?
    requires ThreadCancel(p, h).status == Ok
    ensures h in ThreadCancel(p, h).after.threads
    ensures ThreadCheckCancel(ThreadCancel(p, h).after, h) == Interrupted
  {
    var q := ThreadCancel(p, h).after;
    assert ThreadTable(q, h) == ThreadTable(p, h);
    assert ControlSlot(q, ThreadTable(p, h)) == ControlSlot(p, ThreadTable(p, h));
    assert ThreadData(q, h) == ThreadData(p, h);
  }

  /*
   * Thread-local storage through the thread name
   */

  /** A port-created thread's stores are invisible to every other thread. */
  lemma TlsIsolation(p: Process, self: int, other: int, key: nat, value: Addr)
    requires Valid(p) && self in p.threads && other in p.threads && self != other
    requires IsManaged(p, self)
    ensures OsTlsGetValue(OsTlsSetValue(p, self, key, value), other, key) == OsTlsGetValue(p, other, key)
  {
    assert ThreadTable(p, self) != ThreadTable(p, other);
  }

  /** Threads the port did not create all use the ambient table, so a store
      by one of them is read by all of them. */
  lemma AmbientTlsShared(p: Process, self: int, other: int, key: nat, value: Addr)
    requires Valid(p) && self in p.threads && other in p.threads
    requires !IsManaged(p, self) && !IsManaged(p, other)
    ensures OsTlsGetValue(OsTlsSetValue(p, self, key, value), other, key) == value
  {
  }
}
