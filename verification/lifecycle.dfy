/*
 * Runs of the port's state-changing operations. Any run of enabled
 * operations keeps the process well formed, and a cancellation request,
 * once posted, stays visible to pte_osThreadCheckCancel (and so to both
 * cancellable waits) until the thread is deleted: nothing in the port
 * ever takes a unit from a cancellation semaphore.
 */
module Lifecycle {
  import opened OsalTypes
  import opened NameCounters
  import opened ProcessState
  import opened Threads
  import opened ThreadInvariants
  import opened Sync

  datatype Op =
    | CreateThread(entryPoint: Addr, stackSize: int, priority: int, argument: Addr, env: CreateEnv)
    | DeleteThread(handle: int)
    | CancelThread(target: int)
    | CreateMutex(mutexId: int)
    | CreateSemaphore(initialValue: int, semValueMax: int, semId: int)
    | SetTls(self: int, key: nat, value: Addr)

  /** What the source (or, for fresh ids, the kernel and the heap) demands
      before each operation. Deletion is only for threads the port created;
      the reserved control-block slot is never handed out as a user key. */
  predicate Enabled(p: Process, op: Op) {
    match op
    case CreateThread(_, _, _, _, env) => CreateFresh(p, env)
    case DeleteThread(h) => h in p.threads && IsManaged(p, h) && ThreadData(p, h).Some?
    case CancelThread(h) => h in p.threads && ThreadData(p, h).Some?
    case CreateMutex(id) => id >= 0 ==> id !in p.semaphores
    case CreateSemaphore(_, _, id) => id >= 0 ==> id !in p.semaphores
    case SetTls(self, key, _) => self in p.threads && key != p.threadDataKey
  }

  function Apply(p: Process, op: Op): Process
    requires Enabled(p, op)
  {
    match op
    case CreateThread(entryPoint, stackSize, priority, argument, env) =>
      ThreadCreate(p, entryPoint, stackSize, priority, argument, env).after
    case DeleteThread(h) => ThreadDelete(p, h).after
    case CancelThread(h) => ThreadCancel(p, h).after
    case CreateMutex(id) => MutexCreate(p, id).after
    case CreateSemaphore(initialValue, semValueMax, id) => SemaphoreCreate(p, initialValue, semValueMax, id).after
    case SetTls(self, key, value) => OsTlsSetValue(p, self, key, value)
  }

  /** Every operation of the run is enabled in the state it meets. */
  predicate Runs(p: Process, ops: seq<Op>)
    decreases |ops|
  {
    |ops| == 0 || (Enabled(p, ops[0]) && Runs(Apply(p, ops[0]), ops[1..]))
  }

  function Final(p: Process, ops: seq<Op>): Process
    requires Runs(p, ops)
    decreases |ops|
  {
    if |ops| == 0 then p else Final(Apply(p, ops[0]), ops[1..])
  }

  /** Each enabled operation keeps the process well formed. */
  lemma OpPreservesValid(p: Process, op: Op)
    requires Valid(p) && Enabled(p, op)
    ensures Valid(Apply(p, op))
  {
    match op
    case CreateThread(entryPoint, stackSize, priority, argument, env) =>
      CreatePreservesValid(p, entryPoint, stackSize, priority, argument, env);
    case DeleteThread(h) => DeletePreservesValid(p, h);
    case CancelThread(h) => CancelPreservesValid(p, h);
    case CreateMutex(id) => MutexCreatePreservesValid(p, id);
    case CreateSemaphore(initialValue, semValueMax, id) =>
      SemaphoreCreatePreservesValid(p, initialValue, semValueMax, id);
    case SetTls(self, key, value) => TlsSetKeepsValid(p, self, key, value);
  }

  /** Storing a user TLS value leaves every reserved slot alone. */
  lemma TlsSetKeepsValid(p: Process, self: int, key: nat, value: Addr)
    requires Valid(p) && self in p.threads && key != p.threadDataKey
    ensures Valid(OsTlsSetValue(p, self, key, value))
    ensures forall t :: ControlSlot(OsTlsSetValue(p, self, key, value), t) == ControlSlot(p, t)
  {
    var q := OsTlsSetValue(p, self, key, value);
    assert forall h | h in q.threads :: ThreadTable(q, h) == ThreadTable(p, h);
  }

  /** Any run of enabled operations from a well-formed process ends in one. */
  lemma {:induction false} RunPreservesValid(p: Process, ops: seq<Op>)
    requires Valid(p) && Runs(p, ops)
    ensures Valid(Final(p, ops))
    decreases |ops|
  {
    if |ops| > 0 {
      OpPreservesValid(p, ops[0]);
      RunPreservesValid(Apply(p, ops[0]), ops[1..]);
    }
  }

  /** A pending cancellation survives any change that keeps the thread,
      the table its name leads to, that table's slot, the block the slot
      points to, and does not lower the semaphore's count. */
  lemma PendingKept(p: Process, q: Process, h: int)
    requires h in p.threads && CancelPending(p, h)
    requires h in q.threads && ThreadTable(q, h) == ThreadTable(p, h)
    requires ControlSlot(q, ThreadTable(p, h)) == ControlSlot(p, ThreadTable(p, h))
    requires var b := ControlSlot(p, ThreadTable(p, h));
             b in q.controlBlocks && q.controlBlocks[b] == p.controlBlocks[b]
    requires var s := ThreadData(p, h).value.cancelSem;
             s in q.semaphores && q.semaphores[s].count >= p.semaphores[s].count
    ensures CancelPending(q, h)
  {
  }

  lemma StartedKeepsCancel(p: Process, num: int, entryPoint: Addr, stack: int, priority: int, argument: Addr,
                           env: CreateEnv, h: int)
    requires Valid(p) && h in p.threads && CancelPending(p, h)
    requires env.tlsTable != 0 && env.controlBlock != 0 && env.threadId >= 0 && CreateFresh(p, env)
    ensures var q := Started(p, num, entryPoint, stack, priority, argument, env);
            h in q.threads && CancelPending(q, h)
  {
    var q := Started(p, num, entryPoint, stack, priority, argument, env);
    StartedShape(p, num, entryPoint, stack, priority, argument, env);
    StartedKeepsViews(p, num, entryPoint, stack, priority, argument, env);
    AddedObjectsKeepCancel(p, q, h, env.tlsTable, env.controlBlock);
  }

  /** A new table and a new block next to the existing ones, and
      semaphores only added, keep a pending cancellation. */
  lemma AddedObjectsKeepCancel(p: Process, q: Process, h: int, t0: Addr, b0: Addr)
    requires Valid(p) && h in p.threads && CancelPending(p, h)
    requires h in q.threads && ThreadTable(q, h) == ThreadTable(p, h)
    requires t0 !in p.tlsTables && b0 !in p.controlBlocks
    requires q.threadDataKey == p.threadDataKey
    requires q.tlsTables == p.tlsTables[t0 := map[p.threadDataKey := b0]]
    requires p.controlBlocks.Keys <= q.controlBlocks.Keys
    requires forall b | b in p.controlBlocks :: q.controlBlocks[b] == p.controlBlocks[b]
    requires p.semaphores.Keys <= q.semaphores.Keys
    requires forall k | k in p.semaphores :: q.semaphores[k] == p.semaphores[k]
    ensures CancelPending(q, h)
  {
    var t := ThreadTable(p, h);
    assert t in p.tlsTables;
    assert ControlSlot(q, t) == ControlSlot(p, t);
    PendingKept(p, q, h);
  }

  lemma UnwoundKeepsCancel(p: Process, num: int, entryPoint: Addr, argument: Addr, env: CreateEnv, h: int)
    requires Valid(p) && h in p.threads && CancelPending(p, h)
    requires env.tlsTable != 0 && env.controlBlock != 0 && CreateFresh(p, env)
    ensures var q := Unwound(p, num, entryPoint, argument, env);
            h in q.threads && CancelPending(q, h)
  {
    var q := Unwound(p, num, entryPoint, argument, env);
    UnwoundShape(p, num, entryPoint, argument, env);
    if env.cancelSem >= 0 {
      SemaphoreAddKeepsCancel(p, q, h);
    }
  }

  lemma CreateKeepsCancel(p: Process, entryPoint: Addr, stackSize: int, priority: int, argument: Addr,
                          env: CreateEnv, h: int)
    requires Valid(p) && CreateFresh(p, env) && h in p.threads && CancelPending(p, h)
    ensures var q := ThreadCreate(p, entryPoint, stackSize, priority, argument, env).after;
            h in q.threads && CancelPending(q, h)
  {
    var num := NextCounter(p.threadNum);
    var p1 := p.(threadNum := num);
    BumpKeepsValid(p);
    SemaphoreAddKeepsCancel(p, p1, h);
    if env.tlsTable != 0 && env.controlBlock != 0 {
      var stack := if stackSize < DEFAULT_STACK_SIZE_BYTES then DEFAULT_STACK_SIZE_BYTES else stackSize;
      if env.threadId >= 0 {
        StartedKeepsCancel(p1, num, entryPoint, stack, priority, argument, env, h);
      } else {
        UnwoundKeepsCancel(p1, num, entryPoint, argument, env, h);
      }
    }
  }

  lemma DeleteKeepsCancel(p: Process, d: int, h: int)
    requires Valid(p) && d in p.threads && IsManaged(p, d) && ThreadData(p, d).Some?
    requires h in p.threads && h != d && CancelPending(p, h)
    ensures var q := ThreadDelete(p, d).after;
            h in q.threads && CancelPending(q, h)
  {
    var q := ThreadDelete(p, d).after;
    DeleteTables(p, d);
    var t := ThreadTable(p, h);
    var td := ThreadTable(p, d);
    assert t in p.tlsTables && t != td;
    assert ControlSlot(q, t) == ControlSlot(p, t);
    assert ControlSlot(p, t) != ControlSlot(p, td);
    var s := ThreadData(p, h).value.cancelSem;
    assert s >= 0;
    assert s != ThreadData(p, d).value.cancelSem;
    PendingKept(p, q, h);
  }

  lemma CancelKeepsCancel(p: Process, c: int, h: int)
    requires c in p.threads && ThreadData(p, c).Some?
    requires h in p.threads && CancelPending(p, h)
    ensures var q := ThreadCancel(p, c).after;
            h in q.threads && CancelPending(q, h)
  {
    var q := ThreadCancel(p, c).after;
    assert ThreadTable(q, h) == ThreadTable(p, h);
    assert ControlSlot(q, ThreadTable(p, h)) == ControlSlot(p, ThreadTable(p, h));
    PendingKept(p, q, h);
  }

  lemma SemaphoreAddKeepsCancel(p: Process, q: Process, h: int)
    requires h in p.threads && CancelPending(p, h)
    requires q.(semaphores := p.semaphores, threadNum := p.threadNum, mutexCtr := p.mutexCtr, semCtr := p.semCtr) == p
    requires p.semaphores.Keys <= q.semaphores.Keys
    requires forall k | k in p.semaphores :: q.semaphores[k] == p.semaphores[k]
    ensures h in q.threads && CancelPending(q, h)
  {
    assert ThreadTable(q, h) == ThreadTable(p, h);
    assert ControlSlot(q, ThreadTable(p, h)) == ControlSlot(p, ThreadTable(p, h));
    PendingKept(p, q, h);
  }

  /** No enabled operation other than deleting the thread itself withdraws
      a pending cancellation. */
  lemma OpKeepsCancel(p: Process, op: Op, h: int)
    requires Valid(p) && Enabled(p, op) && h in p.threads && CancelPending(p, h)
    requires op != DeleteThread(h)
    ensures h in Apply(p, op).threads && CancelPending(Apply(p, op), h)
  {
    match op
    case CreateThread(entryPoint, stackSize, priority, argument, env) =>
      CreateKeepsCancel(p, entryPoint, stackSize, priority, argument, env, h);
    case DeleteThread(d) => DeleteKeepsCancel(p, d, h);
    case CancelThread(c) => CancelKeepsCancel(p, c, h);
    case CreateMutex(id) => SemaphoreAddKeepsCancel(p, Apply(p, op), h);
    case CreateSemaphore(_, _, id) => SemaphoreAddKeepsCancel(p, Apply(p, op), h);
    case SetTls(self, key, value) =>
      var q := OsTlsSetValue(p, self, key, value);
      TlsSetKeepsValid(p, self, key, value);
      assert ThreadTable(q, h) == ThreadTable(p, h);
      PendingKept(p, q, h);
  }

  /** Cancellation is sticky: once pte_osThreadCheckCancel reports
      INTERRUPTED for a thread, it does so after any run of enabled
      operations that does not delete that thread. */
  lemma {:induction false} CancelIsSticky(p: Process, ops: seq<Op>, h: int)
    requires Valid(p) && Runs(p, ops) && h in p.threads
    requires ThreadCheckCancel(p, h) == Interrupted
    requires forall i | 0 <= i < |ops| :: ops[i] != DeleteThread(h)
    ensures h in Final(p, ops).threads
    ensures ThreadCheckCancel(Final(p, ops), h) == Interrupted
    decreases |ops|
  {
    if |ops| > 0 {
      OpKeepsCancel(p, ops[0], h);
      OpPreservesValid(p, ops[0]);
      assert forall i | 0 <= i < |ops[1..]| :: ops[1..][i] == ops[i + 1];
      CancelIsSticky(Apply(p, ops[0]), ops[1..], h);
    }
  }
}
