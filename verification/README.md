# PSP OS abstraction layer of pthread-embedded, in Dafny

pthread-embedded implements POSIX threads on top of a small OS abstraction
layer (OSAL). Its PSP port, `platform/psp/psp_osal.c`, maps that layer onto
the PSP kernel. The kernel has counting semaphores and threads but no
thread-local storage and no way to interrupt a blocked call. The port works
around both gaps:

- **TLS emulation.** Every thread the port creates is named
  `"pthread%04d__%x"`, holding a sequence number and the address of its TLS
  table. A thread finds its table by parsing its own name back with `sscanf`.
  A thread whose name does not parse (one the port did not create) uses the
  single ambient table `globalTls`.
- **Control blocks.** Each table's reserved slot (`threadDataKey`) points to
  a control block. The block holds the entry point, the argument and the id
  of a cancellation semaphore.
- **Cancellation.** `pte_osThreadCancel` posts to the cancellation semaphore.
  `pte_osThreadCheckCancel` and the two cancellable waits read the
  semaphore's count without consuming it.
- **Naming counters.** Three counters name new kernel objects: `threadNum`,
  `mutexCtr` and `semCtr`. Each uses post-increment and resets to 0 past
  `MAX_PSP_UID` (2048).
- **Atomics.** These are plain read-modify-writes inside an
  interrupt-masked section.

The model abstracts the kernel, the heap and the TLS helper into one
immutable `Process` value:

- kernel semaphores: id to name, count and maximum;
- kernel threads: id to name, priority and stack size;
- live TLS tables: address to a key/value map;
- live control blocks;
- the port's globals.

Whatever the kernel or an allocator returns is a parameter of the
operation. A precondition states that fresh objects are not already live.

Modules, in dependency order:

| module | file | contents |
|---|---|---|
| `OsalTypes` | osal_types.dfy | status codes, 32-bit ranges, kernel constants, `Option` |
| `Digits`, `Printf`, `Scanf` | digits.dfy, printf.dfy, scanf.dfy | the `%d`/`%04d`/`%x` conversions of `snprintf` and `sscanf` on digit strings |
| `NameCounters` | name_counters.dfy | the wrapping counters |
| `ThreadName` | thread_name.dfy | the thread-name codec, `getTlsStructFromThread`, the semaphore names |
| `ProcessState` | process_state.dfy | the abstract kernel and heap, `getThreadData`, the well-formedness invariant `Valid` |
| `Threads` | threads.dfy | `pte_osInit`, thread create, delete, cancel, check-cancel, TLS get and set |
| `ThreadInvariants` | thread_invariants.dfy | `Valid` preservation, create/delete round trip, TLS isolation |
| `Sync` | sync.dfy | mutex and semaphore creation, timeout conversion, status mapping of the blocking calls |
| `Polling` | polling.dfy | the two polling loops over a finite sequence of observed rounds |
| `Atomics` | atomics.dfy | the five atomic operations |
| `Lifecycle` | lifecycle.dfy | runs of operations: `Valid` is kept and cancellation is sticky |

## Model

| member | source | states |
|---|---|---|
| NameCounters.NextCounter | platform/psp/psp_osal.c:183-186 | a counter in 0..2049 steps to its successor modulo 2050; a value above 2048 resets to 0 |
| NameCounters.AdvanceIsCyclic | platform/psp/psp_osal.c:500-503 | n successive creations move a counter in range to (c + n) mod 2050 and keep it in 0..2049 |
| NameCounters.CounterValuesDistinct | platform/psp/psp_osal.c:574-577 | fewer than 2050 successive creations never give the same counter value twice |
| NameCounters.CounterPeriodic | platform/psp/psp_osal.c:183-186 | after exactly 2050 creations the counter is back where it started, so names start to repeat |
| NameCounters.FirstNumbers | platform/psp/psp_osal.c:176 | the first thread created is numbered 2, the first mutex and semaphore 1 |
| Printf.FormatDecimal04 | platform/psp/psp_osal.c:239 | `%04d` gives exactly four decimal digits denoting n for 0 <= n <= 9999, and at least five for larger n |
| Printf.FormatHex | platform/psp/psp_osal.c:239 | `%x` gives lower-case hex digits without leading zeros denoting the value, at most 8 of them for a 32-bit value, never containing 'x' or '_' |
| ThreadName.FormatThreadName | platform/psp/psp_osal.c:239 | the name starts with "pthread" and fits the 64-byte buffer whenever the number has four digits |
| ThreadName.CounterNameRoundTrip | platform/psp/psp_osal.c:183-186 | every value the thread counter can take prints as four decimal digits, and the name built from it resolves back to the table address |
| ThreadName.ThreadNameRoundTrip | platform/psp/psp_osal.c:845-858 | parsing a name built with a number 0..9999 gives two matches, that number and the table address, and resolves to the table |
| ThreadName.TlsTableOf | platform/psp/psp_osal.c:832-861 | the resolved table is the parsed address when sscanf matches twice and `globalTls` otherwise |
| ThreadName.UnmanagedNameFallback | platform/psp/psp_osal.c:845-858 | a name not starting with "pthread" matches nothing and resolves to `globalTls` |
| ThreadName.FiveDigitNumberFallsBack | platform/psp/psp_osal.c:845-858 | a name built with a number above 9999 matches only once (the width-4 field leaves a digit before "__") and resolves to `globalTls` |
| ThreadName.ThreadNamesDistinct | platform/psp/psp_osal.c:239 | two threads with different numbers or different tables get different names |
| ThreadName.CancelSemNameSpellsNumber | platform/psp/psp_osal.c:225 | the cancellation semaphore's name is "pthread_cancelSem" followed, for a thread number up to 9999, by exactly four digits denoting that number, 21 characters in all |
| ThreadName.CancelSemNamesDistinct | platform/psp/psp_osal.c:225 | threads with different four-digit numbers get differently named cancellation semaphores |
| ThreadName.MutexName | platform/psp/psp_osal.c:505 | a mutex name is "mutex" followed, for a counter value in range, by at most four digits denoting the counter, within the 32-byte buffer |
| ThreadName.SemaphoreName | platform/psp/psp_osal.c:579 | a semaphore name is "pthread_sem" followed, for a counter value in range, by at most four digits denoting the counter, within the 32-byte buffer |
| ThreadName.SyncNamesDistinct | platform/psp/psp_osal.c:505 | fewer than 2050 successive mutex or semaphore creations give pairwise different names |
| Scanf.ScanDecimalOfDigits | platform/psp/psp_osal.c:845 | `%04d` applied to four digits followed by anything reads their value and stops after them |
| Scanf.ScanHexOfDigits | platform/psp/psp_osal.c:845 | `%x` applied to a 32-bit hex digit string reads its value and consumes all of it |
| Digits.ValueOfToDigits | platform/psp/psp_osal.c:239 | reading back the digits printf writes gives the number again |
| Digits.DigitsFit | platform/psp/psp_osal.c:239 | a number takes at most m digits exactly when it is below base^m |
| ProcessState.ThreadData | platform/psp/psp_osal.c:820-830 | a control block is found exactly when the table the name resolves to holds a live block in its reserved slot, and it is that block |
| ProcessState.TlsSetValue | platform/psp/psp_osal.c:869-876 | a write to a live table is read back and changes no other (table, key) slot; it never adds or removes a table |
| Threads.OsInit | platform/psp/psp_osal.c:105-160 | OK exactly when the TLS set-up, the key allocation and the malloc succeed. A failed set-up or key allocation returns its status with nothing changed, and a failed malloc returns NO_RESOURCES. On success the reserved key and the ambient table are recorded and the ambient table points to a new block, whose semaphore "pthread_cancelSemGlobal" starts at 0 with maximum 255. Every path keeps the threads and the naming counters; success adds only the ambient table, block and semaphore and leaves every other existing table and every existing semaphore as it was, and a failure leaves the blocks and semaphores unchanged |
| Threads.ThreadCreate | platform/psp/psp_osal.c:168-275 | the counter always advances. The result is OK with the handle exactly when the table, the block and the kernel thread are all obtained. Allocation failure gives NO_RESOURCES with nothing allocated. SCE_KERNEL_ERROR_NO_MEMORY gives NO_RESOURCES and any other negative id GENERAL_FAILURE, both with the table and block released. On success a request below 4096 is raised to exactly 4096 and a larger one is kept, the name carries the number and table, and the table points to a block with the entry point, argument and a new 0/255 semaphore |
| Threads.ThreadDelete | platform/psp/psp_osal.c:286-304 | removes exactly the thread, its table, its control block and its cancellation semaphore, and nothing else |
| Threads.ThreadCancel | platform/psp/psp_osal.c:406-426 | OK exactly when the cancellation semaphore is live and below its maximum; then its count grows by one and nothing else changes; otherwise GENERAL_FAILURE with nothing changed |
| Threads.ThreadCheckCancel | platform/psp/psp_osal.c:429-466 | INTERRUPTED exactly when a cancellation is pending; GENERAL_FAILURE exactly when the block is missing or its semaphore cannot be read; otherwise OK |
| Threads.OsTlsSetValue | platform/psp/psp_osal.c:869-876 | the caller's own table reads back the value; threads and the set of tables are unchanged |
| Threads.OsTlsGetValue | platform/psp/psp_osal.c:878-887 | the value stored under the key in the caller's own table is returned; a slot never written, or a table that is not live, reads NULL |
| Threads.OsTlsSetThenGet | platform/psp/psp_osal.c:869-887 | a thread whose table is live reads back what it stored under a key |
| Threads.OsTlsSetKeepsOtherKeys | platform/psp/psp_osal.c:869-887 | storing under one key leaves the thread's other keys reading as before |
| ThreadInvariants.CreatedThreadFindsItsControlBlock | platform/psp/psp_osal.c:87-97 | the trampoline of a created thread finds, through its own name, the block holding the entry point and argument it was created with |
| ThreadInvariants.InitEstablishesValid | platform/psp/psp_osal.c:105-160 | a successful initialisation yields a well-formed process in which every pre-existing thread is unmanaged and shares the ambient block |
| ThreadInvariants.CreatePreservesValid | platform/psp/psp_osal.c:168-275 | thread creation keeps the process well formed on every path |
| ThreadInvariants.DeletePreservesValid | platform/psp/psp_osal.c:286-304 | deleting a created thread keeps the process well formed |
| ThreadInvariants.CreateThenDeleteRestores | platform/psp/psp_osal.c:168-304 | deleting a thread right after creating it restores the process exactly, apart from the advanced counter |
| ThreadInvariants.CreateFailureLeaksCancelSemaphore | platform/psp/psp_osal.c:251-266 | after a kernel failure the new cancellation semaphore stays alive while no control block refers to it |
| ThreadInvariants.CancelPreservesValid | platform/psp/psp_osal.c:406-426 | cancellation keeps the process well formed |
| ThreadInvariants.CancelThenCheck | platform/psp/psp_osal.c:406-466 | after a successful cancel, the check reports INTERRUPTED |
| ThreadInvariants.TlsIsolation | platform/psp/psp_osal.c:869-887 | a created thread's TLS write is invisible to every other thread |
| ThreadInvariants.AmbientTlsShared | platform/psp/psp_osal.c:855-858 | all threads the port did not create share one table: a write by one is read by another |
| Sync.MutexCreate | platform/psp/psp_osal.c:494-516 | always OK, returning the kernel id; the counter advances and a live id becomes a semaphore "mutex<n>" with count 1 and maximum 1; a failed (negative) id changes only the counter |
| Sync.SemaphoreCreate | platform/psp/psp_osal.c:568-590 | always OK, returning the kernel id; the counter advances and a live id becomes a semaphore "pthread_sem<n>" with the initial value and SEM_VALUE_MAX; a failed id changes only the counter |
| Sync.MutexCreatePreservesValid | platform/psp/psp_osal.c:494-516 | mutex creation keeps the process well formed |
| Sync.SemaphoreCreatePreservesValid | platform/psp/psp_osal.c:568-590 | semaphore creation keeps the process well formed |
| Sync.MsToUs | platform/psp/psp_osal.c:620 | the microsecond timeout is ms × 1000 when that fits 32 bits; otherwise it is the 32-bit value congruent to ms × 1000 modulo 2^32, which is smaller |
| Sync.TimeoutWraps | platform/psp/psp_osal.c:670-671 | 4294967 ms converts faithfully; 4294968 ms wraps to 704 µs, a shorter timeout than a smaller request |
| Sync.PendTimeout | platform/psp/psp_osal.c:611-620 | a NULL timeout stays "no timeout"; otherwise it is converted to microseconds |
| Sync.PendStatus | platform/psp/psp_osal.c:622-637 | OK exactly for the kernel's OK, TIMEOUT exactly for WAIT_TIMEOUT, GENERAL_FAILURE for every other result |
| Sync.TimedLockStatus | platform/psp/psp_osal.c:534-552 | TIMEOUT exactly for a negative kernel result, OK otherwise |
| Sync.PendAndTimedLockAgree | platform/psp/psp_osal.c:534-640 | the two mappings agree exactly on OK and WAIT_TIMEOUT; a positive result is GENERAL_FAILURE for the pend and OK for the timed lock, and every other negative error is GENERAL_FAILURE for the pend and TIMEOUT for the timed lock |
| Polling.PendVerdict | platform/psp/psp_osal.c:683-727 | a round ends OK exactly when the probe succeeds. It ends TIMEOUT exactly when the probe failed and a timeout was given and exceeded. It ends INTERRUPTED or GENERAL_FAILURE exactly when neither holds, the caller has a block, and the cancel count is positive or unreadable |
| Polling.JoinVerdict | platform/psp/psp_osal.c:331-376 | a round ends OK exactly when the target is stopped; otherwise INTERRUPTED or GENERAL_FAILURE exactly as the cancel read says, and only when the caller has a block |
| Polling.FirstDecision | platform/psp/psp_osal.c:331-376 | the result is the verdict of the first deciding round, every earlier round left the wait open, and no result means no round decided |
| Polling.CancellablePend | platform/psp/psp_osal.c:649-730 | the pend returns the first deciding round's verdict. It never times out without a timeout and never reports NO_RESOURCES. A pending cancellation ends the first round that the semaphore and the clock leave open |
| Polling.WaitForEnd | platform/psp/psp_osal.c:324-382 | the join returns the first deciding round's verdict and never TIMEOUT or NO_RESOURCES; a caller without a control block ends only when the target stops |
| Polling.WaitsAgreeWithCheckCancel | platform/psp/psp_osal.c:354-368 | the waits' cancellation read decides INTERRUPTED, GENERAL_FAILURE or nothing exactly when the cancellation check says INTERRUPTED, GENERAL_FAILURE or OK |
| Atomics.Exchange | platform/psp/psp_osal.c:739-752 | returns the old value and stores the new one |
| Atomics.CompareExchange | platform/psp/psp_osal.c:754-770 | returns the old value; stores the exchange value exactly when the old value equals the comparand, otherwise leaves the location unchanged |
| Atomics.ExchangeAdd | platform/psp/psp_osal.c:772-784 | returns the old value and stores old + value |
| Atomics.Increment | platform/psp/psp_osal.c:800-812 | stores and returns old + 1 |
| Atomics.Decrement | platform/psp/psp_osal.c:786-798 | stores and returns old − 1 |
| Atomics.CompareExchangeReportsSuccess | platform/psp/psp_osal.c:754-770 | when the exchange value differs from the old one, the caller can tell success from the return value alone: the swap happened exactly when the old value equals the comparand |
| Atomics.IncrementDecrementInverse | platform/psp/psp_osal.c:772-812 | increment and decrement undo each other; exchange-add of 1 stores what increment stores and returns one less |
| Atomics.RunCountsSteps | platform/psp/psp_osal.c:786-812 | K increments and L decrements, in any sequential order in which no step overflows, leave initial + K − L |
| Atomics.RunOrderIrrelevant | platform/psp/psp_osal.c:786-812 | two runs with the same increments and decrements end at the same value when neither overflows |
| Atomics.RoomForEveryOrder | platform/psp/psp_osal.c:786-812 | a start at least as many steps away from both ends of the 32-bit range as the run has lets every order of the steps run without overflow |
| Lifecycle.RunPreservesValid | platform/psp/psp_osal.c:168-590 | every run of thread creations, deletions, cancellations, TLS writes and mutex and semaphore creations keeps the process well formed |
| Lifecycle.OpKeepsCancel | platform/psp/psp_osal.c:406-466 | no single operation other than deleting the thread takes away a pending cancellation |
| Lifecycle.CancelIsSticky | platform/psp/psp_osal.c:406-466 | once a check reports INTERRUPTED, it keeps reporting INTERRUPTED after any run that does not delete the thread, since nothing consumes the signal |

## Left out

- Every per-thread operation requires the handle to name a live thread (`h in p.threads`). For an unknown handle the source reads an uninitialised `thinfo.name` (platform/psp/psp_osal.c:841-845), so that case has no defined result to model.
- Kernel behaviour is not modelled. This covers blocking and waking, semaphore waits and posts, and scheduling. It also covers the start, exit and run status of threads. The model reads the kernel's answers as inputs: thread ids, semaphore ids, wait results, run statuses and cancellation reads.
- Pass-throughs to the kernel and runtime are not modelled: `pte_osThreadStart`, `pte_osThreadExit`, `pte_osThreadExitAndDelete`, `pte_osThreadGetHandle`, the priority getters and setters (17, 30, 18), `pte_osThreadSleep`, mutex lock and unlock, semaphore post and delete, mutex delete, `pte_osTlsAlloc`/`pte_osTlsFree`, `ftime` and `PSP_DEBUG`. They have no logic of their own.
- The TLS helper (`pteTlsGlobalInit`, `pteTlsAlloc`, `pteTlsThreadInit`, `pteTlsSetValue`, `pteTlsGetValue`, `pteTlsThreadDestroy`) is not part of this model. A table is a key/value map, an unset slot reads as NULL, and a table address that is not live reads as NULL and ignores writes. The status of `pteTlsSetValue` is not modelled; `pte_osTlsSetValue` forwards it.
- `clock()` and the polling delay are left out. Elapsed time is an observed 32-bit input of each round, and the source's signed/unsigned mix in `clock() - start_time` is not modelled. A wait that never ends is modelled as a finite sequence of rounds after which it is still waiting.
- Interrupt masking and real concurrency are left out. The atomics are modelled by their sequential meaning only.
- Polling.CancellablePend: the control block is looked up once, before the loop; a caller without one never gets INTERRUPTED or GENERAL_FAILURE and keeps polling. This follows the source.
- Atomics.ExchangeAdd, Atomics.Increment, Atomics.Decrement: a result outside the 32-bit signed range is signed overflow in C, which is undefined; these require the result to fit instead of modelling wrap-around.
- Atomics.Run: defined only for runs in which no single increment starts at INT32_MAX and no decrement at INT32_MIN (`StaysInInt32`), for the same reason. A run that never overflows is covered wherever it starts.
- Atomics.RunCountsSteps: proved for every run in which no step overflows, and for no other run.
- Atomics.RunOrderIrrelevant: requires both orders to be free of overflow; one order can overflow where another does not, and that case is undefined in C. `RoomForEveryOrder` shows that a start at least as many steps from both ends of `int` as the run has satisfies this for every order.
- Threads.ThreadDelete, Threads.ThreadCancel: the source dereferences the control block without checking for NULL; these require the thread to have one.
- ThreadInvariants.DeletePreservesValid: covers only threads the port created. Deleting an unmanaged thread would free the shared ambient block, and later uses are undefined.
- Lifecycle.Enabled: a TLS write through a user key never targets the reserved control-block slot. The key allocator never hands it out, and the allocator is not part of this model. Enabled runs also delete only threads the port created (see ThreadInvariants.DeletePreservesValid), so "any run" in the lifecycle lemmas means any enabled run.
- Sync.SemaphoreCreate: SEM_VALUE_MAX is a parameter, since its value comes from a header that is not part of this model.
- Kernel error codes (SCE_KERNEL_ERROR_NO_MEMORY 0x80020190, SCE_KERNEL_ERROR_WAIT_TIMEOUT 0x800201a8) and `PSP_THREAD_STOPPED` (16) come from the PSP SDK headers, which are not part of this model.
- Two details of `sscanf` are approximated. The EOF return is folded into "no conversion", since the caller only compares the count with 2. A "0x" prefix with no digits after it is treated as a matching failure, as ISO C reads it; C libraries differ there.
- Threads.OsInit: the ambient control block's entry point and argument are never written by the source, so the model stores NULL for both. A NULL ambient table from `pteTlsThreadInit` is not checked by the source. The model records it, and `InitEstablishesValid` requires a non-NULL table.
- Only a failed cancellation read ends a wait with GENERAL_FAILURE (platform/psp/psp_osal.c:371-375 and 720-724). A failed semaphore probe or run-status query just lets the round continue. The source's mutex and semaphore creation report OK even when the kernel returns an error id.
