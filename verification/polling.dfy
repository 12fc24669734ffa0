/*
 * The two cancellable waits of the PSP port. The kernel cannot interrupt
 * a blocked call, so pte_osSemaphoreCancellablePend and
 * pte_osThreadWaitForEnd poll: each round looks at what they wait for,
 * then (for the pend) at the clock, then at the calling thread's
 * cancellation semaphore, and sleeps if nothing decided the round.
 *
 * A run is modelled by the sequence of observations its rounds make; the
 * wait returns the verdict of the first round that decides, or keeps
 * polling past the end of the sequence.
 */
module Polling {
  import opened OsalTypes
  import opened ProcessState
  import opened Threads
  import opened Sync

  /** What sceKernelReferSemaStatus tells about the cancellation semaphore. */
  datatype CancelRead = ReadFailed | CancelCount(count: int)

  /** One round of the cancellable pend: sceKernelWaitSema's result with a
      zero timeout, the clock's distance from the start (unsigned), and the
      cancellation read. */
  datatype PendRound = PendRound(semStatus: int, elapsed: U32, cancel: CancelRead)

  /** One round of the join: the target's run status and the cancellation read. */
  datatype JoinRound = JoinRound(runStatus: int, cancel: CancelRead)

  /** The cancellation check shared by both waits. The caller's control
      block is looked up once, before the first round; without one the
      check is skipped and the round never decides. */
  function CancelVerdict(hasThreadData: bool, cancel: CancelRead): (v: Option<OsResult>)
    ensures v == Some(Interrupted) <==> hasThreadData && cancel.CancelCount? && cancel.count > 0
    ensures v == Some(GeneralFailure) <==> hasThreadData && cancel.ReadFailed?
    ensures v.None? || v == Some(Interrupted) || v == Some(GeneralFailure)
  {
    if !hasThreadData then None
    else match cancel
      case ReadFailed => Some(GeneralFailure)
      case CancelCount(count) => if count > 0 then Some(Interrupted) else None
  }

  /** How one round of pte_osSemaphoreCancellablePend ends: the semaphore
      first, then the timeout (when one was given), then cancellation. */
  function PendVerdict(round: PendRound, hasThreadData: bool, timeoutUs: Option<U32>): (v: Option<OsResult>)
    ensures v == Some(Ok) <==> round.semStatus == SCE_KERNEL_ERROR_OK
    ensures v == Some(Timeout) <==>
              round.semStatus != SCE_KERNEL_ERROR_OK && timeoutUs.Some? && round.elapsed > timeoutUs.value
    ensures v == Some(Interrupted) <==>
              && round.semStatus != SCE_KERNEL_ERROR_OK
              && !(timeoutUs.Some? && round.elapsed > timeoutUs.value)
              && hasThreadData && round.cancel.CancelCount? && round.cancel.count > 0
    ensures v == Some(GeneralFailure) <==>
              && round.semStatus != SCE_KERNEL_ERROR_OK
              && !(timeoutUs.Some? && round.elapsed > timeoutUs.value)
              && hasThreadData && round.cancel.ReadFailed?
    ensures v != Some(NoResources)
  {
    if round.semStatus == SCE_KERNEL_ERROR_OK then Some(Ok)
    else if timeoutUs.Some? && round.elapsed > timeoutUs.value then Some(Timeout)
    else CancelVerdict(hasThreadData, round.cancel)
  }

  /** How one round of pte_osThreadWaitForEnd ends: the target having
      stopped first, then cancellation. */
  function JoinVerdict(round: JoinRound, hasThreadData: bool): (v: Option<OsResult>)
    ensures v == Some(Ok) <==> round.runStatus == PSP_THREAD_STOPPED
    ensures v == Some(Interrupted) <==>
              round.runStatus != PSP_THREAD_STOPPED && hasThreadData && round.cancel.CancelCount? && round.cancel.count > 0
    ensures v == Some(GeneralFailure) <==>
              round.runStatus != PSP_THREAD_STOPPED && hasThreadData && round.cancel.ReadFailed?
    ensures v != Some(Timeout) && v != Some(NoResources)
  {
    if round.runStatus == PSP_THREAD_STOPPED then Some(Ok)
    else CancelVerdict(hasThreadData, round.cancel)
  }

  /** Runs rounds until one decides. `used` is the number of rounds run;
      None means no round of the sequence decided and the wait goes on. */
  method FirstDecision<R>(rounds: seq<R>, verdict: R -> Option<OsResult>) returns (r: Option<OsResult>, used: nat)
    ensures used <= |rounds|
    ensures r.None? ==> used == |rounds|
    ensures r.Some? ==> 0 < used && verdict(rounds[used - 1]) == r
    ensures forall i | 0 <= i < |rounds| && (i < used - 1 || (r.None? && i < used)) :: verdict(rounds[i]).None?
  {
    r, used := None, 0;
    while used < |rounds|
      invariant used <= |rounds|
      invariant forall i | 0 <= i < used :: verdict(rounds[i]).None?
    {
      var v := verdict(rounds[used]);
      used := used + 1;
      if v.Some? {
        r := v;
        return;
      }
    }
  }

  /** pte_osSemaphoreCancellablePend over a sequence of rounds. */
  method CancellablePend(rounds: seq<PendRound>, hasThreadData: bool, timeoutMs: Option<U32>)
    returns (r: Option<OsResult>, used: nat)
    ensures used <= |rounds|
    ensures r.Some? ==> 0 < used && r == PendVerdict(rounds[used - 1], hasThreadData, PendTimeout(timeoutMs))
    ensures r.None? ==> used == |rounds|
    ensures forall i | 0 <= i < |rounds| && (i < used - 1 || (r.None? && i < used)) ::
              PendVerdict(rounds[i], hasThreadData, PendTimeout(timeoutMs)).None?
    // Without a timeout the pend never times out.
    ensures timeoutMs.None? ==> r != Some(Timeout)
    ensures r != Some(NoResources)
    // A pending cancellation decides the first round the semaphore and the
    // clock leave open.
    ensures |rounds| > 0 && hasThreadData && rounds[0].semStatus != SCE_KERNEL_ERROR_OK
            && !(timeoutMs.Some? && rounds[0].elapsed > MsToUs(timeoutMs.value))
            && rounds[0].cancel.CancelCount? && rounds[0].cancel.count > 0 ==>
              r == Some(Interrupted) && used == 1
  {
    // The clock is compared against `*pTimeout * 1000`, the same 32-bit
    // conversion pte_osSemaphorePend applies.
    var timeoutUs := PendTimeout(timeoutMs);
    r, used := FirstDecision(rounds, round => PendVerdict(round, hasThreadData, timeoutUs));
  }

  /** pte_osThreadWaitForEnd over a sequence of rounds. */
  method WaitForEnd(rounds: seq<JoinRound>, hasThreadData: bool) returns (r: Option<OsResult>, used: nat)
    ensures used <= |rounds|
    ensures r.Some? ==> 0 < used && r == JoinVerdict(rounds[used - 1], hasThreadData)
    ensures r.None? ==> used == |rounds|
    ensures forall i | 0 <= i < |rounds| && (i < used - 1 || (r.None? && i < used)) ::
              JoinVerdict(rounds[i], hasThreadData).None?
    // The join has no timeout.
    ensures r != Some(Timeout) && r != Some(NoResources)
    // A caller without a control block cannot be interrupted: only the
    // target's end decides.
    ensures !hasThreadData && r.Some? ==> r == Some(Ok)
  {
    r, used := FirstDecision(rounds, round => JoinVerdict(round, hasThreadData));
  }

  /** What a round's cancellation read finds in a given process state. */
  function ReadCancel(p: Process, cancelSem: int): (c: CancelRead)
    ensures c.ReadFailed? <==> SemaCount(p, cancelSem).None?
    ensures c.CancelCount? ==> c.count == SemaCount(p, cancelSem).value
  {
    match SemaCount(p, cancelSem)
    case None => ReadFailed
    case Some(count) => CancelCount(count)
  }

  /** The waits' cancellation check and pte_osThreadCheckCancel agree: a
      thread with a control block is interrupted in a round exactly when
      pte_osThreadCheckCancel would report INTERRUPTED in that state. */
  lemma WaitsAgreeWithCheckCancel(p: Process, h: int)
    requires h in p.threads && ThreadData(p, h).Some?
    ensures var v := CancelVerdict(true, ReadCancel(p, ThreadData(p, h).value.cancelSem));
            && (v == Some(Interrupted) <==> ThreadCheckCancel(p, h) == Interrupted)
            && (v == Some(GeneralFailure) <==> ThreadCheckCancel(p, h) == GeneralFailure)
            && (v.None? <==> ThreadCheckCancel(p, h) == Ok)
  {
  }
}
