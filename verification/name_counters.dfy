/*
 * The three process-wide naming counters (`threadNum`, `mutexCtr`,
 * `semCtr`). Each creation runs `if (counter++ > MAX_PSP_UID) counter = 0;`
 * and then names the new kernel object after the counter's new value.
 */
module NameCounters {
  import opened OsalTypes

  /** Initial values of the three static counters. */
  const INITIAL_THREAD_NUM: int := 1
  const INITIAL_MUTEX_CTR: int := 0
  const INITIAL_SEM_CTR: int := 0

  /** Number of distinct values a counter takes once it has wrapped: 0..MAX_PSP_UID+1. */
  const COUNTER_PERIOD: int := MAX_PSP_UID + 2

  predicate InCounterRange(c: int) {
    0 <= c <= MAX_PSP_UID + 1
  }

  /** The counter's value after one post-increment-and-reset step, which is
      also the number the new object's name carries. */
  function NextCounter(c: int): (r: int)
    ensures InCounterRange(c) ==> InCounterRange(r) && r == (c + 1) % COUNTER_PERIOD
    ensures c > MAX_PSP_UID ==> r == 0
  {
    if c > MAX_PSP_UID then 0 else c + 1
  }

  /** The counter after n creations. */
  function Advance(c: int, n: nat): int
  {
    if n == 0 then c else NextCounter(Advance(c, n - 1))
  }

  /** From any in-range value, n creations move the counter n steps around
      a cycle of COUNTER_PERIOD values. */
  lemma {:induction false} AdvanceIsCyclic(c: int, n: nat)
    requires InCounterRange(c)
    ensures InCounterRange(Advance(c, n))
    ensures Advance(c, n) == (c + n) % COUNTER_PERIOD
  {
    if n > 0 {
      AdvanceIsCyclic(c, n - 1);
      var a := Advance(c, n - 1);
      assert (a + 1) % COUNTER_PERIOD == (c + n) % COUNTER_PERIOD by {
        ModSuccessor(c + n - 1);
      }
    }
  }

  lemma ModSuccessor(x: nat)
    ensures (x % COUNTER_PERIOD + 1) % COUNTER_PERIOD == (x + 1) % COUNTER_PERIOD
  {
  }

  /** Any COUNTER_PERIOD consecutive creations get pairwise different
      numbers: names collide only after the counter has wrapped. */
  lemma CounterValuesDistinct(c: int, i: nat, j: nat)
    requires InCounterRange(c)
    requires i < j < COUNTER_PERIOD
    ensures Advance(c, i) != Advance(c, j)
  {
    AdvanceIsCyclic(c, i);
    AdvanceIsCyclic(c, j);
  }

  /** After a full cycle the counter is back where it started. */
  lemma CounterPeriodic(c: int)
    requires InCounterRange(c)
    ensures Advance(c, COUNTER_PERIOD as nat) == c
  {
    AdvanceIsCyclic(c, COUNTER_PERIOD as nat);
  }

  /** The first thread is number 2, the first mutex and semaphore number 1;
      all three counters start inside the cycle. */
  lemma FirstNumbers()
    ensures InCounterRange(INITIAL_THREAD_NUM) && NextCounter(INITIAL_THREAD_NUM) == 2
    ensures InCounterRange(INITIAL_MUTEX_CTR) && NextCounter(INITIAL_MUTEX_CTR) == 1
    ensures InCounterRange(INITIAL_SEM_CTR) && NextCounter(INITIAL_SEM_CTR) == 1
  {
  }
}
