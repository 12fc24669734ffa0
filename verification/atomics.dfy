/*
 * The atomic operations of the PSP port on a 32-bit `int`. Each runs with
 * interrupts disabled, so on the single-core PSP it is one indivisible
 * step; the model is that step as a function from the target's value to
 * its new value and the value returned. Signed overflow is undefined in
 * C, so operations that add require the result to stay within `int`.
 */
module Atomics {
  import opened OsalTypes

  /** The target's value after the operation and the value returned. */
  datatype Atomic = Atomic(stored: int, returned: int)

  /** pte_osAtomicExchange: stores `value`, returns the previous value. */
  function Exchange(target: int, value: int): (r: Atomic)
    ensures r.returned == target && r.stored == value
  {
    Atomic(value, target)
  }

  /** pte_osAtomicCompareExchange: stores `exchange` only when the target
      equals `comp`; returns the previous value either way. */
  function CompareExchange(target: int, exchange: int, comp: int): (r: Atomic)
    ensures r.returned == target
    ensures r.returned == comp ==> r.stored == exchange
    ensures r.returned != comp ==> r.stored == target
  {
    if target == comp then Atomic(exchange, target) else Atomic(target, target)
  }

  /** pte_osAtomicExchangeAdd: adds `value`, returns the previous value. */
  function ExchangeAdd(target: int, value: int): (r: Atomic)
    requires IsInt32(target + value)
    ensures r.returned == target && r.stored - r.returned == value
    ensures IsInt32(r.stored)
  {
    Atomic(target + value, target)
  }

  /** pte_osAtomicIncrement: returns the new value. */
  function Increment(target: int): (r: Atomic)
    requires target < INT32_MAX
    ensures r.stored == r.returned == target + 1
  {
    Atomic(target + 1, target + 1)
  }

  /** pte_osAtomicDecrement: returns the new value. */
  function Decrement(target: int): (r: Atomic)
    requires target > INT32_MIN
    ensures r.stored == r.returned == target - 1
  {
    Atomic(target - 1, target - 1)
  }

  /** A compare-exchange succeeds (stores its operand) exactly when it
      returns the value the caller expected, so the returned value alone
      tells the caller whether the swap happened. */
  lemma CompareExchangeReportsSuccess(target: int, exchange: int, comp: int)
    requires exchange != target
    ensures CompareExchange(target, exchange, comp).stored == exchange <==>
              CompareExchange(target, exchange, comp).returned == comp
  {
  }

  /** Increment and decrement undo each other; exchange-add's returned
      value is one behind increment's. */
  lemma IncrementDecrementInverse(target: int)
    requires INT32_MIN < target < INT32_MAX
    ensures Decrement(Increment(target).stored).stored == target
    ensures Increment(Decrement(target).stored).stored == target
    ensures ExchangeAdd(target, 1).stored == Increment(target).stored
    ensures ExchangeAdd(target, 1).returned == Increment(target).returned - 1
  {
  }

  /** No step of a run of increments (true) and decrements (false) from
      `target` overflows: each increment starts below INT32_MAX and each
      decrement above INT32_MIN. */
  predicate StaysInInt32(target: int, steps: seq<bool>)
    decreases |steps|
  {
    && IsInt32(target)
    && (|steps| > 0 ==>
          && (if steps[0] then target < INT32_MAX else target > INT32_MIN)
          && StaysInInt32(if steps[0] then target + 1 else target - 1, steps[1..]))
  }

  /** A run of increments and decrements on one target, as several threads
      would issue them, defined exactly when no step overflows. */
  function Run(target: int, steps: seq<bool>): (r: int)
    requires StaysInInt32(target, steps)
    ensures IsInt32(r)
    ensures target - |steps| <= r <= target + |steps|
    decreases |steps|
  {
    if |steps| == 0 then target
    else
      var next := if steps[0] then Increment(target).stored else Decrement(target).stored;
      Run(next, steps[1..])
  }

  /** A start at least |steps| away from both ends of `int` leaves room
      for every order of the steps. */
  lemma {:induction false} RoomForEveryOrder(target: int, steps: seq<bool>)
    requires INT32_MIN + |steps| <= target <= INT32_MAX - |steps|
    ensures StaysInInt32(target, steps)
    decreases |steps|
  {
    if |steps| > 0 {
      RoomForEveryOrder(if steps[0] then target + 1 else target - 1, steps[1..]);
    }
  }

  /** Whatever the interleaving, K increments and L decrements move the
      target by exactly K - L. */
  lemma {:induction false} RunCountsSteps(target: int, steps: seq<bool>)
    requires StaysInInt32(target, steps)
    ensures Run(target, steps) == target + multiset(steps)[true] - multiset(steps)[false]
    decreases |steps|
  {
    if |steps| > 0 {
      var next := if steps[0] then target + 1 else target - 1;
      RunCountsSteps(next, steps[1..]);
      assert steps == [steps[0]] + steps[1..];
      assert multiset(steps) == multiset([steps[0]]) + multiset(steps[1..]);
    }
  }

  /** Hence the order of the increments and decrements does not matter, as
      long as neither order overflows. */
  lemma RunOrderIrrelevant(target: int, a: seq<bool>, b: seq<bool>)
    requires multiset(a) == multiset(b)
    requires StaysInInt32(target, a) && StaysInInt32(target, b)
    ensures |a| == |b|
    ensures Run(target, a) == Run(target, b)
  {
    assert |a| == |multiset(a)| == |multiset(b)| == |b|;
    RunCountsSteps(target, a);
    RunCountsSteps(target, b);
  }
}
