/*
 * Names of the kernel objects the port creates, and the thread-name codec
 * that stands in for thread-local storage: a created thread is named
 * "pthread%04d__%x" after its sequence number and the address of its TLS
 * table, and `getTlsStructFromThread` recovers the table by scanning the
 * name back with the same pattern, falling back to the ambient table
 * `globalTls` when the scan does not yield both fields.
 */
module ThreadName {
  import opened OsalTypes
  import opened Digits
  import opened Printf
  import opened Scanf
  import opened NameCounters

  const THREAD_PREFIX: string := "pthread"
  const GLOBAL_CANCEL_SEM_NAME: string := "pthread_cancelSemGlobal"

  /** Size of the buffers thread and cancellation-semaphore names are
      printed into, and of those for mutex and semaphore names. */
  const THREAD_NAME_BUFFER: int := 64
  const SYNC_NAME_BUFFER: int := 32

  /** The name a created thread gets: "pthread%04d__%x". */
  function FormatThreadName(num: int, table: Addr): (name: string)
    ensures |name| >= 7 && name[..7] == THREAD_PREFIX
    ensures 0 <= num <= 9999 ==> |name| <= 21 < THREAD_NAME_BUFFER
  {
    "pthread" + FormatDecimal04(num) + "__" + FormatHex(table)
  }

  /** "pthread_cancelSem%04d". */
  function CancelSemName(num: int): (name: string)
    ensures 0 <= num <= 9999 ==> |name| == 21 < THREAD_NAME_BUFFER
  {
    "pthread_cancelSem" + FormatDecimal04(num)
  }

  /** The cancellation semaphore's name spells the thread number after a
      fixed prefix. */
  lemma CancelSemNameSpellsNumber(num: int)
    requires 0 <= num <= 9999
    ensures var name := CancelSemName(num);
            && |name| == 21 && name[..17] == "pthread_cancelSem"
            && AllDigits(name[17..], 10) && ValueOf(name[17..], 10) == num
  {
    assert CancelSemName(num)[17..] == FormatDecimal04(num);
  }

  /** "mutex%d". */
  function MutexName(c: int): (name: string)
    ensures |name| >= 6 && name[..5] == "mutex"
    ensures InCounterRange(c) ==>
              |name| <= 9 < SYNC_NAME_BUFFER && AllDigits(name[5..], 10) && ValueOf(name[5..], 10) == c
  {
    DecimalFitsFour(c);
    var name := "mutex" + FormatDecimal(c);
    assert name[5..] == FormatDecimal(c);
    name
  }

  /** "pthread_sem%d". */
  function SemaphoreName(c: int): (name: string)
    ensures |name| >= 12 && name[..11] == "pthread_sem"
    ensures InCounterRange(c) ==>
              |name| <= 15 < SYNC_NAME_BUFFER && AllDigits(name[11..], 10) && ValueOf(name[11..], 10) == c
  {
    DecimalFitsFour(c);
    var name := "pthread_sem" + FormatDecimal(c);
    assert name[11..] == FormatDecimal(c);
    name
  }

  /** Threads with different four-digit numbers get differently named
      cancellation semaphores. */
  lemma CancelSemNamesDistinct(a: int, b: int)
    requires 0 <= a <= 9999 && 0 <= b <= 9999 && a != b
    ensures CancelSemName(a) != CancelSemName(b)
  {
    CancelSemNameSpellsNumber(a);
    CancelSemNameSpellsNumber(b);
  }

  lemma DecimalFitsFour(c: int)
    ensures InCounterRange(c) ==> |FormatDecimal(c)| <= 4
  {
    if InCounterRange(c) {
      DigitsFit(c, 10, 4);
      assert Pow(10, 4) == 10000;
    }
  }

  /** What `sscanf(name, "pthread%04d__%x", &thrNum, &ptr)` assigns. */
  datatype NameScan = NoConversion | NumberOnly(num: int) | NumberAndAddress(num: int, addr: Addr)
  {
    /** The number of conversions assigned (sscanf's result, with EOF read as 0). */
    function Matches(): nat
    {
      match this
      case NoConversion => 0
      case NumberOnly(_) => 1
      case NumberAndAddress(_, _) => 2
    }
  }

  /** Scans a thread name with the pattern "pthread%04d__%x". */
  function ScanThreadName(name: string): (r: NameScan)
    ensures r.Matches() > 0 ==> |name| >= 7 && name[..7] == THREAD_PREFIX
  {
    if |name| < 7 || name[..7] != THREAD_PREFIX then NoConversion
    else
      match ScanDecimal(name[7..], 4)
      case None => NoConversion
      case Some(d) => ScanAfterNumber(d.value, d.rest)
  }

  /** The rest of the pattern once `%04d` has matched: "__" then `%x`. */
  function ScanAfterNumber(num: int, rest: string): (r: NameScan)
    ensures r.Matches() >= 1 && r.num == num
    ensures r.Matches() == 2 ==> |rest| > 2 && rest[..2] == "__"
  {
    if |rest| < 2 || rest[..2] != "__" then NumberOnly(num)
    else
      match ScanHex(rest[2..])
      case None => NumberOnly(num)
      case Some(x) => NumberAndAddress(num, x.value)
  }

  /** getTlsStructFromThread: the TLS table a thread with this name uses. */
  function TlsTableOf(name: string, globalTls: Addr): (t: Addr)
    ensures ScanThreadName(name).Matches() == 2 ==> t == ScanThreadName(name).addr
    ensures ScanThreadName(name).Matches() != 2 ==> t == globalTls
  {
    match ScanThreadName(name)
    case NumberAndAddress(_, addr) => addr
    case _ => globalTls
  }

  /** Scanning a thread name recovers both the sequence number and the
      table address it was built from, so the lookup finds that table. */
  lemma ThreadNameRoundTrip(num: int, table: Addr, globalTls: Addr)
    requires 0 <= num <= 9999
    ensures ScanThreadName(FormatThreadName(num, table)) == NumberAndAddress(num, table)
    ensures TlsTableOf(FormatThreadName(num, table), globalTls) == table
  {
    var d := FormatDecimal04(num);
    var h := FormatHex(table);
    var name := FormatThreadName(num, table);
    assert name == THREAD_PREFIX + (d + ("__" + h));
    assert name[..7] == THREAD_PREFIX && name[7..] == d + ("__" + h);
    ScanDecimalOfDigits(d, "__" + h, 4);
    assert ScanDecimal(name[7..], 4) == Some(Scanned(num, "__" + h));
    SeparatorThenAddress(num, h);
    assert ScanThreadName(name) == ScanAfterNumber(num, "__" + h);
  }

  lemma SeparatorThenAddress(num: int, h: string)
    requires 1 <= |h| && AllDigits(h, 16) && ValueOf(h, 16) <= U32_MAX
    ensures ScanAfterNumber(num, "__" + h) == NumberAndAddress(num, ValueOf(h, 16))
  {
    var rest := "__" + h;
    assert rest[..2] == "__" && rest[2..] == h;
    ScanHexOfDigits(h);
  }

  /** A counter value always prints as exactly four digits, and the name
      built from it round-trips. */
  lemma CounterNameRoundTrip(c: int, table: Addr, globalTls: Addr)
    requires InCounterRange(c)
    ensures |FormatDecimal04(c)| == 4 && AllDigits(FormatDecimal04(c), 10)
    ensures TlsTableOf(FormatThreadName(c, table), globalTls) == table
  {
    ThreadNameRoundTrip(c, table, globalTls);
  }

  /** A name that does not start with "pthread" (the ambient thread's, say)
      resolves to the ambient table. */
  lemma UnmanagedNameFallback(name: string, globalTls: Addr)
    requires !(|name| >= 7 && name[..7] == THREAD_PREFIX)
    ensures ScanThreadName(name) == NoConversion
    ensures TlsTableOf(name, globalTls) == globalTls
  {
  }

  /** Were a sequence number ever to need five digits, `%04d` would read
      only four of them, "__" would not match, and the thread would be
      taken for the ambient one: the counter bound is what keeps the
      lookup working. */
  lemma FiveDigitNumberFallsBack(num: int, table: Addr, globalTls: Addr)
    requires num > 9999
    ensures ScanThreadName(FormatThreadName(num, table)).Matches() == 1
    ensures TlsTableOf(FormatThreadName(num, table), globalTls) == globalTls
  {
    var d := FormatDecimal04(num);
    var h := FormatHex(table);
    var name := FormatThreadName(num, table);
    var rest := d[4..] + "__" + h;
    assert name[7..] == d[..4] + rest;
    DigitsPrefix(d, 4);
    ScanDecimalOfDigits(d[..4], rest, 4);
    var v := ValueOf(d[..4], 10);
    assert ScanDecimal(name[7..], 4) == Some(Scanned(v, rest));
    assert rest[0] == d[4] && IsDigit(d[4], 10);
    NoSeparatorAfterDigit(v, rest);
    assert ScanThreadName(name) == NumberOnly(v);
  }

  lemma DigitsPrefix(d: string, n: nat)
    requires n <= |d| && AllDigits(d, 10)
    ensures AllDigits(d[..n], 10)
  {
    assert forall i | 0 <= i < n :: d[..n][i] == d[i];
  }

  lemma NoSeparatorAfterDigit(num: int, rest: string)
    requires |rest| >= 1 && IsDigit(rest[0], 10)
    ensures ScanAfterNumber(num, rest) == NumberOnly(num)
  {
    if |rest| >= 2 {
      assert rest[..2][0] == rest[0];
    }
  }

  /** Threads created with different sequence numbers or tables get
      different names. */
  lemma ThreadNamesDistinct(a: int, p: Addr, b: int, q: Addr)
    requires 0 <= a <= 9999 && 0 <= b <= 9999
    requires a != b || p != q
    ensures FormatThreadName(a, p) != FormatThreadName(b, q)
  {
    ThreadNameRoundTrip(a, p, 0);
    ThreadNameRoundTrip(b, q, 0);
  }

  /** Within one cycle of the counter, mutex names are pairwise distinct;
      likewise semaphore names. */
  lemma SyncNamesDistinct(c: int, i: nat, j: nat)
    requires InCounterRange(c)
    requires i < j < COUNTER_PERIOD
    ensures MutexName(Advance(c, i)) != MutexName(Advance(c, j))
    ensures SemaphoreName(Advance(c, i)) != SemaphoreName(Advance(c, j))
  {
    CounterValuesDistinct(c, i, j);
    AdvanceIsCyclic(c, i);
    AdvanceIsCyclic(c, j);
    var a := Advance(c, i);
    var b := Advance(c, j);
    if MutexName(a) == MutexName(b) {
      PrefixCancels("mutex", FormatDecimal(a), FormatDecimal(b));
      assert false;
    }
    if SemaphoreName(a) == SemaphoreName(b) {
      PrefixCancels("pthread_sem", FormatDecimal(a), FormatDecimal(b));
      assert false;
    }
  }

  lemma PrefixCancels(p: string, x: string, y: string)
    requires p + x == p + y
    ensures x == y
  {
    assert x == (p + x)[|p|..];
    assert y == (p + y)[|p|..];
  }
}
