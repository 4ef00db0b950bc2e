/** The timeout helpers of `publib.c`, with the unsigned arithmetic they are written in. */
module Clock {

  const USEC: nat := 1_000_000
  const ULONG: nat := 0x1_0000_0000_0000_0000

  /** `struct timeval`, normalised. */
  datatype TimeVal = TimeVal(sec: nat, usec: nat)
  {
    predicate Valid() {
      usec < USEC
    }

    /** Microseconds since the epoch. */
    function Micros(): nat {
      sec * USEC + usec
    }
  }

  type Time = t: TimeVal | t.Valid() witness TimeVal(0, 0)

  /** Whole milliseconds since the epoch. */
  function Millis(t: Time): nat {
    t.Micros() / 1000
  }

  function Unsigned(x: int): nat {
    x % ULONG
  }

  /** `ms_run` as `BeTimeOutM` and `BeTimeOutMN` compute it, in `unsigned long`. */
  function MsRun(cur: Time, start: Time): nat {
    var ms1 := Unsigned(start.usec / 1000);
    var ms2 := Unsigned((cur.sec - start.sec) * 1000 + cur.usec / 1000);
    Unsigned(ms2 - ms1)
  }

  /** `BeTimeOutMN` at clock reading `cur`: 0 for "timed out", 1 for "not yet", -1 for a bad argument. */
  function BeTimeOutMN(cur: Time, start: Time, ms: int): int {
    if ms < 1 then -1 else if MsRun(cur, start) >= ms then 0 else 1
  }

  /** `BeTimeOutM` also restarts the caller's stamp when it reports a timeout. */
  method BeTimeOutM(cur: Time, start: Time, ms: int) returns (ret: int, stamp: Time)
    ensures ret == BeTimeOutMN(cur, start, ms)
    ensures stamp == if ret == 0 then cur else start
  {
    stamp := start;
    if ms < 1 {
      return -1, stamp;
    }
    var ms1: int := Unsigned(start.usec / 1000);
    var ms2: int := Unsigned((cur.sec - start.sec) * 1000 + cur.usec / 1000);
    var run := Unsigned(ms2 - ms1);
    if run >= ms {
      stamp := cur;
      return 0, stamp;
    }
    return 1, stamp;
  }

  lemma MillisSplit(t: Time)
    ensures Millis(t) == t.sec * 1000 + t.usec / 1000
  {
  }

  lemma WholeTurns(x: int, k: int)
    ensures Unsigned(x + ULONG * k) == Unsigned(x)
  {
  }

  lemma UnsignedDifference(a: int, b: int)
    ensures Unsigned(Unsigned(a) - Unsigned(b)) == Unsigned(a - b)
  {
    WholeTurns(Unsigned(a) - Unsigned(b), a / ULONG - b / ULONG);
  }

  /** `ms_run` is the difference of the two whole-millisecond readings, modulo the word size. */
  lemma {:induction false} MsRunIsDifference(cur: Time, start: Time)
    ensures MsRun(cur, start) == Unsigned(Millis(cur) - Millis(start))
  {
    MillisSplit(cur);
    MillisSplit(start);
    UnsignedDifference((cur.sec - start.sec) * 1000 + cur.usec / 1000, start.usec / 1000);
  }

  lemma UnsignedNearZero(d: int)
    requires d < ULONG && 0 < d + ULONG
    ensures d >= 0 ==> Unsigned(d) == d
    ensures d < 0 ==> Unsigned(d) == d + ULONG
  {
  }

  /** Readings below about 2^63 ms, so that a backward difference is a huge unsigned number. */
  predicate InRange(t: Time) {
    Millis(t) < ULONG / 2
  }

  /**
   * The exact law: a timeout is reported when `ms` whole milliseconds have passed, and also whenever the clock
   * stepped back; a number of milliseconds below 1 is an error; anything else is "not yet".
   */
  lemma {:induction false} TimedOutIff(cur: Time, start: Time, ms: int)
    requires ms < ULONG / 2 && InRange(cur) && InRange(start)
    ensures var ret := BeTimeOutMN(cur, start, ms);
      && -1 <= ret <= 1 && (ret == -1 <==> ms < 1)
      && (ret == 0 <==> ms >= 1 && (Millis(cur) - Millis(start) >= ms || Millis(cur) < Millis(start)))
  {
    MsRunIsDifference(cur, start);
    UnsignedNearZero(Millis(cur) - Millis(start));
  }

  /** With a clock that does not run backwards, a reported timeout means more than `ms - 1` real milliseconds. */
  lemma {:induction false} TimeoutMeansElapsed(cur: Time, start: Time, ms: int)
    requires 1 <= ms < ULONG / 2 && InRange(cur) && InRange(start)
    requires start.Micros() <= cur.Micros() && BeTimeOutMN(cur, start, ms) == 0
    ensures cur.Micros() - start.Micros() > (ms - 1) * 1000
  {
    TimedOutIff(cur, start, ms);
  }

  /** And once `ms` real milliseconds have passed it is reported. */
  lemma {:induction false} ElapsedMeansTimeout(cur: Time, start: Time, ms: int)
    requires 1 <= ms < ULONG / 2 && InRange(cur) && InRange(start)
    requires cur.Micros() - start.Micros() >= ms * 1000
    ensures BeTimeOutMN(cur, start, ms) == 0
  {
    TimedOutIff(cur, start, ms);
  }

  /** `calcTimeOff`: the elapsed time with a borrow, cut to 32 bits. */
  function CalcTimeOff(end: Time, begin: Time): nat {
    var borrow := end.usec < begin.usec;
    var sec := end.sec - begin.sec - (if borrow then 1 else 0);
    var usec := end.usec - begin.usec + (if borrow then USEC else 0);
    (sec * 1000 + usec / 1000) % 0x1_0000_0000
  }

  /** Whatever the two readings, it is their difference in whole milliseconds, rounded down, cut to 32 bits. */
  lemma CalcTimeOffIsFloor(end: Time, begin: Time)
    ensures CalcTimeOff(end, begin) == (end.Micros() - begin.Micros()) / 1000 % 0x1_0000_0000
  {
    var borrow := end.usec < begin.usec;
    var sec := end.sec - begin.sec - (if borrow then 1 else 0);
    var usec := end.usec - begin.usec + (if borrow then USEC else 0);
    assert end.Micros() - begin.Micros() == sec * USEC + usec && 0 <= usec < USEC;
    FloorSplit(sec, usec);
  }

  lemma FloorSplit(sec: int, usec: nat)
    ensures (sec * USEC + usec) / 1000 == sec * 1000 + usec / 1000
  {
  }

  lemma MsRunIsElapsed(cur: Time, start: Time)
    requires start.Micros() <= cur.Micros() && InRange(start) && InRange(cur)
    ensures MsRun(cur, start) == cur.Micros() / 1000 - start.Micros() / 1000
  {
    MsRunIsDifference(cur, start);
    UnsignedNearZero(Millis(cur) - Millis(start));
  }

  lemma FloorsOfDifference(a: int, b: int)
    ensures (a - b) / 1000 <= a / 1000 - b / 1000 <= (a - b) / 1000 + 1
  {
  }

  /** It is the true elapsed time in whole milliseconds, and `ms_run` exceeds it by at most one. */
  lemma {:induction false} CalcTimeOffIsElapsed(end: Time, begin: Time)
    requires begin.Micros() <= end.Micros() && InRange(begin) && InRange(end)
    requires end.Micros() - begin.Micros() < 1000 * 0x1_0000_0000
    ensures CalcTimeOff(end, begin) == (end.Micros() - begin.Micros()) / 1000
    ensures CalcTimeOff(end, begin) <= MsRun(end, begin) <= CalcTimeOff(end, begin) + 1
  {
    CalcTimeOffIsFloor(end, begin);
    assert 0 <= (end.Micros() - begin.Micros()) / 1000 < 0x1_0000_0000;
    MsRunIsElapsed(end, begin);
    FloorsOfDifference(end.Micros(), begin.Micros());
  }
}
