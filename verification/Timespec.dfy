/** struct timespec arithmetic: adding milliseconds in place, subtracting with a borrow, comparing. */
module Timespec {
  const BILLION := 1_000_000_000
  const TWO63 := 0x8000_0000_0000_0000
  const TWO64 := 0x1_0000_0000_0000_0000

  /** The C int of the two borrow counts and of their products with 1000000000. */
  newtype int32 = x: int | -0x8000_0000 <= x < 0x8000_0000

  datatype TimeVal = TimeVal(sec: int, nsec: int)
  {
    function Total(): int { sec * BILLION + nsec }

    predicate Normalised() { 0 <= nsec < BILLION }
  }

  /** Conversion of an unsigned 64-bit result back to a signed long. */
  function ToLong(u: int): int
    requires 0 <= u < TWO64
  {
    if u < TWO63 then u else u - TWO64
  }

  /** timespec_add_ms on values: the sum is formed in unsigned 64-bit arithmetic. */
  function AddMs(t: TimeVal, ms: nat): TimeVal
  {
    var nsec := ToLong((t.nsec + ms * 1_000_000) % TWO64);
    if nsec >= BILLION then TimeVal(t.sec + nsec / BILLION, nsec % BILLION) else TimeVal(t.sec, nsec)
  }

  /** y after the carry steps of timespec_subtract. */
  function Borrowed(x: TimeVal, y: TimeVal): TimeVal
  {
    var d := x.nsec - y.nsec;
    if d < 0 then
      var n := -d / BILLION + 1;
      TimeVal(y.sec + n, y.nsec - BILLION * n)
    else if d > BILLION then
      var n := d / BILLION;
      TimeVal(y.sec - n, y.nsec + BILLION * n)
    else
      y
  }

  function Difference(x: TimeVal, y: TimeVal): TimeVal
  {
    var y' := Borrowed(x, y);
    TimeVal(x.sec - y'.sec, x.nsec - y'.nsec)
  }

  class Timespec {
    var tv_sec: int
    var tv_nsec: int

    constructor (sec: int, nsec: int)
      ensures Value() == TimeVal(sec, nsec)
    {
      tv_sec, tv_nsec := sec, nsec;
    }

    function Value(): TimeVal
      reads this
    {
      TimeVal(tv_sec, tv_nsec)
    }

    method AddMilliseconds(ms: nat)
      requires ms < TWO64
      modifies this
      ensures Value() == AddMs(old(Value()), ms)
    {
      tv_nsec := ToLong((tv_nsec + ms * 1_000_000) % TWO64);
      if tv_nsec >= BILLION {
        tv_sec := tv_sec + tv_nsec / BILLION;
        tv_nsec := tv_nsec % BILLION;
      }
    }
  }

  /** The requires on the nanosecond gap is what the source needs for 1000000000 * nsec to stay inside an int. The result may
      be stored over an operand; the sign, read afterwards, is then that of other seconds. */
  method Subtract(result: Timespec, x: Timespec, y: Timespec) returns (negative: int)
    requires -2 * BILLION < x.tv_nsec - y.tv_nsec < 3 * BILLION
    modifies result, y
    ensures x != y && x != result ==> x.Value() == old(x.Value())
    ensures y != result ==> y.Value() == Borrowed(old(x.Value()), old(y.Value()))
    ensures var d, b := Difference(old(x.Value()), old(y.Value())), Borrowed(old(x.Value()), old(y.Value()));
            && result.Value() == d
            && (negative == 1 <==>
                  if result == x then result != y && d.sec < b.sec
                  else if result == y then old(x.tv_sec) < d.sec
                  else d.sec < 0)
            && (negative == 1 || negative == 0)
  {
    if x.tv_nsec < y.tv_nsec {
      var nsec := ((y.tv_nsec - x.tv_nsec) / BILLION + 1) as int32;
      y.tv_nsec := y.tv_nsec - (1_000_000_000 * nsec) as int;
      y.tv_sec := y.tv_sec + nsec as int;
      assert x.tv_nsec - y.tv_nsec <= BILLION;
    }
    if x.tv_nsec - y.tv_nsec > BILLION {
      var nsec := ((x.tv_nsec - y.tv_nsec) / BILLION) as int32;
      y.tv_nsec := y.tv_nsec + (1_000_000_000 * nsec) as int;
      y.tv_sec := y.tv_sec - nsec as int;
    }
    result.tv_sec := x.tv_sec - y.tv_sec;
    result.tv_nsec := x.tv_nsec - y.tv_nsec;
    negative := if x.tv_sec < y.tv_sec then 1 else 0;
  }

  function Compare(t1: TimeVal, t2: TimeVal): int
  {
    if t1.sec < t2.sec then -1
    else if t1.sec == t2.sec then
      if t1.nsec < t2.nsec then -1 else if t1.nsec == t2.nsec then 0 else 1
    else 1
  }

  /** Adding milliseconds is exact, and keeps a normalised value normalised, exactly while the nanosecond sum stays
      below 2^63. */
  lemma AddMsExact(t: TimeVal, ms: nat)
    requires t.Normalised()
    ensures AddMs(t, ms).Total() == t.Total() + ms * 1_000_000 <==> t.nsec + ms * 1_000_000 < TWO63
    ensures t.nsec + ms * 1_000_000 < TWO63 ==> AddMs(t, ms).Normalised()
  {
    var n := t.nsec + ms * 1_000_000;
    if n < TWO63 {
      assert n % TWO64 == n;
    } else {
      assert ToLong(n % TWO64) < n;
    }
  }

  /** For any operands the subtraction is exact and the rewrite of y keeps y's total. The nanoseconds come out
      normalised except that a gap of exactly one second, or a negative whole number of seconds, leaves 1000000000. */
  lemma SubtractExact(x: TimeVal, y: TimeVal)
    ensures Borrowed(x, y).Total() == y.Total()
    ensures Difference(x, y).Total() == x.Total() - y.Total()
    ensures 0 <= Difference(x, y).nsec <= BILLION
    ensures var d := x.nsec - y.nsec;
            !Difference(x, y).Normalised() <==> d == BILLION || (d < 0 && d % BILLION == 0)
  {
    var d := x.nsec - y.nsec;
    if d < 0 {
      var q, r := -d / BILLION, -d % BILLION;
      assert -d == BILLION * q + r;
      assert Difference(x, y).nsec == BILLION - r;
      assert r == 0 <==> d % BILLION == 0 by {
        if d % BILLION == 0 { assert -d == BILLION * -(d / BILLION); }
        if r == 0 { assert d == BILLION * -q; }
      }
    } else if d > BILLION {
      assert d == BILLION * (d / BILLION) + d % BILLION;
    }
  }

  /** subtract(add_ms(x, ms), x) is ms, normalised and not negative. */
  lemma AddThenSubtract(t: TimeVal, ms: nat)
    requires t.Normalised() && t.nsec + ms * 1_000_000 < TWO63
    ensures Difference(AddMs(t, ms), t).Total() == ms * 1_000_000
    ensures Difference(AddMs(t, ms), t).Normalised() && Difference(AddMs(t, ms), t).sec >= 0
  {
    AddMsExact(t, ms);
    SubtractExact(AddMs(t, ms), t);
  }

  /** On normalised values the comparison orders totals, and answers -1 exactly when the subtraction reports a negative
      result. */
  lemma CompareAgrees(x: TimeVal, y: TimeVal)
    requires x.Normalised() && y.Normalised()
    ensures Compare(x, y) < 0 <==> x.Total() < y.Total()
    ensures Compare(x, y) == 0 <==> x.Total() == y.Total()
    ensures Compare(x, y) == -1 <==> Difference(x, y).sec < 0
    ensures Compare(y, x) == -Compare(x, y)
  {
    SubtractExact(x, y);
  }

  /** For any operands: the reported sign is that of the difference, except that an unnormalised zero is reported as
      negative; one second minus 1000000000 nanoseconds is such a zero. */
  lemma SignReported(x: TimeVal, y: TimeVal)
    ensures Difference(x, y).sec < 0 <==>
            x.Total() < y.Total() || (x.Total() == y.Total() && !Difference(x, y).Normalised())
    ensures Difference(TimeVal(1, 0), TimeVal(0, BILLION)) == TimeVal(-1, BILLION)
  {
    SubtractExact(x, y);
  }
}
