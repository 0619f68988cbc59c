/** Arithmetic on timevals (lib/posix/init.lua: timeradd, timersub and timercmp). */
module Timevals {
  import opened Options

  const MILLION: int := 1000000

  /** A table with any of the new and the legacy field names. */
  datatype Timeval = Timeval(tv_sec: Option<int>, tv_usec: Option<int>, sec: Option<int>, usec: Option<int>)

  /** What timeradd and timersub return. */
  datatype Time = Time(sec: int, usec: int)

  function Or(x: Option<int>, y: int): int { if x.Some? then x.value else y }

  /** timeradd and timersub: one kind of names for both fields. */
  function Fields(x: Timeval): Time {
    if x.tv_sec.Some? || x.tv_usec.Some? then Time(Or(x.tv_sec, 0), Or(x.tv_usec, 0))
        else Time(Or(x.sec, 0), Or(x.usec, 0))
  }

  /** timercmp: each field for itself. */
  function CmpFields(x: Timeval): Time {
    Time(Or(x.tv_sec, Or(x.sec, 0)), Or(x.tv_usec, Or(x.usec, 0)))
  }

  /** The two readings of a table differ exactly when it mixes names. */
  predicate Mixed(x: Timeval) {
    || (x.tv_sec.Some? && x.tv_usec.None? && Or(x.usec, 0) != 0)
    || (x.tv_usec.Some? && x.tv_sec.None? && Or(x.sec, 0) != 0)
  }

  lemma ReadingsAgreeIff(x: Timeval)
    ensures Fields(x) == CmpFields(x) <==> !Mixed(x)
    ensures x.tv_sec.Some? && x.tv_usec.Some? ==> CmpFields(x) == Time(x.tv_sec.value, x.tv_usec.value)
    ensures x.tv_sec == x.tv_usec == None && x.sec.Some? && x.usec.Some? ==>
              CmpFields(x) == Time(x.sec.value, x.usec.value)
    ensures x.tv_sec == x.tv_usec == x.sec == x.usec == None ==> CmpFields(x) == Time(0, 0)
  {
  }

  function Total(t: Time): int { t.sec * MILLION + t.usec }

  predicate Normal(t: Time) { 0 <= t.usec < MILLION }

  function Legacy(t: Time): Timeval { Timeval(None, None, Some(t.sec), Some(t.usec)) }

  /** The carry of timeradd: it happens only above a million. */
  method TimerAdd(x: Timeval, y: Timeval) returns (t: Time)
    ensures t.sec * 1000000 + t.usec
         == (Fields(x).sec + Fields(y).sec) * 1000000 + (Fields(x).usec + Fields(y).usec)
    ensures var usec := Fields(x).usec + Fields(y).usec;
            if usec <= 1000000 then t.usec == usec else 0 < t.usec <= 1000000
  {
    var sec := Fields(x).sec + Fields(y).sec;
    var usec := Fields(x).usec + Fields(y).usec;
    while usec > MILLION
      invariant sec * MILLION + usec == Total(Fields(x)) + Total(Fields(y))
      invariant usec == Fields(x).usec + Fields(y).usec || (0 < usec && Fields(x).usec + Fields(y).usec > MILLION)
    {
      sec := sec + 1;
      usec := usec - MILLION;
    }
    t := Time(sec, usec);
  }

  method TimerSub(x: Timeval, y: Timeval) returns (t: Time)
    ensures t.sec * 1000000 + t.usec
         == (Fields(x).sec - Fields(y).sec) * 1000000 + (Fields(x).usec - Fields(y).usec)
    ensures var usec := Fields(x).usec - Fields(y).usec;
            if usec >= 0 then t.usec == usec else 0 <= t.usec < 1000000
  {
    var sec := Fields(x).sec - Fields(y).sec;
    var usec := Fields(x).usec - Fields(y).usec;
    while usec < 0
      invariant sec * MILLION + usec == Total(Fields(x)) - Total(Fields(y))
      invariant usec == Fields(x).usec - Fields(y).usec || (usec < MILLION && Fields(x).usec - Fields(y).usec < 0)
      decreases -usec
    {
      sec := sec - 1;
      usec := usec + MILLION;
    }
    t := Time(sec, usec);
  }

  function TimerCmp(x: Timeval, y: Timeval): int {
    var a, b := CmpFields(x), CmpFields(y);
    if a.sec != b.sec then a.sec - b.sec else a.usec - b.usec
  }

  /** A total and the range of usec determine both fields. */
  lemma TotalDetermines(a: Time, b: Time)
    requires Total(a) == Total(b) && 0 <= a.usec < MILLION && 0 <= b.usec < MILLION
    ensures a == b
  {
  }

  /** On normal values: the sum is normal unless the microseconds add up to exactly a million, and
      subtraction undoes it. */
  method AddThenSub(x: Time, y: Time) returns (sum: Time, back: Time)
    requires Normal(x) && Normal(y)
    ensures Normal(sum) <==> x.usec + y.usec != MILLION
    ensures x.usec + y.usec == MILLION ==> sum == Time(x.sec + y.sec, MILLION)
    ensures back == x
  {
    sum := TimerAdd(Legacy(x), Legacy(y));
    assert x.usec + y.usec == MILLION ==> sum.usec == MILLION;
    back := TimerSub(Legacy(sum), Legacy(y));
    TotalDetermines(back, x);
  }

  method SubThenAdd(x: Time, y: Time) returns (difference: Time, back: Time)
    requires Normal(x) && Normal(y)
    ensures Normal(difference) && Total(difference) == Total(x) - Total(y)
    ensures Total(back) == Total(x) && (back == x <==> x.usec > 0 || y.usec == 0)
  {
    difference := TimerSub(Legacy(x), Legacy(y));
    back := TimerAdd(Legacy(difference), Legacy(y));
  }

  /** timercmp orders normal values by their totals. */
  lemma CmpIsOrder(x: Timeval, y: Timeval)
    requires Normal(CmpFields(x)) && Normal(CmpFields(y))
    ensures TimerCmp(x, y) > 0 <==> Total(CmpFields(x)) > Total(CmpFields(y))
    ensures TimerCmp(x, y) == 0 <==> Total(CmpFields(x)) == Total(CmpFields(y))
  {
  }

  predicate SameSign(a: int, b: int) { (a > 0 <==> b > 0) && (a < 0 <==> b < 0) }

  /** A sum of timeradd need not be normal. Still timercmp orders it rightly against every normal value
      but one: a sum with a million microseconds comes out below the same time written normally. */
  method CompareSum(x: Time, y: Time, z: Time) returns (order: int)
    requires Normal(x) && Normal(y) && Normal(z)
    ensures SameSign(order, Total(x) + Total(y) - Total(z))
            <==> !(x.usec + y.usec == MILLION && z == Time(x.sec + y.sec + 1, 0))
    ensures x.usec + y.usec == MILLION && z == Time(x.sec + y.sec + 1, 0)
        ==> order < 0 && Total(x) + Total(y) == Total(z)
  {
    var sum := TimerAdd(Legacy(x), Legacy(y));
    assert x.usec + y.usec == MILLION ==> sum.usec == MILLION;
    order := TimerCmp(Legacy(sum), Legacy(z));
  }
}
