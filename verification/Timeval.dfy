/** The `struct timeval` arithmetic of the session table: the expiry test of the sweep and
    the elapsed-milliseconds formula of the lookup, with C's division that truncates toward zero. */
module Timeval {

  const EXPIRY_SECS := 30
  const EXPIRY_MSECS := 30000

  datatype TimeVal = TimeVal(sec: int, usec: int)

  /** What gettimeofday delivers. */
  predicate Normal(t: TimeVal) {
    0 <= t.usec < 1000000
  }

  function Micros(t: TimeVal): int {
    t.sec * 1000000 + t.usec
  }

  /** The comparison the sweep writes out field by field. */
  predicate Before(a: TimeVal, b: TimeVal) {
    a.sec < b.sec || (a.sec == b.sec && a.usec < b.usec)
  }

  predicate NotAfter(a: TimeVal, b: TimeVal) {
    !Before(b, a)
  }

  /** C division: truncates toward zero. */
  function TruncDiv(a: int, b: int): int
    requires 0 < b
  {
    if 0 <= a then a / b else -((-a) / b)
  }

  function ElapsedMsecs(now: TimeVal, from: TimeVal): int {
    (now.sec - from.sec) * 1000 + TruncDiv(now.usec - from.usec, 1000)
  }

  function ExpiryOf(accessed: TimeVal): TimeVal {
    TimeVal(accessed.sec + EXPIRY_SECS, accessed.usec)
  }

  lemma BeforeComparesMicros(a: TimeVal, b: TimeVal)
    requires Normal(a) && Normal(b)
    ensures Before(a, b) <==> Micros(a) < Micros(b)
  {
  }

  /** The rounding error of the formula is below one millisecond in either direction. */
  lemma ElapsedWithinOneMsec(now: TimeVal, from: TimeVal)
    ensures -1000 < 1000 * ElapsedMsecs(now, from) - (Micros(now) - Micros(from)) < 1000
  {
    TruncDivRounding(now.usec - from.usec);
  }

  /** The seconds count in full and the microseconds toward zero: with a reading past the access time
      within its second the result rounds down, with one short of it up. This fixes the result. */
  lemma ElapsedRounding(now: TimeVal, from: TimeVal)
    ensures
      var d := Micros(now) - Micros(from);
      && (from.usec <= now.usec ==> 0 <= d - 1000 * ElapsedMsecs(now, from) < 1000)
      && (now.usec <= from.usec ==> 0 <= 1000 * ElapsedMsecs(now, from) - d < 1000)
  {
    TruncDivRounding(now.usec - from.usec);
  }

  lemma ElapsedIsDetermined(now: TimeVal, from: TimeVal, e: int)
    requires
      var d := Micros(now) - Micros(from);
      if from.usec <= now.usec then 0 <= d - 1000 * e < 1000 else 0 <= 1000 * e - d < 1000
    ensures e == ElapsedMsecs(now, from)
  {
    ElapsedRounding(now, from);
  }

  lemma TruncDivRounding(u: int)
    ensures -1000 < 1000 * TruncDiv(u, 1000) - u < 1000
    ensures 0 <= u ==> 1000 * TruncDiv(u, 1000) <= u
    ensures u <= 0 ==> u <= 1000 * TruncDiv(u, 1000)
  {
  }

  /** A later clock never reports less, across second boundaries too. */
  lemma ElapsedMonotone(now: TimeVal, later: TimeVal, from: TimeVal)
    requires Normal(now) && Normal(later) && Normal(from)
    requires NotAfter(now, later)
    ensures ElapsedMsecs(now, from) <= ElapsedMsecs(later, from)
  {
    TruncDivRounding(now.usec - from.usec);
    TruncDivRounding(later.usec - from.usec);
  }

  lemma ElapsedNonNegative(now: TimeVal, from: TimeVal)
    requires Normal(now) && Normal(from)
    requires NotAfter(from, now)
    ensures 0 <= ElapsedMsecs(now, from)
  {
    ElapsedMonotone(from, now, from);
  }

  /** An entry the sweep finds expired has been idle for at least the expiry period, in the
      units the lookup reports, and so has it at every later reading. */
  lemma ExpiredMeansElapsed(accessed: TimeVal, swept: TimeVal, now: TimeVal)
    requires Normal(accessed) && Normal(swept) && Normal(now)
    requires Before(ExpiryOf(accessed), swept) && NotAfter(swept, now)
    ensures EXPIRY_MSECS <= ElapsedMsecs(now, accessed)
  {
    TruncDivRounding(swept.usec - accessed.usec);
    ElapsedMonotone(swept, now, accessed);
  }

  /** An entry the sweep leaves alone has at most the expiry period behind it at that moment. */
  lemma NotExpiredBoundsElapsed(accessed: TimeVal, swept: TimeVal, now: TimeVal)
    requires Normal(accessed) && Normal(swept) && Normal(now)
    requires !Before(ExpiryOf(accessed), swept)
    ensures 1000 * ElapsedMsecs(now, accessed)
              < 1000 * EXPIRY_MSECS + (Micros(now) - Micros(swept)) + 1000
  {
    ElapsedWithinOneMsec(now, accessed);
  }
}
