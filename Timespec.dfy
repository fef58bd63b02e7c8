/**
 * Arithmetic and comparison on POSIX `timespec` values (whole seconds plus
 * nanoseconds).  The same operators are defined twice in the library, once
 * public and once internal; they behave identically and are modelled once.
 * Swift's `/` and `%` on `Int` truncate toward zero.
 */
module Timespecs {
  import opened Bits

  const NanosPerSecond: int := 1_000_000_000

  datatype Timespec = Timespec(sec: int, nsec: int)

  /** A normalised value keeps its nanoseconds within one second. */
  predicate Normalised(t: Timespec)
  {
    0 <= t.nsec < NanosPerSecond
  }

  /** The instant a value denotes, in nanoseconds. */
  function TotalNanos(t: Timespec): (n: int)
    ensures Normalised(t) ==> n / NanosPerSecond == t.sec && n % NanosPerSecond == t.nsec
  {
    t.sec * NanosPerSecond + t.nsec
  }

  /** `+`: add the nanoseconds, carry whole seconds of them into the seconds. */
  function Add(lhs: Timespec, rhs: Timespec): (r: Timespec)
    ensures TotalNanos(r) == TotalNanos(lhs) + TotalNanos(rhs)
    ensures Normalised(lhs) && Normalised(rhs) ==> Normalised(r)
  {
    var nsRaw := rhs.nsec + lhs.nsec;
    TruncDivRem(nsRaw, NanosPerSecond);
    var ns := TruncRem(nsRaw, NanosPerSecond);
    var s := lhs.sec + rhs.sec + TruncDiv(nsRaw, NanosPerSecond);
    MulDistribute(lhs.sec + rhs.sec, TruncDiv(nsRaw, NanosPerSecond), NanosPerSecond);
    MulDistribute(lhs.sec, rhs.sec, NanosPerSecond);
    Timespec(s, ns)
  }

  /** `-`: subtract the nanoseconds, borrowing a second when they go negative. */
  function Sub(lhs: Timespec, rhs: Timespec): (r: Timespec)
    ensures TotalNanos(r) == TotalNanos(lhs) - TotalNanos(rhs)
    ensures Normalised(lhs) && Normalised(rhs) ==> Normalised(r)
  {
    var nsRaw := lhs.nsec - rhs.nsec;
    MulDistribute(lhs.sec, -rhs.sec, NanosPerSecond);
    if nsRaw >= 0 then
      TruncDivRem(nsRaw, NanosPerSecond);
      var ns := TruncRem(nsRaw, NanosPerSecond);
      var s := lhs.sec - rhs.sec + TruncDiv(nsRaw, NanosPerSecond);
      MulDistribute(lhs.sec - rhs.sec, TruncDiv(nsRaw, NanosPerSecond), NanosPerSecond);
      Timespec(s, ns)
    else
      TruncDivRem(-nsRaw, NanosPerSecond);
      var ns := NanosPerSecond - TruncRem(-nsRaw, NanosPerSecond);
      var s := lhs.sec - rhs.sec - 1 - TruncDiv(-nsRaw, NanosPerSecond);
      MulDistribute(lhs.sec - rhs.sec - 1, -TruncDiv(-nsRaw, NanosPerSecond), NanosPerSecond);
      MulDistribute(lhs.sec - rhs.sec, -1, NanosPerSecond);
      ModOfSmall(-nsRaw, NanosPerSecond);
      Timespec(s, ns)
  }

  /** Subtracting and then adding back the same amount returns to the start. */
  lemma SubThenAdd(a: Timespec, b: Timespec)
    requires Normalised(a) && Normalised(b)
    ensures Add(Sub(a, b), b) == a
  {
    var r := Add(Sub(a, b), b);
    assert TotalNanos(r) == TotalNanos(a);
    SameInstant(r, a);
  }

  /** Two normalised values denoting the same instant are equal. */
  lemma SameInstant(x: Timespec, y: Timespec)
    requires Normalised(x) && Normalised(y) && TotalNanos(x) == TotalNanos(y)
    ensures x == y
  {
    DivModUnique(TotalNanos(x), NanosPerSecond, x.sec, x.nsec);
    DivModUnique(TotalNanos(y), NanosPerSecond, y.sec, y.nsec);
  }

  /** `==`: both fields equal. */
  predicate Equal(lhs: Timespec, rhs: Timespec)
  {
    lhs.sec == rhs.sec && lhs.nsec == rhs.nsec
  }

  /** `<`: lexicographic on (seconds, nanoseconds). */
  predicate Less(lhs: Timespec, rhs: Timespec)
  {
    if lhs.sec < rhs.sec then true
    else if lhs.sec > rhs.sec then false
    else lhs.nsec < rhs.nsec
  }

  /** `>`: defined as the negation of `<`, so it also holds for equal values. */
  predicate Greater(lhs: Timespec, rhs: Timespec)
  {
    !Less(lhs, rhs)
  }

  /** On normalised values the lexicographic order is the order of the instants. */
  lemma LessIsEarlier(a: Timespec, b: Timespec)
    requires Normalised(a) && Normalised(b)
    ensures Less(a, b) <==> TotalNanos(a) < TotalNanos(b)
    ensures Equal(a, b) <==> TotalNanos(a) == TotalNanos(b)
  {
    if a.sec < b.sec {
      MulMonotonic(a.sec + 1, b.sec, NanosPerSecond);
      MulDistribute(a.sec, 1, NanosPerSecond);
    } else if a.sec > b.sec {
      MulMonotonic(b.sec + 1, a.sec, NanosPerSecond);
      MulDistribute(b.sec, 1, NanosPerSecond);
    }
  }

  /** `>` is "not earlier": it holds for every value compared with itself. */
  lemma GreaterIsNotEarlier(a: Timespec, b: Timespec)
    requires Normalised(a) && Normalised(b)
    ensures Greater(a, b) <==> TotalNanos(a) >= TotalNanos(b)
    ensures Greater(a, a)
  {
    LessIsEarlier(a, b);
  }
}
