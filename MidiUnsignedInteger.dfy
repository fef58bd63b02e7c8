/**
 * The range-checked unsigned integers of MIDIKit (UInt4, UInt7, UInt9 and
 * UInt14) and the generic protocol that implements them.  A value is its
 * backing storage integer; a type is described by its bit width and the width
 * of its storage (UInt8 or UInt16).  Equality and ordering compare storage,
 * which in this model is the value itself.
 *
 * Every initialiser and operator that can stop the program returns a
 * `Result` whose failure names why: the library's own underflow and overflow
 * exceptions, or a trap of Swift's storage arithmetic.
 */
module MidiUnsignedInteger {
  import opened Wrappers
  import opened Bits

  datatype Trap =
    | Underflow            // the library's underflow exception
    | Overflow             // the library's overflow exception
    | ArithmeticOverflow   // Swift traps: storage arithmetic left the storage type
    | DivisionByZero       // Swift traps: division or remainder by zero
    | DataCorrupted        // decoding error: the stored value is out of range

  /** An integer type: its bit width and the bit width of its storage. */
  datatype Width = Width(bits: nat, storageBits: nat)

  predicate WellFormed(w: Width)
  {
    1 <= w.bits <= w.storageBits
  }

  const UInt4Width := Width(4, 8)
  const UInt7Width := Width(7, 8)
  const UInt9Width := Width(9, 16)
  const UInt14Width := Width(14, 16)

  predicate IsMidiWidth(w: Width)
  {
    w == UInt4Width || w == UInt7Width || w == UInt9Width || w == UInt14Width
  }

  function Max(w: Width): nat
  {
    Pow2(w.bits) - 1
  }

  function StorageMax(w: Width): nat
  {
    Pow2(w.storageBits) - 1
  }

  predicate InRange(w: Width, v: int)
  {
    0 <= v <= Max(w)
  }

  /** The largest value of each type, and of its storage. */
  lemma WidthConstants()
    ensures Max(UInt4Width) == 15 && StorageMax(UInt4Width) == 255
    ensures Max(UInt7Width) == 127 && StorageMax(UInt7Width) == 255
    ensures Max(UInt9Width) == 511 && StorageMax(UInt9Width) == 65535
    ensures Max(UInt14Width) == 16383 && StorageMax(UInt14Width) == 65535
  {
  }

  lemma MaxWithinStorage(w: Width)
    requires WellFormed(w)
    ensures Max(w) <= StorageMax(w)
  {
    Pow2Monotonic(w.bits, w.storageBits);
  }

  /**
   * `max(as:)`: the largest value, built by setting bits 0 ..< bitWidth one
   * at a time.
   */
  method MaxAs(w: Width) returns (m: nat)
    ensures m == Max(w)
  {
    m := 0;
    for i := 0 to w.bits
      invariant m == Pow2(i) - 1
    {
      OrFreshBit(m, i);
      m := Or(m, Pow2(i));
    }
  }

  /** `init(_:)`: raises underflow below 0 and overflow above the maximum. */
  function Make(w: Width, source: int): (r: Result<nat, Trap>)
    ensures r.Success? <==> InRange(w, source)
    ensures r.Success? ==> r.value == source
    ensures r == Failure(Underflow) <==> source < 0
    ensures r == Failure(Overflow) <==> source > Max(w)
  {
    if source < 0 then Failure(Underflow)
    else if source > Max(w) then Failure(Overflow)
    else Success(source)
  }

  /** `init?(exactly:)`: nil exactly when the source is out of range. */
  function Exactly(w: Width, source: int): (r: Option<nat>)
    ensures r.Some? <==> InRange(w, source)
    ensures r.Some? ==> r.value == source
  {
    if source < 0 || source > Max(w) then None else Some(source)
  }

  /** `init(clamping:)`: the in-range value nearest to the source. */
  function Clamping(w: Width, source: int): (r: nat)
    ensures InRange(w, r)
    ensures InRange(w, source) ==> r == source
    ensures source < 0 ==> r == 0
    ensures source > Max(w) ==> r == Max(w)
  {
    if source < 0 then 0 else if source > Max(w) then Max(w) else source
  }

  /** No value of the type is closer to the source than the clamped one. */
  lemma ClampingIsNearest(w: Width, source: int, y: int)
    requires InRange(w, y)
    ensures Dist(Clamping(w, source), source) <= Dist(y, source)
  {
  }

  function Dist(a: int, b: int): nat
  {
    if a <= b then b - a else a - b
  }

  /** The checking and the optional initialisers accept the same sources and agree. */
  lemma MakeAgreesWithExactly(w: Width, source: int)
    ensures Make(w, source).Success? <==> Exactly(w, source).Some?
    ensures Make(w, source).Success? ==> Make(w, source).value == Exactly(w, source).value == Clamping(w, source)
  {
  }

  /**
   * `init(truncatingIfNeeded:)` as written: truncates the source to the
   * STORAGE width (two's complement) and then range-checks, so a source that
   * fits the storage but not the type still raises overflow.
   */
  function TruncatingIfNeeded(w: Width, source: int): (r: Result<nat, Trap>)
    ensures r != Failure(Underflow)
    ensures r.Success? <==> source % Pow2(w.storageBits) <= Max(w)
    ensures r.Success? ==> (r.value - source) % Pow2(w.storageBits) == 0
  {
    var m := Pow2(w.storageBits);
    ModBound(source, m);
    ModCongruent(source, m);
    Make(w, source % m)
  }

  /** A UInt7 built by truncation from 200 raises overflow instead of becoming 72. */
  lemma TruncatingIfNeededTraps()
    ensures TruncatingIfNeeded(UInt7Width, 200) == Failure(Overflow)
    ensures Truncating(UInt7Width, 200) == 72
  {
  }

  /**
   * Truncation to the type's own bit width, as the fixed-width integer
   * protocol defines `init(truncatingIfNeeded:)`: the in-range value
   * congruent to the source modulo 2^bitWidth.
   */
  function Truncating(w: Width, source: int): (r: nat)
    ensures InRange(w, r)
    ensures (r - source) % Pow2(w.bits) == 0
    ensures InRange(w, source) ==> r == source
  {
    var m := Pow2(w.bits);
    ModBound(source, m);
    ModCongruent(source, m);
    ModOfSmall(source, m);
    source % m
  }

  /** Decoding a stored value: values out of range are reported as corrupted data. */
  function Decode(w: Width, stored: nat): (r: Result<nat, Trap>)
    ensures r.Success? <==> InRange(w, stored)
    ensures r.Success? ==> r.value == stored
    ensures r.Failure? ==> r.error == DataCorrupted
  {
    match Exactly(w, stored)
    case Some(v) => Success(v)
    case None => Failure(DataCorrupted)
  }

  /** Encoding writes the storage; decoding it gives the value back. */
  lemma DecodeEncode(w: Width, x: nat)
    requires InRange(w, x)
    ensures Decode(w, x) == Success(x)
  {
  }

  /**
   * An operation on the storage integers: Swift traps when the exact result
   * leaves the storage type, and the library then range-checks the result.
   */
  function StorageResult(w: Width, v: int): (r: Result<nat, Trap>)
    requires WellFormed(w)
    ensures r.Success? <==> InRange(w, v)
    ensures r.Success? ==> r.value == v
    ensures r == Failure(ArithmeticOverflow) <==> v < 0 || v > StorageMax(w)
  {
    MaxWithinStorage(w);
    if v < 0 || v > StorageMax(w) then Failure(ArithmeticOverflow) else Make(w, v)
  }

  /** `+`: the sum when it fits; for the four MIDI widths the storage never overflows first. */
  function Add(w: Width, a: nat, b: nat): (r: Result<nat, Trap>)
    requires WellFormed(w) && InRange(w, a) && InRange(w, b)
    ensures r.Success? <==> a + b <= Max(w)
    ensures r.Success? ==> r.value == a + b
    ensures IsMidiWidth(w) && r.Failure? ==> r.error == Overflow
  {
    StorageResult(w, a + b)
  }

  /** `-`: subtracting a larger value traps in the storage arithmetic. */
  function Sub(w: Width, a: nat, b: nat): (r: Result<nat, Trap>)
    requires WellFormed(w) && InRange(w, a) && InRange(w, b)
    ensures r.Success? <==> b <= a
    ensures r.Success? ==> r.value + b == a
    ensures r.Failure? ==> r.error == ArithmeticOverflow
  {
    StorageResult(w, a - b)
  }

  /** `*`: the product when it fits; a product beyond the storage traps in Swift first. */
  function Mul(w: Width, a: nat, b: nat): (r: Result<nat, Trap>)
    requires WellFormed(w) && InRange(w, a) && InRange(w, b)
    ensures r.Success? <==> a * b <= Max(w)
    ensures r.Success? ==> r.value == a * b
    ensures r == Failure(ArithmeticOverflow) <==> a * b > StorageMax(w)
  {
    StorageResult(w, a * b)
  }

  /** In UInt7 storage, 127 * 127 overflows the UInt8 before the range check. */
  lemma UInt7ProductTrapsInStorage()
    ensures Mul(UInt7Width, 127, 127) == Failure(ArithmeticOverflow)
    ensures Mul(UInt7Width, 12, 12) == Failure(Overflow)
  {
  }

  /** `/`: traps on a zero divisor and otherwise never leaves the range. */
  function Div(w: Width, a: nat, b: nat): (r: Result<nat, Trap>)
    requires WellFormed(w) && InRange(w, a) && InRange(w, b)
    ensures r.Success? <==> b != 0
    ensures r.Success? ==> r.value <= a
  {
    if b == 0 then Failure(DivisionByZero)
    else
      DivAtMost(a, b);
      StorageResult(w, a / b)
  }

  /** `%`: traps on a zero divisor; the remainder is below the divisor. */
  function Rem(w: Width, a: nat, b: nat): (r: Result<nat, Trap>)
    requires WellFormed(w) && InRange(w, a) && InRange(w, b)
    ensures r.Success? <==> b != 0
    ensures r.Success? ==> r.value < b && r.value <= a
  {
    if b == 0 then Failure(DivisionByZero)
    else
      ModBound(a, b);
      assert a % b <= a by { DivModUnique(a, b, a / b, a % b); }
      StorageResult(w, a % b)
  }

  /** Division and remainder put the dividend back together. */
  lemma DivRemRecompose(w: Width, a: nat, b: nat)
    requires WellFormed(w) && InRange(w, a) && InRange(w, b) && b != 0
    ensures Div(w, a, b).value * b + Rem(w, a, b).value == a
  {
    assert a == (a / b) * b + a % b;
  }

  /**
   * Swift's smart shift `<<` on the storage type: bits shifted past the
   * storage width are lost, and a negative amount shifts the other way.
   */
  function StorageShiftLeft(w: Width, a: nat, n: int): (r: nat)
    requires WellFormed(w) && InRange(w, a)
    ensures r <= StorageMax(w)
    ensures n > 0 ==> r == (a * Pow2(n)) % Pow2(w.storageBits)
    ensures n <= 0 ==> r == a / Pow2(-n) && r <= a
  {
    MaxWithinStorage(w);
    if n > 0 then
      var p := ShiftedLeft(a, n);
      ModBound(p, Pow2(w.storageBits));
      p % Pow2(w.storageBits)
    else
      DivAtMost(a, Pow2(-n));
      ShiftedRight(a, -n)
  }

  /** `<<`: the shifted storage, range-checked. */
  function ShiftLeft(w: Width, a: nat, n: int): (r: Result<nat, Trap>)
    requires WellFormed(w) && InRange(w, a)
    ensures r.Success? <==> InRange(w, StorageShiftLeft(w, a, n))
    ensures r.Failure? ==> r.error == Overflow
  {
    Make(w, StorageShiftLeft(w, a, n))
  }

  /** A left shift whose result fits the type loses nothing. */
  lemma ShiftLeftExact(w: Width, a: nat, n: nat)
    requires WellFormed(w) && InRange(w, a) && a * Pow2(n) <= Max(w)
    ensures ShiftLeft(w, a, n) == Success(ShiftedLeft(a, n))
  {
    MaxWithinStorage(w);
    if n == 0 {
      assert StorageShiftLeft(w, a, n) == a;
    } else {
      ModOfSmall(a * Pow2(n), Pow2(w.storageBits));
    }
  }

  /** `>>` by a non-negative amount: always in range, never larger. */
  function ShiftRight(w: Width, a: nat, n: nat): (r: Result<nat, Trap>)
    requires WellFormed(w) && InRange(w, a)
    ensures r.Success? && r.value <= a
  {
    Make(w, StorageShiftLeft(w, a, -(n as int)))
  }

  /** Shifting right undoes a left shift that lost no bits. */
  lemma ShiftRightUndoesShiftLeft(w: Width, a: nat, n: nat)
    requires WellFormed(w) && InRange(w, a) && a * Pow2(n) <= Max(w)
    ensures ShiftLeft(w, a, n) == Success(ShiftedLeft(a, n))
    ensures ShiftRight(w, ShiftedLeft(a, n), n) == Success(a)
  {
    ShiftLeftExact(w, a, n);
    DivOfMultiple(a, Pow2(n));
  }

  /** `~`: the storage complement masked to the bit width, i.e. `max - x`. */
  function Not(w: Width, a: nat): (r: nat)
    requires WellFormed(w) && InRange(w, a)
    ensures InRange(w, r)
    ensures r == Max(w) - a
  {
    MaxWithinStorage(w);
    ComplementMask(w, a);
    And(StorageMax(w) - a, Max(w))
  }

  lemma ComplementMask(w: Width, a: nat)
    requires WellFormed(w) && InRange(w, a)
    ensures Max(w) <= StorageMax(w)
    ensures And(StorageMax(w) - a, Max(w)) == Max(w) - a
  {
    MaxWithinStorage(w);
    var p, k := Pow2(w.bits), Pow2(w.storageBits - w.bits);
    var x := StorageMax(w) - a;
    assert x == (k - 1) * p + (p - 1 - a) by {
      Pow2Add(w.bits, w.storageBits - w.bits);
      MulDistribute(k, -1, p);
    }
    assert x % p == p - 1 - a by {
      DivModUnique(x, p, k - 1, p - 1 - a);
    }
    AndLowMask(x, w.bits);
  }

  lemma NotInvolutive(w: Width, a: nat)
    requires WellFormed(w) && InRange(w, a)
    ensures Not(w, Not(w, a)) == a
  {
  }

  /** `distance(to:)`: the signed difference. */
  function Distance(w: Width, a: nat, b: nat): (d: int)
    requires InRange(w, a) && InRange(w, b)
    ensures a + d == b
  {
    b - a
  }

  /**
   * `advanced(by:)` as written: `self + Self(n)`, so a negative step raises
   * underflow even when the target is in range.
   */
  function Advanced(w: Width, a: nat, n: int): (r: Result<nat, Trap>)
    requires WellFormed(w) && InRange(w, a)
    ensures r.Success? <==> 0 <= n && a + n <= Max(w)
    ensures r.Success? ==> r.value == a + n
    ensures n < 0 ==> r == Failure(Underflow)
  {
    match Make(w, n)
    case Failure(e) => Failure(e)
    case Success(step) => StorageResult(w, a + step)
  }

  /** Stepping a UInt7 at 5 back by one raises underflow instead of giving 4. */
  lemma AdvancedBackwardTraps()
    ensures Advanced(UInt7Width, 5, -1) == Failure(Underflow)
    ensures AdvancedChecked(UInt7Width, 5, -1) == Success(4)
  {
  }

  /** Stepping as the strideable protocol means it: the target, range-checked. */
  function AdvancedChecked(w: Width, a: nat, n: int): (r: Result<nat, Trap>)
    requires InRange(w, a)
    ensures r.Success? <==> InRange(w, a + n)
    ensures r.Success? ==> r.value == a + n
  {
    Make(w, a + n)
  }

  /** Stepping by the distance to any value reaches that value. */
  lemma AdvancedByDistance(w: Width, a: nat, b: nat)
    requires WellFormed(w) && InRange(w, a) && InRange(w, b)
    ensures AdvancedChecked(w, a, Distance(w, a, b)) == Success(b)
    ensures Advanced(w, a, Distance(w, a, b)).Success? <==> a <= b
  {
  }

  /**
   * `<<=` as written: shifts the storage in place with no check, so the
   * stored value can leave the type's range.
   */
  function ShiftLeftAssignUnchecked(w: Width, a: nat, n: nat): (r: nat)
    requires WellFormed(w) && InRange(w, a)
    ensures r <= StorageMax(w)
  {
    MaxWithinStorage(w);
    StorageShiftLeft(w, a, n)
  }

  /** A UInt7 holding 64, shifted left in place by one, stores 128. */
  lemma ShiftLeftAssignLeavesRange()
    ensures ShiftLeftAssignUnchecked(UInt7Width, 64, 1) == 128
    ensures !InRange(UInt7Width, ShiftLeftAssignUnchecked(UInt7Width, 64, 1))
    ensures ShiftLeftAssign(UInt7Width, 64, 1) == 0
  {
  }

  /**
   * `<<=` as a fixed-width integer defines it: bits shifted past the type's
   * own width are discarded, so the result stays in range.
   */
  function ShiftLeftAssign(w: Width, a: nat, n: nat): (r: nat)
    requires InRange(w, a)
    ensures InRange(w, r)
    ensures a * Pow2(n) <= Max(w) ==> r == a * Pow2(n)
    ensures (r - a * Pow2(n)) % Pow2(w.bits) == 0
  {
    var p := a * Pow2(n);
    ModBound(p, Pow2(w.bits));
    ModOfSmall(p, Pow2(w.bits));
    ModCongruent(p, Pow2(w.bits));
    p % Pow2(w.bits)
  }

  // ---- type-specific constants ----

  const UInt7Midpoint: nat := 64
  const UInt14Midpoint: nat := 8192

  /** The midpoints are the lowest value with the top bit set, half the value count. */
  lemma Midpoints()
    ensures UInt7Midpoint * 2 == Max(UInt7Width) + 1
    ensures UInt14Midpoint * 2 == Max(UInt14Width) + 1
  {
  }

  // ---- UInt14 byte pairs ----

  datatype BytePair = BytePair(msb: nat, lsb: nat)

  /** `init(bytePair:)`: the low seven bits of each byte, MSB shifted left by seven. */
  function UInt14FromBytePair(p: BytePair): (r: nat)
    requires p.msb <= 255 && p.lsb <= 255
    ensures InRange(UInt14Width, r)
    ensures r == (p.msb % 128) * 128 + p.lsb % 128
  {
    AndLowMask(p.msb, 7);
    AndLowMask(p.lsb, 7);
    And(p.msb, 0x7F) * 128 + And(p.lsb, 0x7F)
  }

  /** `bytePair`: bits 7 ..< 14 as the MSB and bits 0 ..< 7 as the LSB. */
  function UInt14BytePair(x: nat): (p: BytePair)
    requires InRange(UInt14Width, x)
    ensures p.msb <= 0x7F && p.lsb <= 0x7F
    ensures p.msb * 128 + p.lsb == x
    ensures p.msb == x / 128 && p.lsb == x % 128
  {
    assert Max(UInt14Width) == 0x3FFF;
    SevenBitHalves(x);
    BytePair(And(x, 0x3F80) / 128, And(x, 0x7F))
  }

  /** Splitting into a byte pair and joining it again gives the value back. */
  lemma BytePairRoundTrip(x: nat)
    requires InRange(UInt14Width, x)
    ensures UInt14FromBytePair(UInt14BytePair(x)) == x
  {
    var p := UInt14BytePair(x);
    ModOfSmall(p.msb, 128);
    ModOfSmall(p.lsb, 128);
  }

  /** Joining two 7-bit bytes and splitting again gives the bytes back. */
  lemma BytePairJoinSplit(p: BytePair)
    requires p.msb <= 0x7F && p.lsb <= 0x7F
    ensures UInt14BytePair(UInt14FromBytePair(p)) == p
  {
    var x := UInt14FromBytePair(p);
    ModOfSmall(p.msb, 128);
    ModOfSmall(p.lsb, 128);
    assert x == p.msb * 128 + p.lsb;
    DivModUnique(x, 128, p.msb, p.lsb);
  }

  /** `init(uInt7Pair:)`: two UInt7 halves, no masking needed. */
  function UInt14FromUInt7Pair(msb: nat, lsb: nat): (r: nat)
    requires InRange(UInt7Width, msb) && InRange(UInt7Width, lsb)
    ensures InRange(UInt14Width, r)
    ensures r / 128 == msb && r % 128 == lsb
  {
    DivModUnique(msb * 128 + lsb, 128, msb, lsb);
    msb * 128 + lsb
  }

  /** `midiUInt7Pair`: the two 7-bit halves as UInt7 values (never out of range). */
  function UInt14UInt7Pair(x: nat): (p: (nat, nat))
    requires InRange(UInt14Width, x)
    ensures InRange(UInt7Width, p.0) && InRange(UInt7Width, p.1)
    ensures UInt14FromUInt7Pair(p.0, p.1) == x
  {
    var b := UInt14BytePair(x);
    (b.msb, b.lsb)
  }

  lemma UInt7PairRoundTrip(msb: nat, lsb: nat)
    requires InRange(UInt7Width, msb) && InRange(UInt7Width, lsb)
    ensures UInt14UInt7Pair(UInt14FromUInt7Pair(msb, lsb)) == (msb, lsb)
  {
    BytePairJoinSplit(BytePair(msb, lsb));
  }
}
