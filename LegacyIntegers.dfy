/**
 * The first-generation integer protocol (`MIDIKitIntegerProtocol`) and its
 * 14-bit type `MIDI.UInt14`, whose storage is a plain `Int`.  A conforming
 * type is described by its bounds and its checking initialiser; operators
 * returning the type rebuild through that initialiser, operators returning
 * the storage type do plain `Int` arithmetic.
 */
module LegacyIntegers {
  import opened Wrappers
  import opened Bits
  import opened MidiUnsignedInteger

  // ---- MIDI.UInt14 ----

  const UInt14Min: int := 0
  const UInt14Midpoint: int := 8192
  const UInt14Max: int := 16383
  const UInt14BitWidth: nat := 14

  predicate InRange14(v: int)
  {
    UInt14Min <= v <= UInt14Max
  }

  /** The constants are the bounds of 14 bits, and the midpoint is the lowest value with bit 13 set. */
  lemma UInt14Constants()
    ensures UInt14Max == Pow2(UInt14BitWidth) - 1
    ensures UInt14Midpoint == Pow2(UInt14BitWidth - 1)
    ensures InRange14(UInt14Default())
  {
  }

  /** `init()`: the neutral midpoint. */
  function UInt14Default(): (r: int)
    ensures r == UInt14Midpoint
  {
    8192
  }

  /** `init(_:)`: stops with "Overflow" for any source outside 0 ... 16383, below as well as above. */
  function UInt14Make(source: int): (r: Result<int, Trap>)
    ensures r.Success? <==> InRange14(source)
    ensures r.Success? ==> r.value == source
    ensures r.Failure? ==> r.error == Overflow
  {
    if !InRange14(source) then Failure(Overflow) else Success(source)
  }

  /** `init?(exactly:)`: nil outside the range. */
  function UInt14Exactly(source: int): (r: Option<int>)
    ensures r.Some? <==> InRange14(source)
    ensures r.Some? ==> r.value == source
  {
    if !InRange14(source) then None else Some(source)
  }

  /** `init(clamping:)`: the nearest value in range. */
  function UInt14Clamping(source: int): (r: int)
    ensures InRange14(r)
    ensures InRange14(source) ==> r == source
    ensures source < UInt14Min ==> r == UInt14Min
    ensures source > UInt14Max ==> r == UInt14Max
  {
    if source < 0 then 0 else if source > 16383 then 16383 else source
  }

  /** Integer literals are UInt16 values clamped into range rather than checked. */
  function UInt14FromLiteral(literal: nat): (r: int)
    requires literal <= 0xFFFF
    ensures r == UInt14Clamping(literal)
    ensures literal > UInt14Max ==> r == UInt14Max
  {
    if literal > 16383 then 16383 else literal
  }

  /** The checking, optional and clamping initialisers agree wherever the first succeeds. */
  lemma UInt14InitsAgree(source: int)
    ensures UInt14Make(source).Success? <==> UInt14Exactly(source).Some?
    ensures UInt14Make(source).Success? ==>
      UInt14Make(source).value == UInt14Exactly(source).value == UInt14Clamping(source)
  {
  }

  /** `init(bytePair:)`: the low seven bits of each byte, the MSB shifted left by seven. */
  function UInt14FromBytePair(p: BytePair): (r: int)
    requires p.msb <= 0xFF && p.lsb <= 0xFF
    ensures InRange14(r)
    ensures r == (p.msb % 128) * 128 + p.lsb % 128
  {
    AndLowMask(p.msb, 7);
    AndLowMask(p.lsb, 7);
    And(p.msb, 0x7F) * 128 + And(p.lsb, 0x7F)
  }

  /** `bytePair`: bits 7 ..< 14 and bits 0 ..< 7 of the value. */
  function UInt14ToBytePair(value: int): (p: BytePair)
    requires InRange14(value)
    ensures p.msb <= 0x7F && p.lsb <= 0x7F
    ensures p.msb * 128 + p.lsb == value
    ensures p.msb == value / 128 && p.lsb == value % 128
  {
    SevenBitHalves(value);
    BytePair(And(value, 0x3F80) / 128, And(value, 0x7F))
  }

  lemma UInt14BytePairRoundTrip(value: int)
    requires InRange14(value)
    ensures UInt14FromBytePair(UInt14ToBytePair(value)) == value
  {
    var p := UInt14ToBytePair(value);
    ModOfSmall(p.msb, 128);
    ModOfSmall(p.lsb, 128);
  }

  // ---- the protocol's default implementations ----

  /** A conforming type: the bounds its checking initialiser accepts. */
  datatype Bounds = Bounds(min: int, max: int)

  /** A conforming type's `init(_:)`, which stops outside its bounds. */
  function Checked(b: Bounds, source: int): (r: Result<int, Trap>)
    ensures r.Success? <==> b.min <= source <= b.max
    ensures r.Success? ==> r.value == source
  {
    if source < b.min || source > b.max then Failure(Overflow) else Success(source)
  }

  /** Default `init?(exactly:)`: nil outside the bounds, else the checking initialiser. */
  function DefaultExactly(b: Bounds, source: int): (r: Option<int>)
    ensures r.Some? <==> b.min <= source <= b.max
    ensures r.Some? ==> r.value == source
  {
    if source < b.min then None
    else if source > b.max then None
    else Some(Checked(b, source).value)
  }

  /** Default `init(clamping:)`: clamps into the bounds, then the checking initialiser. */
  function DefaultClamping(b: Bounds, source: int): (r: Result<int, Trap>)
    ensures b.min <= b.max ==> r.Success? && b.min <= r.value <= b.max
    ensures b.min <= source <= b.max ==> r == Success(source)
  {
    var c := if source < b.min then b.min else if source > b.max then b.max else source;
    Checked(b, c)
  }

  /** `MIDI.UInt14` overrides the defaults with the same behaviour. */
  lemma UInt14MatchesDefaults(source: int)
    ensures UInt14Exactly(source) == DefaultExactly(Bounds(0, 16383), source)
    ensures Success(UInt14Clamping(source)) == DefaultClamping(Bounds(0, 16383), source)
  {
  }

  datatype Op = Plus | Minus | Times | Quotient | Remainder

  /** Arithmetic on the storage `Int`: Swift's truncating division, trapping on zero. */
  function StorageApply(op: Op, a: int, b: int): (r: Result<int, Trap>)
    ensures r.Failure? <==> (op == Quotient || op == Remainder) && b == 0
    ensures r.Success? && op == Quotient ==> r.value * b + TruncRem(a, b) == a
  {
    match op
    case Plus => Success(a + b)
    case Minus => Success(a - b)
    case Times => Success(a * b)
    case Quotient => if b == 0 then Failure(DivisionByZero) else TruncDivRem(a, b); Success(TruncDiv(a, b))
    case Remainder => if b == 0 then Failure(DivisionByZero) else Success(TruncRem(a, b))
  }

  /**
   * `Self op Self` and `Self op Storage` (and their compound assignments):
   * the storage result rebuilt through the checking initialiser.
   */
  function CheckedApply(b: Bounds, op: Op, x: int, y: int): (r: Result<int, Trap>)
    ensures r.Success? <==> StorageApply(op, x, y).Success? && b.min <= StorageApply(op, x, y).value <= b.max
    ensures r.Success? ==> r.value == StorageApply(op, x, y).value
  {
    match StorageApply(op, x, y)
    case Failure(e) => Failure(e)
    case Success(v) => Checked(b, v)
  }

  /** `Storage op Self`: plain storage arithmetic, never range-checked. */
  function UncheckedApply(op: Op, x: int, y: int): (r: Result<int, Trap>)
    ensures r == StorageApply(op, x, y)
    ensures r.Success? ==> CheckedApply(Bounds(r.value, r.value), op, x, y) == r
  {
    StorageApply(op, x, y)
  }

  /** A range-checked sum that fails is one that the unchecked sum would have produced out of range. */
  lemma CheckedExtendsUnchecked(b: Bounds, op: Op, x: int, y: int)
    requires UncheckedApply(op, x, y).Success?
    ensures CheckedApply(b, op, x, y).Success? <==> b.min <= UncheckedApply(op, x, y).value <= b.max
  {
  }

  /** With UInt14 bounds, 16383 + 1 stops the program while the storage-typed sum is 16384. */
  lemma UInt14SumPastMax()
    ensures CheckedApply(Bounds(0, 16383), Plus, 16383, 1).Failure?
    ensures UncheckedApply(Plus, 16383, 1) == Success(16384)
  {
  }
}
