/**
 * The 7-bit signed integer (-64 ... 63).  It is stored as six magnitude bits
 * and a sign flag: the low six bits and bit 6 of the value's 7-bit two's
 * complement pattern.
 */
module SignedInt7 {
  import opened Wrappers
  import opened Bits
  import opened MidiUnsignedInteger

  datatype Int7 = Int7(sixBitStorage: nat, isNegative: bool)

  predicate Valid(x: Int7)
  {
    x.sixBitStorage < 64
  }

  predicate InRange(v: int)
  {
    -64 <= v <= 63
  }

  /**
   * `literalBits(truncatingIfNecessary:)`: bits 0 ..< 6 of the source's two's
   * complement pattern and bit 6 as the sign.  On negative integers masking
   * the low bits is the non-negative remainder, which is what `%` gives here.
   */
  function LiteralBits(source: int): (r: Int7)
    ensures Valid(r)
    ensures RawByte(r) == source % 128
  {
    var low7 := source % 128;
    DivDiv(low7, 64, 2);
    DivModUnique(source, 64, (source / 128) * 2 + low7 / 64, low7 % 64);
    Int7(source % 64, low7 / 64 == 1)
  }

  /** `rawByte`: the 7-bit pattern; the top bit of the byte is always clear. */
  function RawByte(x: Int7): (r: nat)
    requires Valid(x)
    ensures r < 0x80
    ensures r % 64 == x.sixBitStorage && (r >= 64 <==> x.isNegative)
  {
    if x.isNegative then x.sixBitStorage + 0x40 else x.sixBitStorage
  }

  /** `intValue`: the sign flag selects minus the complement of the magnitude bits, plus one. */
  function IntValue(x: Int7): (v: int)
    requires Valid(x)
    ensures InRange(v)
    ensures v < 0 <==> x.isNegative
    ensures v % 128 == RawByte(x)
  {
    if x.isNegative then
      ComplementSixBits(x.sixBitStorage);
      -(And(0xFF - x.sixBitStorage, 0x3F) + 1)
    else x.sixBitStorage
  }

  /** `~` on the UInt8 storage followed by the six-bit mask. */
  lemma ComplementSixBits(s: nat)
    requires s < 64
    ensures And(0xFF - s, 0x3F) == 63 - s
  {
    AndLowMask(0xFF - s, 6);
    DivModUnique(0xFF - s, 64, 3, 63 - s);
  }

  /** `init(_:)` from an unsigned source: 0 ... 63 are stored, anything larger raises overflow. */
  function FromUnsigned(source: nat): (r: Result<Int7, Trap>)
    ensures r.Success? <==> source <= 63
    ensures r.Success? ==> Valid(r.value) && IntValue(r.value) == source
    ensures r.Failure? ==> r.error == Overflow
  {
    if source <= 63 then Success(Int7(source, false)) else Failure(Overflow)
  }

  /** `init(_:)` from a signed source: underflow below -64, overflow above 63. */
  function FromSigned(source: int): (r: Result<Int7, Trap>)
    ensures r.Success? <==> InRange(source)
    ensures r.Success? ==> Valid(r.value) && IntValue(r.value) == source
    ensures r == Failure(Underflow) <==> source <= -65
    ensures r == Failure(Overflow) <==> source >= 64
  {
    if source <= -65 then Failure(Underflow)
    else if source < 0 then
      LiteralBitsOfNegative(source);
      Success(LiteralBits(source))
    else if source <= 63 then Success(Int7(source, false))
    else Failure(Overflow)
  }

  lemma LiteralBitsOfNegative(n: int)
    requires -64 <= n < 0
    ensures LiteralBits(n) == Int7(n + 64, true)
    ensures IntValue(LiteralBits(n)) == n
  {
    DivModUnique(n, 64, -1, n + 64);
    DivModUnique(n, 128, -1, n + 128);
    DivModUnique(n + 128, 64, 1, n + 64);
    var r := LiteralBits(n);
    assert r.sixBitStorage == n + 64 && r.isNegative;
    ComplementSixBits(n + 64);
  }

  /** `init(truncatingIfNecessary:)` from an unsigned source: the low six bits, never negative. */
  function TruncatingUnsigned(source: nat): (r: Int7)
    ensures Valid(r) && !r.isNegative
    ensures IntValue(r) == source % 64
  {
    AndLowMask(source, 6);
    Int7(And(source, 0x3F), false)
  }

  /** `init(truncatingIfNecessary:)` from a signed source: the 7-bit two's complement wrap. */
  function TruncatingSigned(source: int): (r: Int7)
    ensures Valid(r)
    ensures IntValue(r) == (source + 64) % 128 - 64
  {
    var r := LiteralBits(source);
    WrapAgrees(source, IntValue(r));
    r
  }

  /** Two values in -64 ... 63 with the same 7-bit pattern are the same value. */
  lemma WrapAgrees(source: int, v: int)
    requires InRange(v) && v % 128 == source % 128
    ensures v == (source + 64) % 128 - 64
  {
    var q := (source + 64) / 128;
    var k := (v - source) / 128;
    assert (v - source) % 128 == 0 by {
      DivModUnique(v, 128, v / 128, v % 128);
      DivModUnique(source, 128, source / 128, source % 128);
      assert v - source == (v / 128 - source / 128) * 128;
      DivModUnique(v - source, 128, v / 128 - source / 128, 0);
    }
    assert v + 64 == (source + 64) + k * 128;
    DivModUnique(v + 64, 128, 0, v + 64);
    assert (source + 64) == (source + 64) / 128 * 128 + (source + 64) % 128;
    DivModUnique(source + 64, 128, -k, v + 64);
  }

  /** `init?(exactly:)`: nil outside -64 ... 63, otherwise the value itself. */
  function Exactly(source: int): (r: Option<Int7>)
    ensures r.Some? <==> InRange(source)
    ensures r.Some? ==> Valid(r.value) && IntValue(r.value) == source
  {
    if !InRange(source) then None
    else if source < 0 then
      LiteralBitsOfNegative(source);
      Some(TruncatingSigned(source))
    else
      ModOfSmall(source, 64);
      Some(TruncatingUnsigned(source))
  }

  /** `init(bitPattern:)`: reads the low seven bits of an unsigned source. */
  function BitPattern(source: nat): (r: Int7)
    ensures Valid(r)
    ensures RawByte(r) == source % 128
  {
    LiteralBits(source)
  }

  /** The raw byte of a bit-pattern value is the source masked to seven bits. */
  lemma BitPatternRawByte(b: nat)
    requires b <= 0xFF
    ensures RawByte(BitPattern(b)) == And(b, 0x7F)
  {
    AndLowMask(b, 7);
  }

  /** Integer literals (Int8) are taken by truncation, so 100 becomes -28. */
  function FromLiteral(value: int): (r: Int7)
    requires -128 <= value <= 127
    ensures Valid(r)
  {
    TruncatingSigned(value)
  }

  lemma LiteralWraps()
    ensures IntValue(FromLiteral(100)) == -28
    ensures IntValue(FromLiteral(-1)) == -1
  {
    assert IntValue(TruncatingSigned(100)) == (100 + 64) % 128 - 64;
    assert IntValue(TruncatingSigned(-1)) == (-1 + 64) % 128 - 64;
  }

  /** `<`: ordering by `intValue`. */
  predicate Less(a: Int7, b: Int7)
    requires Valid(a) && Valid(b)
  {
    IntValue(a) < IntValue(b)
  }

  /**
   * `==` compares both stored fields while hashing and `<` use `intValue`;
   * the two agree because `intValue` determines the fields.
   */
  lemma EqualityAgreesWithIntValue(a: Int7, b: Int7)
    requires Valid(a) && Valid(b)
    ensures a == b <==> IntValue(a) == IntValue(b)
    ensures a == b <==> !Less(a, b) && !Less(b, a)
  {
    if IntValue(a) == IntValue(b) {
      assert RawByte(a) == RawByte(b);
    }
  }

  /** Every value in range is reached by `init?(exactly:)`, and `intValue` reads it back. */
  lemma ExactlyRoundTrip(x: Int7)
    requires Valid(x)
    ensures Exactly(IntValue(x)) == Some(x)
  {
    EqualityAgreesWithIntValue(x, Exactly(IntValue(x)).value);
  }
}
