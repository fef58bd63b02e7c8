/**
 * Fixed-width integers to and from raw bytes, in a chosen byte order
 * (`toData(_:)`, `toNumber(from:toType:)`, `toUInt8`, `toInt8`).  The
 * platform's own byte order is a parameter: the library reads it from the
 * running system and copies an integer's memory image byte for byte.
 */
module ByteOrder {
  import opened Wrappers
  import opened Bits

  type Byte = b: int | 0 <= b < 256

  datatype Endianness = PlatformDefault | LittleEndian | BigEndian

  /** The two byte orders a system can have. */
  datatype SystemOrder = SystemLittle | SystemBig

  /** 256^n: the number of values of an n-byte unsigned integer. */
  function Radix(n: nat): (r: nat)
    ensures r >= 1
  {
    if n == 0 then 1 else 256 * Radix(n - 1)
  }

  /** The least significant n bytes of v, least significant first. */
  function LittleBytes(v: nat, n: nat): (bs: seq<Byte>)
    ensures |bs| == n
  {
    if n == 0 then [] else [v % 256] + LittleBytes(v / 256, n - 1)
  }

  /** The unsigned value of bytes read least significant first. */
  function FromLittle(bs: seq<Byte>): (v: nat)
    ensures v < Radix(|bs|)
  {
    if |bs| == 0 then 0 else bs[0] + 256 * FromLittle(bs[1..])
  }

  function Reverse<T>(s: seq<T>): (r: seq<T>)
    ensures |r| == |s|
    ensures forall i :: 0 <= i < |s| ==> r[i] == s[|s| - 1 - i]
  {
    if |s| == 0 then [] else Reverse(s[1..]) + [s[0]]
  }

  lemma ReverseReverse<T>(s: seq<T>)
    ensures Reverse(Reverse(s)) == s
  {
    assert forall i :: 0 <= i < |s| ==> Reverse(Reverse(s))[i] == s[i];
  }

  lemma {:induction false} FromLittleBytes(v: nat, n: nat)
    requires v < Radix(n)
    ensures FromLittle(LittleBytes(v, n)) == v
  {
    if n > 0 {
      assert v / 256 < Radix(n - 1);
      FromLittleBytes(v / 256, n - 1);
      assert LittleBytes(v, n)[1..] == LittleBytes(v / 256, n - 1);
    }
  }

  lemma {:induction false} LittleBytesFrom(bs: seq<Byte>)
    ensures LittleBytes(FromLittle(bs), |bs|) == bs
  {
    if |bs| > 0 {
      var v := FromLittle(bs);
      var rest := FromLittle(bs[1..]);
      assert v % 256 == bs[0] && v / 256 == rest by {
        assert v == rest * 256 + bs[0];
      }
      LittleBytesFrom(bs[1..]);
      assert bs == [bs[0]] + bs[1..];
    }
  }

  /** The bytes of v as stored in memory on a system with the given order. */
  function MemoryImage(sys: SystemOrder, v: nat, n: nat): (bs: seq<Byte>)
    ensures |bs| == n
  {
    if sys == SystemLittle then LittleBytes(v, n) else Reverse(LittleBytes(v, n))
  }

  /** The value a memory image holds on a system with the given order. */
  function LoadImage(sys: SystemOrder, bs: seq<Byte>): (v: nat)
    ensures v < Radix(|bs|)
  {
    if sys == SystemLittle then FromLittle(bs) else FromLittle(Reverse(bs))
  }

  lemma LoadStore(sys: SystemOrder, v: nat, n: nat)
    requires v < Radix(n)
    ensures LoadImage(sys, MemoryImage(sys, v, n)) == v
  {
    FromLittleBytes(v, n);
    ReverseReverse(LittleBytes(v, n));
  }

  /** `byteSwapped` of an n-byte integer. */
  function ByteSwapped(v: nat, n: nat): (r: nat)
    ensures r < Radix(n)
  {
    FromLittle(Reverse(LittleBytes(v, n)))
  }

  lemma ByteSwappedInvolutive(v: nat, n: nat)
    requires v < Radix(n)
    ensures ByteSwapped(ByteSwapped(v, n), n) == v
  {
    var rev := Reverse(LittleBytes(v, n));
    LittleBytesFrom(rev);
    ReverseReverse(LittleBytes(v, n));
    FromLittleBytes(v, n);
  }

  /** The integer whose memory image has the requested order (`littleEndian` / `bigEndian`). */
  function InOrder(sys: SystemOrder, e: Endianness, v: nat, n: nat): nat
  {
    match e
    case PlatformDefault => v
    case LittleEndian => if sys == SystemLittle then v else ByteSwapped(v, n)
    case BigEndian => if sys == SystemBig then v else ByteSwapped(v, n)
  }

  /** `toData(_:)` of an unsigned n-byte integer. */
  function ToData(sys: SystemOrder, e: Endianness, v: nat, n: nat): (bs: seq<Byte>)
    requires v < Radix(n)
    ensures |bs| == n
    ensures e == LittleEndian ==> bs == LittleBytes(v, n)
    ensures e == BigEndian ==> bs == Reverse(LittleBytes(v, n))
    ensures e == PlatformDefault ==> bs == MemoryImage(sys, v, n)
  {
    ByteSwappedImage(v, n);
    MemoryImage(sys, InOrder(sys, e, v, n), n)
  }

  lemma ByteSwappedImage(v: nat, n: nat)
    requires v < Radix(n)
    ensures LittleBytes(ByteSwapped(v, n), n) == Reverse(LittleBytes(v, n))
    ensures Reverse(LittleBytes(ByteSwapped(v, n), n)) == LittleBytes(v, n)
  {
    LittleBytesFrom(Reverse(LittleBytes(v, n)));
    ReverseReverse(LittleBytes(v, n));
  }

  /** `toNumber(from:toType:)` for an n-byte unsigned type: nil unless exactly n bytes. */
  function ToNumber(sys: SystemOrder, e: Endianness, bs: seq<Byte>, n: nat): (r: Option<nat>)
    ensures r.None? <==> |bs| != n
    ensures r.Some? ==> r.value < Radix(n)
  {
    if |bs| != n then None
    else
      var x := LoadImage(sys, bs);
      Some(InOrder(sys, e, x, n))
  }

  /** Reading back, in the same order, the bytes written gives the integer written. */
  lemma {:induction false} ToNumberToData(sys: SystemOrder, e: Endianness, v: nat, n: nat)
    requires v < Radix(n)
    ensures ToNumber(sys, e, ToData(sys, e, v, n), n) == Some(v)
  {
    var x := InOrder(sys, e, v, n);
    LoadStore(sys, x, n);
    if x != v {
      ByteSwappedInvolutive(v, n);
    }
  }

  /** Big-endian bytes are the little-endian bytes reversed, on any system. */
  lemma BigIsReversedLittle(sys: SystemOrder, v: nat, n: nat)
    requires v < Radix(n)
    ensures ToData(sys, BigEndian, v, n) == Reverse(ToData(sys, LittleEndian, v, n))
  {
  }

  /** The big-endian value of a byte sequence, most significant first. */
  function FromBig(bs: seq<Byte>): (v: nat)
    ensures v < Radix(|bs|)
  {
    FromLittle(Reverse(bs))
  }

  /** Reading big-endian is independent of the system's order. */
  lemma BigEndianRead(sys: SystemOrder, bs: seq<Byte>)
    ensures ToNumber(sys, BigEndian, bs, |bs|) == Some(FromBig(bs))
  {
    if sys == SystemLittle {
      var x := FromLittle(bs);
      LittleBytesFrom(bs);
      ReverseReverse(bs);
      assert Reverse(LittleBytes(x, |bs|)) == Reverse(bs);
    }
  }

  /** The n bytes of v, most significant first, as `toData(.bigEndian)` gives them. */
  function BigBytes(v: nat, n: nat): (bs: seq<Byte>)
    ensures |bs| == n
  {
    Reverse(LittleBytes(v, n))
  }

  lemma FromBigBytes(v: nat, n: nat)
    requires v < Radix(n)
    ensures FromBig(BigBytes(v, n)) == v
  {
    ReverseReverse(LittleBytes(v, n));
    FromLittleBytes(v, n);
  }

  /** Two's-complement reading of an n-byte bit pattern. */
  function Signed(u: nat, n: nat): (v: int)
    requires u < Radix(n)
    ensures -(Radix(n) as int) <= 2 * v < Radix(n)
  {
    if 2 * u >= Radix(n) then u - Radix(n) else u
  }

  /** The bit pattern of a signed value, as `bitPattern` gives it. */
  function BitPattern(v: int, n: nat): (u: nat)
    ensures u < Radix(n)
  {
    v % Radix(n)
  }

  lemma SignedBitPattern(v: int, n: nat)
    requires -(Radix(n) as int) <= 2 * v < Radix(n)
    ensures Signed(BitPattern(v, n), n) == v
  {
    var R := Radix(n);
    if v < 0 {
      DivModUnique(v, R, -1, v + R);
    } else {
      DivModUnique(v, R, 0, v);
    }
  }

  /** `toUInt8`: exactly one byte. */
  function ToUInt8(bs: seq<Byte>): (r: Option<Byte>)
    ensures r.Some? <==> |bs| == 1
    ensures r.Some? ==> r.value == bs[0]
  {
    if |bs| == 1 then Some(bs[0]) else None
  }

  /** `toInt8`: exactly one byte, read as two's complement. */
  function ToInt8(bs: seq<Byte>): (r: Option<int>)
    ensures r.Some? <==> |bs| == 1
    ensures r.Some? ==> -128 <= r.value < 128 && BitPattern(r.value, 1) == bs[0]
  {
    if |bs| == 1 then
      var b: int := bs[0];
      if b >= 128 then
        DivModUnique(b - 256, 256, -1, b);
        Some(b - 256)
      else Some(b)
    else None
  }

  /** A signed integer written with `toData` reads back with the same order. */
  lemma SignedRoundTrip(sys: SystemOrder, e: Endianness, v: int, n: nat)
    requires -(Radix(n) as int) <= 2 * v < Radix(n)
    ensures var r := ToNumber(sys, e, ToData(sys, e, BitPattern(v, n), n), n);
            r.Some? && Signed(r.value, n) == v
  {
    ToNumberToData(sys, e, BitPattern(v, n), n);
    SignedBitPattern(v, n);
  }
}
