/**
 * The four base frame rates MIDI Time Code can carry (`MTCFrameRate`) and
 * their two-bit code, which travels in the hour byte of a full-frame
 * message and in quarter-frame piece 7.
 */
module MtcFrameRates {
  import opened Wrappers

  datatype MtcFrameRate = Mtc24 | Mtc25 | Mtc2997d | Mtc30

  /** `init?(_ bitValue:)`: the rate for a two-bit code, nothing for any other value. */
  function FromBitValue(bits: nat): (r: Option<MtcFrameRate>)
    ensures r.None? <==> bits > 3
  {
    if bits == 0 then Some(Mtc24)
    else if bits == 1 then Some(Mtc25)
    else if bits == 2 then Some(Mtc2997d)
    else if bits == 3 then Some(Mtc30)
    else None
  }

  /** `bitValue`: the code of the rate; it fits the two-bit rate field. */
  function BitValue(rate: MtcFrameRate): (bits: nat)
    ensures bits <= 3
  {
    match rate
    case Mtc24 => 0
    case Mtc25 => 1
    case Mtc2997d => 2
    case Mtc30 => 3
  }

  /** `isDrop`. */
  predicate IsDrop(rate: MtcFrameRate)
  {
    rate == Mtc2997d
  }

  /** `fpsValueForScaling`: the whole-frame count per second used when scaling frames. */
  function FpsValueForScaling(rate: MtcFrameRate): (fps: nat)
    ensures fps == 30 <==> (rate == Mtc2997d || rate == Mtc30)
    ensures rate == Mtc24 ==> fps == 24
    ensures rate == Mtc25 ==> fps == 25
  {
    match rate
    case Mtc24 => 24
    case Mtc25 => 25
    case Mtc2997d => 30
    case Mtc30 => 30
  }

  /** Every rate is read back from its code. */
  lemma BitValueRoundTrip(rate: MtcFrameRate)
    ensures FromBitValue(BitValue(rate)) == Some(rate)
  {
  }

  /** Every code a rate is read from is that rate's code, so distinct rates have distinct codes. */
  lemma FromBitValueRoundTrip(bits: nat)
    requires bits <= 3
    ensures FromBitValue(bits).Some? && BitValue(FromBitValue(bits).value) == bits
  {
  }

  /** Drop-frame is the one rate whose code is 2, and the only one flagged as drop. */
  lemma DropIsCodeTwo(rate: MtcFrameRate)
    ensures IsDrop(rate) <==> BitValue(rate) == 2
  {
  }
}
