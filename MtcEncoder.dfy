/**
 * The MIDI Time Code encoder (`MTCEncoder`): it packs the current timecode
 * into the eight quarter-frame messages and the full-frame message of the
 * MIDI Time Code specification, and steps through the quarter frames as the
 * playhead moves.
 *
 * Timecode arithmetic and frame-rate scaling belong to a timecode library
 * the encoder calls; they are the parameters gathered in `TimecodeOps`.
 */
module MtcEncoders {
  import opened Wrappers
  import opened Bits
  import opened MtcFrameRates
  import opened MidiTypes

  /** `Timecode.Components`: plain integers, not range-checked. */
  datatype Components = Components(hours: int, minutes: int, seconds: int, frames: int, subFrames: int)

  /** The timecode library's frame rate: the default 30 fps, or any other rate it names. */
  datatype TimecodeFrameRate = Fps30 | OtherRate(id: nat)

  /** What the encoder hands to its MIDI output. */
  datatype MtcEvent =
    | QuarterFrame(dataByte: nat)
    | FullFrame(data: seq<nat>)
    | ActiveSensing

  /** The runtime traps of the source: `UInt8(_)` of a value outside 0...255, `toUInt7` of a value above 127. */
  datatype EncoderTrap = UInt8Trap | UInt7Trap

  /** The last full frame handed to the output, with its rate. */
  datatype FullFrameRecord = FullFrameRecord(components: Components, rate: MtcFrameRate)

  /** `FullFrameBehavior` of `locate`. */
  datatype FullFrameBehavior = Always | IfDifferent | Never

  /** Frames as scaled by the timecode library: whole MTC frames and the quarter frame within them. */
  datatype ScaledFrames = ScaledFrames(rawMtcFrames: int, rawMtcQuarterFrames: UInt8)

  /** The operations of the timecode library the encoder relies on. */
  datatype TimecodeOps = TimecodeOps(
    /** `TimecodeFrameRate.mtcFrameRate` */
    mtcFrameRateOf: TimecodeFrameRate -> MtcFrameRate,
    /** `scaledFrames(fromTimecodeFrames:)` of the local rate */
    scaledFrames: (TimecodeFrameRate, int) -> ScaledFrames,
    /** building a `Timecode` at the rate's direct equivalent and adding two frames, wrapping; `None` when the timecode cannot be built */
    addTwoFrames: (Components, MtcFrameRate) -> Option<Components>,
    /** the same, subtracting two frames */
    subtractTwoFrames: (Components, MtcFrameRate) -> Option<Components>,
    /** `convertToFullFrameComponents(mtcComponents:mtcQuarterFrames:)` */
    fullFrameComponents: (Components, UInt8) -> Components,
    /** `mtcIsEqual(_:_:)` */
    sameFullFrame: (Option<FullFrameRecord>, FullFrameRecord) -> bool)

  /** `UInt8(x)`. */
  function ToUInt8(x: int): (r: Result<nat, EncoderTrap>)
    ensures r.Success? <==> 0 <= x <= 255
    ensures r.Success? ==> r.value == x
  {
    if 0 <= x <= 255 then Success(x) else Failure(UInt8Trap)
  }

  // ---------------------------------------------------------------------
  // Quarter frames

  /** The component a quarter-frame piece carries part of. */
  function FieldOfPiece(piece: nat, c: Components): int
  {
    if piece <= 1 then c.frames
    else if piece <= 3 then c.seconds
    else if piece <= 5 then c.minutes
    else c.hours
  }

  /**
   * The low nibble of piece `piece`, as the MIDI Time Code table lays it out:
   * even pieces carry the low four bits of their field, pieces 1 and 7 the
   * fifth bit, pieces 3 and 5 the fifth and sixth bits, and piece 7 the
   * rate code above the hour bit.
   */
  function PieceValue(piece: nat, field: nat, rate: MtcFrameRate): nat
  {
    if piece % 2 == 0 then field % 16
    else if piece == 1 then field / 16 % 2
    else if piece == 7 then field / 16 % 2 + 2 * BitValue(rate)
    else field / 16 % 4
  }

  /** The masks and shifts of the encoder, as remainders and quotients. */
  lemma FieldMasks(b: nat)
    ensures And(b, 0x0F) == b % 16
    ensures ShiftedRight(And(b, 0x10), 4) == b / 16 % 2
    ensures ShiftedRight(And(b, 0x30), 4) == b / 16 % 4
    ensures And(b, 0x1F) == b % 32
  {
    assert Pow2(1) == 2 && Pow2(2) == 4 && Pow2(4) == 16 && Pow2(5) == 32;
    AndLowMask(b, 4);
    AndLowMask(b, 5);
    AndFieldMask(b, 4, 1);
    assert ShiftedLeft(1, 4) == 0x10;
    DivOfMultiple(b / 16 % 2, 16);
    AndFieldMask(b, 4, 2);
    assert ShiftedLeft(3, 4) == 0x30;
    DivOfMultiple(b / 16 % 4, 16);
  }

  /** The bits a piece adds to its data byte, with the source's masks and shifts. */
  function PieceBits(piece: nat, b: nat, rate: MtcFrameRate): (bits: nat)
    requires piece <= 7
    ensures bits == PieceValue(piece, b, rate)
    ensures bits < 16
  {
    FieldMasks(b);
    if piece % 2 == 0 then And(b, 0x0F)
    else if piece == 1 then ShiftedRight(And(b, 0x10), 4)
    else if piece == 7 then ShiftedRight(And(b, 0x10), 4) + ShiftedLeft(BitValue(rate), 1)
    else ShiftedRight(And(b, 0x30), 4)
  }

  /**
   * The data byte of the quarter-frame message for piece `piece` (a `UInt8`):
   * the piece number in the high nibble and its part of the timecode in the
   * low nibble.  `UInt8` drops the bits shifted out of the byte; a piece
   * above 7 adds nothing, and the byte then traps when it exceeds 127.
   */
  function QuarterFrameDataByte(piece: UInt8, c: Components, rate: MtcFrameRate): (r: Result<nat, EncoderTrap>)
    ensures r.Failure? <==>
      (piece <= 7 && !(0 <= FieldOfPiece(piece, c) <= 255)) || (piece > 7 && piece * 16 % 256 > 127)
    ensures piece <= 7 && r.Success? ==>
      r.value == piece * 16 + PieceValue(piece, FieldOfPiece(piece, c), rate) && r.value < 128
    ensures piece > 7 && r.Success? ==> r.value == piece * 16 % 256
  {
    var high := ShiftedLeft(piece, 4) % 256;
    assert Pow2(4) == 16;
    var field := if piece <= 7 then ToUInt8(FieldOfPiece(piece, c)) else Success(0);
    if field.Failure? then Failure(field.error)
    else
      var byte := high + (if piece <= 7 then PieceBits(piece, field.value, rate) else 0);
      if byte > 127 then Failure(UInt7Trap) else Success(byte)
  }

  /** A piece's byte splits into the piece number and the piece's value. */
  lemma PieceByte(piece: UInt8, c: Components, rate: MtcFrameRate)
    requires piece <= 7 && 0 <= FieldOfPiece(piece, c) <= 255
    ensures var q := QuarterFrameDataByte(piece, c, rate);
      q.Success? && q.value / 16 == piece && q.value % 16 == PieceValue(piece, FieldOfPiece(piece, c), rate)
  {
    var v := PieceValue(piece, FieldOfPiece(piece, c), rate);
    DivModUnique(piece * 16 + v, 16, piece, v);
  }

  /** The fields fit the bits MIDI Time Code gives them. */
  predicate FitsMtc(c: Components)
  {
    0 <= c.frames < 32 && 0 <= c.seconds < 64 && 0 <= c.minutes < 64 && 0 <= c.hours < 32
  }

  /** The fields are at least convertible to bytes. */
  predicate FitsBytes(c: Components)
  {
    0 <= c.frames <= 255 && 0 <= c.seconds <= 255 && 0 <= c.minutes <= 255 && 0 <= c.hours <= 255
  }

  /** The data bytes of pieces 0 through 7. */
  function QuarterFrameBytes(c: Components, rate: MtcFrameRate): seq<Result<nat, EncoderTrap>>
  {
    [QuarterFrameDataByte(0, c, rate), QuarterFrameDataByte(1, c, rate),
     QuarterFrameDataByte(2, c, rate), QuarterFrameDataByte(3, c, rate),
     QuarterFrameDataByte(4, c, rate), QuarterFrameDataByte(5, c, rate),
     QuarterFrameDataByte(6, c, rate), QuarterFrameDataByte(7, c, rate)]
  }

  /**
   * A receiver's reading of eight quarter-frame data bytes: each field is
   * put back together from its two nibbles, the rate from piece 7.
   */
  function Assemble(bytes: seq<nat>): (Components, Option<MtcFrameRate>)
    requires |bytes| == 8
  {
    (Components(
       bytes[6] % 16 + 16 * (bytes[7] % 16 % 2),
       bytes[4] % 16 + 16 * (bytes[5] % 16 % 4),
       bytes[2] % 16 + 16 * (bytes[3] % 16 % 4),
       bytes[0] % 16 + 16 * (bytes[1] % 16 % 2),
       0),
     FromBitValue(bytes[7] % 16 / 2 % 4))
  }

  /** The data bytes of the eight pieces, where they do not trap. */
  function QuarterFrameValues(c: Components, rate: MtcFrameRate): (bytes: seq<nat>)
    ensures |bytes| == 8
  {
    var qs := QuarterFrameBytes(c, rate);
    seq(8, i requires 0 <= i < 8 => if qs[i].Success? then qs[i].value else 0)
  }

  /** The low bits of a byte, split into the nibbles the quarter frames carry. */
  lemma SplitBits(b: nat)
    ensures b % 32 == b % 16 + 16 * (b / 16 % 2)
    ensures b % 64 == b % 16 + 16 * (b / 16 % 4)
  {
    DivDiv(b, 16, 2);
    DivDiv(b, 16, 4);
  }

  /** Eight bytes whose low nibbles are the pieces' values reassemble to the timecode's low bits and the rate. */
  lemma AssemblePieces(bytes: seq<nat>, c: Components, rate: MtcFrameRate)
    requires |bytes| == 8 && FitsBytes(c)
    requires forall i :: 0 <= i < 8 ==> bytes[i] % 16 == PieceValue(i, FieldOfPiece(i, c), rate)
    ensures Assemble(bytes) ==
      (Components(c.hours % 32, c.minutes % 64, c.seconds % 64, c.frames % 32, 0), Some(rate))
  {
    var r := Assemble(bytes);
    assert r.0.frames == c.frames % 32 by {
      assert bytes[0] % 16 == PieceValue(0, c.frames, rate);
      assert bytes[1] % 16 == PieceValue(1, c.frames, rate);
      TwoNibbles(c.frames, bytes[0] % 16, bytes[1] % 16, 2);
    }
    assert r.0.seconds == c.seconds % 64 by {
      assert bytes[2] % 16 == PieceValue(2, c.seconds, rate);
      assert bytes[3] % 16 == PieceValue(3, c.seconds, rate);
      TwoNibbles(c.seconds, bytes[2] % 16, bytes[3] % 16, 4);
    }
    assert r.0.minutes == c.minutes % 64 by {
      assert bytes[4] % 16 == PieceValue(4, c.minutes, rate);
      assert bytes[5] % 16 == PieceValue(5, c.minutes, rate);
      TwoNibbles(c.minutes, bytes[4] % 16, bytes[5] % 16, 4);
    }
    var n7 := bytes[7] % 16;
    assert n7 == c.hours / 16 % 2 + 2 * BitValue(rate) by {
      assert n7 == PieceValue(7, c.hours, rate);
    }
    DivModUnique(n7, 2, BitValue(rate), c.hours / 16 % 2);
    assert r.0.hours == c.hours % 32 by {
      assert bytes[6] % 16 == PieceValue(6, c.hours, rate);
      TwoNibbles(c.hours, bytes[6] % 16, n7, 2);
    }
    BitValueRoundTrip(rate);
  }

  /**
   * The eight quarter frames of any byte-sized timecode never trap, carry
   * their piece numbers 0 through 7, and reassemble to the timecode with
   * frames and hours taken modulo 32, minutes and seconds modulo 64, no
   * subframes, and the rate.
   */
  lemma QuarterFramesReassemble(c: Components, rate: MtcFrameRate)
    requires FitsBytes(c)
    ensures forall i :: 0 <= i < 8 ==> QuarterFrameBytes(c, rate)[i].Success?
    ensures forall i :: 0 <= i < 8 ==> QuarterFrameValues(c, rate)[i] / 16 == i
    ensures Assemble(QuarterFrameValues(c, rate)) ==
      (Components(c.hours % 32, c.minutes % 64, c.seconds % 64, c.frames % 32, 0), Some(rate))
  {
    var bytes := QuarterFrameValues(c, rate);
    forall i | 0 <= i < 8
      ensures QuarterFrameBytes(c, rate)[i].Success?
      ensures bytes[i] / 16 == i && bytes[i] % 16 == PieceValue(i, FieldOfPiece(i, c), rate)
    {
      PieceByte(i, c, rate);
    }
    AssemblePieces(bytes, c, rate);
  }

  /** A field put back together from its low nibble and the low bits of its high part. */
  lemma TwoNibbles(b: nat, low: nat, high: nat, m: nat)
    requires m == 2 || m == 4
    requires low == b % 16 && high % m == b / 16 % m
    ensures low + 16 * (high % m) == b % (16 * m)
  {
    DivDiv(b, 16, m);
  }

  /** In the ranges MIDI Time Code allows, the quarter frames carry the timecode exactly. */
  lemma QuarterFramesRoundTrip(c: Components, rate: MtcFrameRate)
    requires FitsMtc(c)
    ensures forall i :: 0 <= i < 8 ==> QuarterFrameBytes(c, rate)[i].Success?
    ensures Assemble(QuarterFrameValues(c, rate)) == (c.(subFrames := 0), Some(rate))
  {
    QuarterFramesReassemble(c, rate);
    ModOfSmall(c.frames, 32);
    ModOfSmall(c.seconds, 64);
    ModOfSmall(c.minutes, 64);
    ModOfSmall(c.hours, 32);
  }

  // ---------------------------------------------------------------------
  // Full frames

  /**
   * The four data bytes of the full-frame message: the hour byte is the
   * low five bits of the hours with the rate code above them (`0rrhhhhh`),
   * then minutes, seconds and frames as bytes.
   */
  function FullFrameData(c: Components, rate: MtcFrameRate): (r: Result<seq<nat>, EncoderTrap>)
    ensures r.Success? <==> FitsBytes(c)
    ensures r.Success? ==>
      |r.value| == 4 && r.value[0] < 128 &&
      r.value[0] % 32 == c.hours % 32 && r.value[0] / 32 == BitValue(rate) &&
      r.value[1..] == [c.minutes, c.seconds, c.frames]
  {
    match ToUInt8(c.hours)
    case Failure(e) => Failure(e)
    case Success(h) =>
      match ToUInt8(c.minutes)
      case Failure(e) => Failure(e)
      case Success(m) =>
        match ToUInt8(c.seconds)
        case Failure(e) => Failure(e)
        case Success(s) =>
          match ToUInt8(c.frames)
          case Failure(e) => Failure(e)
          case Success(f) =>
            FieldMasks(h);
            assert Pow2(5) == 32;
            var hourByte := And(h, 0x1F) + ShiftedLeft(BitValue(rate), 5);
            DivModUnique(hourByte, 32, BitValue(rate), h % 32);
            Success([hourByte, m, s, f])
  }

  /**
   * The event of `generateFullFrameMIDIMessage`: the universal real-time
   * SysEx `F0 7F 7F 01 01 hh mm ss ff F7`, or active sensing when a data
   * byte does not fit seven bits and the SysEx cannot be built.
   */
  function FullFrameEvent(c: Components, rate: MtcFrameRate): (r: Result<MtcEvent, EncoderTrap>)
    ensures r.Success? <==> FitsBytes(c)
    ensures r.Success? && r.value.FullFrame? ==> FullFrameData(c, rate) == Success(r.value.data)
    ensures r.Success? ==> (r.value.ActiveSensing? <==> !(c.minutes < 128 && c.seconds < 128 && c.frames < 128))
  {
    match FullFrameData(c, rate)
    case Failure(e) => Failure(e)
    case Success(data) =>
      assert data == [data[0], c.minutes, c.seconds, c.frames];
      if data[0] < 128 && data[1] < 128 && data[2] < 128 && data[3] < 128 then Success(FullFrame(data))
      else Success(ActiveSensing)
  }

  /** The hour byte of a full frame gives back the low hour bits and the rate. */
  lemma FullFrameHourByte(c: Components, rate: MtcFrameRate)
    requires FitsBytes(c)
    ensures FullFrameData(c, rate).Success?
    ensures var hourByte := FullFrameData(c, rate).value[0];
      hourByte % 32 == c.hours % 32 && FromBitValue(hourByte / 32) == Some(rate)
  {
    BitValueRoundTrip(rate);
  }

  // ---------------------------------------------------------------------
  // The encoder

  class MtcEncoder {
    /** The MTC timecode last formed. */
    var mtcComponents: Components
    /** The local (desired) frame rate. */
    var localFrameRate: TimecodeFrameRate
    /** The base MTC rate transmitted. */
    var mtcFrameRate: MtcFrameRate
    /** The quarter-frame piece last formed, a `UInt8` meant to stay in 0...7. */
    var mtcQuarterFrame: UInt8
    /** Whether the quarter-frame stream has started since the last locate. */
    var streamStarted: bool
    /** The last full frame handed to the output. */
    var lastTransmitFullFrame: Option<FullFrameRecord>
    /** Every event handed to the MIDI output, in order. */
    var sent: seq<MtcEvent>

    /** The quarter-frame counter is a valid piece number. */
    predicate PieceInRange()
      reads this
    {
      mtcQuarterFrame <= 7
    }

    constructor()
      ensures mtcComponents == Components(0, 0, 0, 0, 0)
      ensures localFrameRate == Fps30 && mtcFrameRate == Mtc30
      ensures mtcQuarterFrame == 0 && !streamStarted
      ensures lastTransmitFullFrame == None && sent == []
      ensures PieceInRange()
    {
      mtcComponents := Components(0, 0, 0, 0, 0);
      localFrameRate := Fps30;
      mtcFrameRate := Mtc30;
      mtcQuarterFrame := 0;
      streamStarted := false;
      lastTransmitFullFrame := None;
      sent := [];
    }

    /** `setLocalFrameRate`: the MTC rate follows the local rate. */
    method SetLocalFrameRate(rate: TimecodeFrameRate, ops: TimecodeOps)
      modifies this
      ensures localFrameRate == rate && mtcFrameRate == ops.mtcFrameRateOf(rate)
      ensures mtcComponents == old(mtcComponents) && mtcQuarterFrame == old(mtcQuarterFrame)
      ensures streamStarted == old(streamStarted) && lastTransmitFullFrame == old(lastTransmitFullFrame)
      ensures sent == old(sent)
    {
      localFrameRate := rate;
      mtcFrameRate := ops.mtcFrameRateOf(rate);
    }

    /**
     * `sendQuarterFrameMIDIMessage`: hands the current piece's message to the
     * output and forgets the last full frame.  A trap leaves everything as it was.
     */
    method SendQuarterFrame() returns (trap: Option<EncoderTrap>)
      modifies this
      ensures var m := QuarterFrameDataByte(old(mtcQuarterFrame), old(mtcComponents), old(mtcFrameRate));
        if m.Failure? then trap == Some(m.error) && sent == old(sent) && lastTransmitFullFrame == old(lastTransmitFullFrame)
        else trap == None && sent == old(sent) + [QuarterFrame(m.value)] && lastTransmitFullFrame == None
      ensures mtcComponents == old(mtcComponents) && localFrameRate == old(localFrameRate)
      ensures mtcFrameRate == old(mtcFrameRate) && mtcQuarterFrame == old(mtcQuarterFrame)
      ensures streamStarted == old(streamStarted)
      ensures old(PieceInRange()) ==> (trap.None? <==> 0 <= FieldOfPiece(mtcQuarterFrame, mtcComponents) <= 255)
    {
      var m := QuarterFrameDataByte(mtcQuarterFrame, mtcComponents, mtcFrameRate);
      if m.Failure? {
        return Some(m.error);
      }
      sent := sent + [QuarterFrame(m.value)];
      lastTransmitFullFrame := None;
      return None;
    }

    /**
     * `sendFullFrameMIDIMessage`: hands the full frame of the current
     * position to the output and records it with the rate.  A trap leaves
     * everything as it was.
     */
    method SendFullFrame(ops: TimecodeOps) returns (trap: Option<EncoderTrap>)
      modifies this
      ensures var full := ops.fullFrameComponents(old(mtcComponents), old(mtcQuarterFrame));
        var ev := FullFrameEvent(full, old(mtcFrameRate));
        (if ev.Failure? then trap == Some(ev.error) && sent == old(sent) && lastTransmitFullFrame == old(lastTransmitFullFrame)
         else (trap == None && sent == old(sent) + [ev.value] &&
           lastTransmitFullFrame == Some(FullFrameRecord(full, old(mtcFrameRate)))))
      ensures mtcComponents == old(mtcComponents) && localFrameRate == old(localFrameRate)
      ensures mtcFrameRate == old(mtcFrameRate) && mtcQuarterFrame == old(mtcQuarterFrame)
      ensures streamStarted == old(streamStarted)
    {
      var full := ops.fullFrameComponents(mtcComponents, mtcQuarterFrame);
      var ev := FullFrameEvent(full, mtcFrameRate);
      if ev.Failure? {
        return Some(ev.error);
      }
      sent := sent + [ev.value];
      lastTransmitFullFrame := Some(FullFrameRecord(full, mtcFrameRate));
      return None;
    }

    /**
     * `locate(to:frameRate:transmitFullFrame:)`: moves to `components`,
     * taking the frames as scaled to MTC, dropping the subframes, setting
     * the piece from the scaled quarter frames and restarting the stream;
     * then sends a full frame always, only when it differs from the last
     * one sent, or never.
     */
    method Locate(components: Components, frameRate: Option<TimecodeFrameRate>, behavior: FullFrameBehavior, ops: TimecodeOps)
      returns (trap: Option<EncoderTrap>)
      modifies this
      ensures localFrameRate == (if frameRate.Some? then frameRate.value else old(localFrameRate))
      ensures mtcFrameRate == (if frameRate.Some? then ops.mtcFrameRateOf(frameRate.value) else old(mtcFrameRate))
      ensures var scaled := ops.scaledFrames(localFrameRate, components.frames);
        mtcComponents == components.(frames := scaled.rawMtcFrames, subFrames := 0) &&
        mtcQuarterFrame == scaled.rawMtcQuarterFrames
      ensures !streamStarted
      ensures var record := FullFrameRecord(ops.fullFrameComponents(mtcComponents, mtcQuarterFrame), mtcFrameRate);
        var transmits := behavior == Always || (behavior == IfDifferent && !ops.sameFullFrame(old(lastTransmitFullFrame), record));
        var ev := FullFrameEvent(record.components, mtcFrameRate);
        if !transmits then trap == None && sent == old(sent) && lastTransmitFullFrame == old(lastTransmitFullFrame)
        else if ev.Failure? then trap == Some(ev.error) && sent == old(sent) && lastTransmitFullFrame == old(lastTransmitFullFrame)
        else trap == None && sent == old(sent) + [ev.value] && lastTransmitFullFrame == Some(record)
    {
      if frameRate.Some? {
        SetLocalFrameRate(frameRate.value, ops);
      }
      var scaled := ops.scaledFrames(localFrameRate, components.frames);
      var newComponents := components.(frames := scaled.rawMtcFrames, subFrames := 0);
      mtcComponents := newComponents;
      mtcQuarterFrame := scaled.rawMtcQuarterFrames;
      streamStarted := false;
      trap := None;
      match behavior {
        case Always =>
          trap := SendFullFrame(ops);
        case IfDifferent =>
          var full := ops.fullFrameComponents(newComponents, scaled.rawMtcQuarterFrames);
          if !ops.sameFullFrame(lastTransmitFullFrame, FullFrameRecord(full, mtcFrameRate)) {
            trap := SendFullFrame(ops);
          }
        case Never =>
      }
    }

    /**
     * `increment`: once the stream has started, moves to the next piece,
     * and from piece 7 back to piece 0 two frames later (returning without
     * sending when the timecode cannot be built); the first call after a
     * locate stays on the current piece.  Then sends the piece's quarter frame.
     */
    method Increment(ops: TimecodeOps) returns (trap: Option<EncoderTrap>)
      modifies this
      ensures localFrameRate == old(localFrameRate) && mtcFrameRate == old(mtcFrameRate)
      ensures var advanced := ops.addTwoFrames(old(mtcComponents), old(mtcFrameRate));
        if old(streamStarted) && old(mtcQuarterFrame) >= 7 && advanced.None? then
          trap == None && mtcComponents == old(mtcComponents) && mtcQuarterFrame == old(mtcQuarterFrame) &&
          streamStarted && sent == old(sent) && lastTransmitFullFrame == old(lastTransmitFullFrame)
        else
          mtcComponents == (if old(streamStarted) && old(mtcQuarterFrame) >= 7 then advanced.value else old(mtcComponents)) &&
          mtcQuarterFrame == (if !old(streamStarted) then old(mtcQuarterFrame) else if old(mtcQuarterFrame) < 7 then old(mtcQuarterFrame) + 1 else 0) &&
          var m := QuarterFrameDataByte(mtcQuarterFrame, mtcComponents, mtcFrameRate);
          if m.Failure? then trap == Some(m.error) && sent == old(sent) && lastTransmitFullFrame == old(lastTransmitFullFrame)
          else trap == None && streamStarted && sent == old(sent) + [QuarterFrame(m.value)] && lastTransmitFullFrame == None
      ensures old(PieceInRange()) ==> PieceInRange()
    {
      if streamStarted {
        if mtcQuarterFrame < 7 {
          mtcQuarterFrame := mtcQuarterFrame + 1;
        } else {
          var advanced := ops.addTwoFrames(mtcComponents, mtcFrameRate);
          if advanced.None? {
            return None;
          }
          mtcComponents := advanced.value;
          mtcQuarterFrame := 0;
        }
      }
      trap := SendQuarterFrame();
      if trap.None? {
        streamStarted := true;
      }
    }

    /**
     * `decrement`: the mirror of `increment`; from piece 0 it moves back to
     * piece 7 two frames earlier.
     */
    method Decrement(ops: TimecodeOps) returns (trap: Option<EncoderTrap>)
      modifies this
      ensures localFrameRate == old(localFrameRate) && mtcFrameRate == old(mtcFrameRate)
      ensures var retreated := ops.subtractTwoFrames(old(mtcComponents), old(mtcFrameRate));
        if old(streamStarted) && old(mtcQuarterFrame) == 0 && retreated.None? then
          trap == None && mtcComponents == old(mtcComponents) && mtcQuarterFrame == old(mtcQuarterFrame) &&
          streamStarted && sent == old(sent) && lastTransmitFullFrame == old(lastTransmitFullFrame)
        else
          mtcComponents == (if old(streamStarted) && old(mtcQuarterFrame) == 0 then retreated.value else old(mtcComponents)) &&
          mtcQuarterFrame == (if !old(streamStarted) then old(mtcQuarterFrame) else if old(mtcQuarterFrame) > 0 then old(mtcQuarterFrame) - 1 else 7) &&
          var m := QuarterFrameDataByte(mtcQuarterFrame, mtcComponents, mtcFrameRate);
          if m.Failure? then trap == Some(m.error) && sent == old(sent) && lastTransmitFullFrame == old(lastTransmitFullFrame)
          else trap == None && streamStarted && sent == old(sent) + [QuarterFrame(m.value)] && lastTransmitFullFrame == None
      ensures old(PieceInRange()) ==> PieceInRange()
    {
      if streamStarted {
        if mtcQuarterFrame > 0 {
          mtcQuarterFrame := mtcQuarterFrame - 1;
        } else {
          var retreated := ops.subtractTwoFrames(mtcComponents, mtcFrameRate);
          if retreated.None? {
            return None;
          }
          mtcComponents := retreated.value;
          mtcQuarterFrame := 7;
        }
      }
      trap := SendQuarterFrame();
      if trap.None? {
        streamStarted := true;
      }
    }
  }
}
