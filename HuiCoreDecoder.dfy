/**
 * `HUICoreDecoder`: turns the MIDI events of a HUI connection into HUI core
 * events.  SysEx display messages and level meters decode on their own; the
 * control-change messages go through a small state machine that keeps the
 * eight fader MSBs and the zone of a pending switch message.
 *
 * The pure parts are functions; `ControlStep` and `DecodeEvent` specify the
 * state change, and the class's methods are proved to perform exactly that.
 */
module HuiCoreDecoders {
  import opened Wrappers
  import opened MidiTypes
  import HuiTables
  import opened HuiLookups
  import opened HuiWire

  /** A display character: a known code, or `.unknown()` for a code the display has no character for. */
  datatype DisplayChar = Known(code: UInt8) | Unknown

  /** `HUI…DisplayCharacter(rawValue:) ?? .unknown()` for a display that knows `count` codes. */
  function CharOf(code: UInt8, count: nat): (c: DisplayChar)
    ensures c.Known? <==> code < count
    ensures c.Known? ==> c.code == code
  {
    if code < count then Known(code) else Unknown
  }

  function CharsOf(codes: seq<UInt8>, count: nat): (cs: seq<DisplayChar>)
    ensures |cs| == |codes|
    ensures forall i :: 0 <= i < |codes| ==> cs[i] == CharOf(codes[i], count)
  {
    seq(|codes|, i requires 0 <= i < |codes| => CharOf(codes[i], count))
  }

  /** `HUIVPotValue`: an LED ring preset sent to a surface, or a turn sent to a host. */
  datatype VPotValue = Display(rawIndex: UInt7) | Delta(delta: int)

  /** `HUICoreEvent`. */
  datatype CoreEvent =
    | Ping
    | SystemResetEvent
    | ChannelDisplay(channelStrip: UInt4, text: seq<DisplayChar>)
    | SelectAssignDisplay(text: seq<DisplayChar>)
    | LargeDisplay(slices: map<UInt4, seq<DisplayChar>>)
    | TimeDisplay(charsRightToLeft: seq<DisplayChar>)
    | FaderLevelEvent(channelStrip: UInt4, level: UInt14)
    | JogWheel(delta: int)
    | VPotEvent(vPot: nat, value: VPotValue)
    | SwitchEvent(huiSwitch: HuiSwitch, state: bool)
    | LevelMeter(channelStrip: UInt4, side: Side, meterLevel: nat)

  /** `HUIDecoderError`, plus the runtime traps of the code as written. */
  datatype DecoderError = Malformed | Unhandled | Crash(trap: Trap)

  // ---------------------------------------------------------------------
  // SysEx displays
  // ---------------------------------------------------------------------

  /** The checks before the display type: manufacturer, two sub-IDs and at least one byte after them. */
  function SysExBody(manufacturer: seq<UInt8>, data: seq<UInt8>, k: HuiConstants): (r: Result<seq<UInt8>, DecoderError>)
    ensures r.Success? <==> manufacturer == k.manufacturer && |data| >= 3 && data[0] == k.subId1 && data[1] == k.subId2
    ensures r.Success? ==> r.value == data[2..]
    ensures r.Failure? ==> r.error == Malformed
  {
    if manufacturer != k.manufacturer then Failure(Malformed)
    else if |data| < 2 then Failure(Malformed)
    else if data[0] != k.subId1 || data[1] != k.subId2 then Failure(Malformed)
    else if |data| == 2 then Failure(Malformed)
    else Success(data[2..])
  }

  /** One small-display slice: channel 0-7 is a channel strip's name, 8 the select-assign display, anything else malformed. */
  function SmallSlice(slice: seq<UInt8>, k: HuiConstants): (r: Result<CoreEvent, DecoderError>)
    requires |slice| == 5
    ensures r.Success? <==> slice[0] <= 8
    ensures r.Success? && slice[0] <= 7 ==> r.value == ChannelDisplay(slice[0], CharsOf(slice[1..], k.smallCharCount))
    ensures r.Success? && slice[0] == 8 ==> r.value == SelectAssignDisplay(CharsOf(slice[1..], k.smallCharCount))
  {
    var text := CharsOf(slice[1..], k.smallCharCount);
    if slice[0] <= 7 then Success(ChannelDisplay(slice[0], text))
    else if slice[0] == 8 then Success(SelectAssignDisplay(text))
    else Failure(Malformed)
  }

  /** `slices.map { … }` that throws: one event per slice, or the error of the first bad slice. */
  function SmallSlices(slices: seq<seq<UInt8>>, k: HuiConstants): (r: Result<seq<CoreEvent>, DecoderError>)
    requires forall j :: 0 <= j < |slices| ==> |slices[j]| == 5
    ensures r.Success? <==> forall j :: 0 <= j < |slices| ==> slices[j][0] <= 8
    ensures r.Success? ==> |r.value| == |slices|
    ensures r.Success? ==> forall j :: 0 <= j < |slices| ==> r.value[j] == SmallSlice(slices[j], k).value
    ensures r.Failure? ==> r.error == Malformed
  {
    if slices == [] then Success([])
    else
      match SmallSlice(slices[0], k)
      case Failure(e) => Failure(e)
      case Success(ev) =>
        match SmallSlices(slices[1..], k)
        case Failure(e) => Failure(e)
        case Success(rest) => Success([ev] + rest)
  }

  /**
   * The large display as intended: `reduce(into: [:])` over 11-byte slices,
   * each storing its own ten letters under its slice index; an index that
   * does not fit four bits is malformed.
   */
  function LargeSlices(base: map<UInt4, seq<DisplayChar>>, slices: seq<seq<UInt8>>, k: HuiConstants)
    : (r: Result<map<UInt4, seq<DisplayChar>>, DecoderError>)
    requires forall j :: 0 <= j < |slices| ==> |slices[j]| == 11
    ensures r.Success? <==> forall j :: 0 <= j < |slices| ==> slices[j][0] < 16
    ensures r.Failure? ==> r.error == Malformed
    decreases |slices|
  {
    if slices == [] then Success(base)
    else if slices[0][0] >= 16 then Failure(Malformed)
    else LargeSlices(base[slices[0][0] := CharsOf(slices[0][1..], k.largeCharCount)], slices[1..], k)
  }

  /** The large display as written: every slice stores the letters of the FIRST slice, `contiguousSlices[atOffsets: 1 ... 10]`. */
  function LargeSlicesAsWritten(base: map<UInt4, seq<DisplayChar>>, slices: seq<seq<UInt8>>, letters: seq<UInt8>, k: HuiConstants)
    : (r: Result<map<UInt4, seq<DisplayChar>>, DecoderError>)
    requires forall j :: 0 <= j < |slices| ==> |slices[j]| == 11
    ensures r.Success? <==> forall j :: 0 <= j < |slices| ==> slices[j][0] < 16
    ensures r.Failure? ==> r.error == Malformed
    decreases |slices|
  {
    if slices == [] then Success(base)
    else if slices[0][0] >= 16 then Failure(Malformed)
    else LargeSlicesAsWritten(base[slices[0][0] := CharsOf(letters, k.largeCharCount)], slices[1..], letters, k)
  }

  /** An index no slice names keeps what `base` had for it. */
  lemma {:induction false} LargeSlicesKeepsOthers(base: map<UInt4, seq<DisplayChar>>, slices: seq<seq<UInt8>>, k: HuiConstants, i: UInt4)
    requires forall j :: 0 <= j < |slices| ==> |slices[j]| == 11 && slices[j][0] < 16
    requires forall j :: 0 <= j < |slices| ==> slices[j][0] != i
    ensures LargeSlices(base, slices, k).Success?
    ensures i in LargeSlices(base, slices, k).value <==> i in base
    ensures i in base ==> LargeSlices(base, slices, k).value[i] == base[i]
    decreases |slices|
  {
    if slices != [] {
      var next := base[slices[0][0] := CharsOf(slices[0][1..], k.largeCharCount)];
      assert forall j :: 0 <= j < |slices| - 1 ==> slices[1..][j] == slices[j + 1];
      LargeSlicesKeepsOthers(next, slices[1..], k, i);
    }
  }

  /** Each slice index ends up holding the letters of the last slice with that index. */
  lemma {:induction false} LargeSlicesLastWins(base: map<UInt4, seq<DisplayChar>>, slices: seq<seq<UInt8>>, k: HuiConstants, j: nat)
    requires forall j :: 0 <= j < |slices| ==> |slices[j]| == 11 && slices[j][0] < 16
    requires j < |slices| && forall j' :: j < j' < |slices| ==> slices[j'][0] != slices[j][0]
    ensures LargeSlices(base, slices, k).Success?
    ensures slices[j][0] in LargeSlices(base, slices, k).value
    ensures LargeSlices(base, slices, k).value[slices[j][0]] == CharsOf(slices[j][1..], k.largeCharCount)
    decreases |slices|
  {
    var next := base[slices[0][0] := CharsOf(slices[0][1..], k.largeCharCount)];
    var rest := slices[1..];
    assert forall j' :: 0 <= j' < |rest| ==> rest[j'] == slices[j' + 1];
    if j == 0 {
      LargeSlicesKeepsOthers(next, rest, k, slices[0][0]);
    } else {
      LargeSlicesLastWins(next, rest, k, j - 1);
    }
  }

  /** As written, every stored slice holds the same letters, whatever letters the slice carried. */
  lemma {:induction false} LargeSlicesAsWrittenRepeatsLetters(base: map<UInt4, seq<DisplayChar>>, slices: seq<seq<UInt8>>, letters: seq<UInt8>, k: HuiConstants)
    requires forall j :: 0 <= j < |slices| ==> |slices[j]| == 11 && slices[j][0] < 16
    ensures LargeSlicesAsWritten(base, slices, letters, k).Success?
    ensures forall i :: i in LargeSlicesAsWritten(base, slices, letters, k).value ==>
      (i in base && LargeSlicesAsWritten(base, slices, letters, k).value[i] == base[i]) ||
      LargeSlicesAsWritten(base, slices, letters, k).value[i] == CharsOf(letters, k.largeCharCount)
    decreases |slices|
  {
    if slices != [] {
      var next := base[slices[0][0] := CharsOf(letters, k.largeCharCount)];
      LargeSlicesAsWrittenRepeatsLetters(next, slices[1..], letters, k);
    }
  }

  /** The time display: one to eight codes after the type byte, right-to-left; otherwise malformed. */
  function TimeDisplayPart(d: seq<UInt8>, k: HuiConstants): (r: Result<seq<CoreEvent>, DecoderError>)
    requires |d| >= 1
    ensures r.Success? <==> 2 <= |d| <= 9
    ensures r.Success? ==> r.value == [TimeDisplay(CharsOf(d[1..], k.timeCharCount))]
    ensures r.Failure? ==> r.error == Malformed
  {
    if |d| <= 1 then Failure(Malformed)
    else if |d| - 1 > 8 then Failure(Malformed)
    else Success([TimeDisplay(CharsOf(d[1..], k.timeCharCount))])
  }

  /** The large display part as written, from the type byte on: nothing after the type byte traps (`1 ... 0`). */
  function LargePartAsWritten(d: seq<UInt8>, k: HuiConstants): (r: Result<seq<CoreEvent>, DecoderError>)
    requires |d| >= 1
    ensures |d| == 1 ==> r == Failure(Crash(InvalidRange))
    ensures |d| > 1 ==> (r.Success? <==> LargePart(d, k).Success?)
    ensures r.Failure? && |d| > 1 ==> r.error == Malformed
    ensures r.Success? ==> |r.value| == 1 && r.value[0].LargeDisplay?
  {
    if |d| == 1 then Failure(Crash(InvalidRange))
    else if (|d| - 1) % 11 != 0 then Failure(Malformed)
    else
      match LargeSlicesAsWritten(map[], SplitEvery(d[1..], 11), d[2..12], k)
      case Failure(e) => Failure(e)
      case Success(m) => Success([LargeDisplay(m)])
  }

  /** The large display part as intended, from the type byte on: eleven-byte slices, each with its own letters. */
  function LargePart(d: seq<UInt8>, k: HuiConstants): (r: Result<seq<CoreEvent>, DecoderError>)
    requires |d| >= 1
    ensures r.Failure? ==> r.error == Malformed
    ensures r.Success? <==> (|d| > 1 && (|d| - 1) % 11 == 0 &&
      forall j :: 0 <= j < |SplitEvery(d[1..], 11)| ==> SplitEvery(d[1..], 11)[j][0] < 16)
    ensures r.Success? ==> |r.value| == 1 && r.value[0].LargeDisplay?
  {
    if (|d| - 1) % 11 != 0 || |d| == 1 then Failure(Malformed)
    else
      match LargeSlices(map[], SplitEvery(d[1..], 11), k)
      case Failure(e) => Failure(e)
      case Success(m) => Success([LargeDisplay(m)])
  }

  /**
   * `parse(sysExPayload:)` as written: a small or large display message with
   * nothing after the type byte forms the range `1 ... 0`, which traps, and
   * the large display repeats the first slice's letters.
   */
  function ParseSysExAsWritten(manufacturer: seq<UInt8>, data: seq<UInt8>, k: HuiConstants): (r: Result<seq<CoreEvent>, DecoderError>)
    ensures r.Failure? ==> r.error == Malformed || r.error == Crash(InvalidRange)
    ensures SysExBody(manufacturer, data, k).Failure? ==> r.Failure?
    ensures r.Success? ==> ParseSysEx(manufacturer, data, k).Success?
  {
    match SysExBody(manufacturer, data, k)
    case Failure(e) => Failure(e)
    case Success(d) =>
      if d[0] == HuiTables.SmallDisplayByte then
        if |d| == 1 then Failure(Crash(InvalidRange))
        else if (|d| - 1) % 5 != 0 then Failure(Malformed)
        else SmallSlices(SplitEvery(d[1..], 5), k)
      else if d[0] == HuiTables.LargeDisplayByte then
        LargePartAsWritten(d, k)
      else if d[0] == HuiTables.TimeDisplayByte then TimeDisplayPart(d, k)
      else Failure(Malformed)
  }

  /**
   * `parse(sysExPayload:)` as intended: an empty small or large display
   * message is malformed (as an empty time display already is), and each
   * large-display slice keeps its own letters.
   */
  function ParseSysEx(manufacturer: seq<UInt8>, data: seq<UInt8>, k: HuiConstants): (r: Result<seq<CoreEvent>, DecoderError>)
    ensures r.Failure? ==> r.error == Malformed
    ensures SysExBody(manufacturer, data, k).Failure? ==> r.Failure?
  {
    match SysExBody(manufacturer, data, k)
    case Failure(e) => Failure(e)
    case Success(d) =>
      if d[0] == HuiTables.SmallDisplayByte then
        if (|d| - 1) % 5 != 0 || |d| == 1 then Failure(Malformed)
        else SmallSlices(SplitEvery(d[1..], 5), k)
      else if d[0] == HuiTables.LargeDisplayByte then
        LargePart(d, k)
      else if d[0] == HuiTables.TimeDisplayByte then TimeDisplayPart(d, k)
      else Failure(Malformed)
  }

  /** The small display yields one event per five-byte slice and fails exactly when a slice's channel is above 8. */
  lemma SmallDisplayEvents(manufacturer: seq<UInt8>, data: seq<UInt8>, k: HuiConstants)
    requires SysExBody(manufacturer, data, k).Success?
    requires data[2] == HuiTables.SmallDisplayByte && |data| > 3 && (|data| - 3) % 5 == 0
    ensures ParseSysEx(manufacturer, data, k).Success? <==>
      forall j :: 0 <= j < |SplitEvery(data[3..], 5)| ==> SplitEvery(data[3..], 5)[j][0] <= 8
    ensures ParseSysEx(manufacturer, data, k).Success? ==> |ParseSysEx(manufacturer, data, k).value| * 5 == |data| - 3
  {
    var d := data[2..];
    assert d[1..] == data[3..];
    SplitEveryFlattens(data[3..], 5);
  }

  /** A small display payload whose length after the type byte is not a multiple of five is malformed. */
  lemma SmallDisplayLengthChecked(manufacturer: seq<UInt8>, data: seq<UInt8>, k: HuiConstants)
    requires SysExBody(manufacturer, data, k).Success?
    requires data[2] == HuiTables.SmallDisplayByte && (|data| - 3) % 5 != 0
    ensures ParseSysEx(manufacturer, data, k) == Failure(Malformed)
    ensures ParseSysExAsWritten(manufacturer, data, k) == Failure(Malformed)
  {
  }

  /** More than eight time-display characters are malformed. */
  lemma TimeDisplayAtMostEight(manufacturer: seq<UInt8>, data: seq<UInt8>, k: HuiConstants)
    requires SysExBody(manufacturer, data, k).Success?
    requires data[2] == HuiTables.TimeDisplayByte
    ensures ParseSysEx(manufacturer, data, k).Success? <==> 4 <= |data| <= 11
    ensures ParseSysEx(manufacturer, data, k).Success? ==>
      ParseSysEx(manufacturer, data, k).value == [TimeDisplay(CharsOf(data[3..], k.timeCharCount))]
  {
    assert data[2..][1..] == data[3..];
  }

  /** A display type other than small, large and time is malformed. */
  lemma UnknownDisplayTypeMalformed(manufacturer: seq<UInt8>, data: seq<UInt8>, k: HuiConstants)
    requires SysExBody(manufacturer, data, k).Success?
    requires data[2] !in {HuiTables.SmallDisplayByte, HuiTables.LargeDisplayByte, HuiTables.TimeDisplayByte}
    ensures ParseSysEx(manufacturer, data, k) == Failure(Malformed)
    ensures ParseSysExAsWritten(manufacturer, data, k) == Failure(Malformed)
  {
  }

  /** As written, a small or large display message with no byte after the type byte traps. */
  lemma EmptyDisplayMessageTraps(manufacturer: seq<UInt8>, k: HuiConstants)
    requires manufacturer == k.manufacturer
    ensures ParseSysExAsWritten(manufacturer, [k.subId1, k.subId2, HuiTables.SmallDisplayByte], k) == Failure(Crash(InvalidRange))
    ensures ParseSysExAsWritten(manufacturer, [k.subId1, k.subId2, HuiTables.LargeDisplayByte], k) == Failure(Crash(InvalidRange))
    ensures ParseSysEx(manufacturer, [k.subId1, k.subId2, HuiTables.SmallDisplayByte], k) == Failure(Malformed)
    ensures ParseSysEx(manufacturer, [k.subId1, k.subId2, HuiTables.LargeDisplayByte], k) == Failure(Malformed)
  {
    var data := [k.subId1, k.subId2, HuiTables.SmallDisplayByte];
    assert data[2..] == [HuiTables.SmallDisplayByte];
    var data2 := [k.subId1, k.subId2, HuiTables.LargeDisplayByte];
    assert data2[2..] == [HuiTables.LargeDisplayByte];
  }

  /** Outside those two messages and the large display, the code as written and the intended decoder agree. */
  lemma AsWrittenAgreesOffLargeDisplay(manufacturer: seq<UInt8>, data: seq<UInt8>, k: HuiConstants)
    requires SysExBody(manufacturer, data, k).Success? ==> |data| > 3 && data[2] != HuiTables.LargeDisplayByte
    ensures ParseSysExAsWritten(manufacturer, data, k) == ParseSysEx(manufacturer, data, k)
  {
  }

  /**
   * Two large-display slices for zones 0 and 1: the intended decoder stores
   * each slice's letters; the code as written gives zone 1 the letters of
   * zone 0, whatever zone 1's message carried.
   */
  lemma LargeDisplaySecondSliceLetters(s0: seq<UInt8>, s1: seq<UInt8>, k: HuiConstants)
    requires |s0| == 11 && |s1| == 11 && s0[0] == 0 && s1[0] == 1
    ensures var d := [HuiTables.LargeDisplayByte] + s0 + s1;
      var r := LargePart(d, k);
      var w := LargePartAsWritten(d, k);
      r.Success? && 1 in r.value[0].slices && r.value[0].slices[1] == CharsOf(s1[1..], k.largeCharCount) &&
      w.Success? && 1 in w.value[0].slices && w.value[0].slices[1] == CharsOf(s0[1..], k.largeCharCount)
  {
    var d := [HuiTables.LargeDisplayByte] + s0 + s1;
    assert d[1..] == s0 + s1;
    assert (s0 + s1)[..11] == s0 && (s0 + s1)[11..] == s1;
    assert s1[..11] == s1 && s1[11..] == [];
    assert SplitEvery(s1, 11) == [s1];
    assert SplitEvery(d[1..], 11) == [s0, s1];
    assert d[2..12] == s0[1..];
    var m0: map<UInt4, seq<DisplayChar>> := map[];
    var m1 := m0[0 := CharsOf(s0[1..], k.largeCharCount)];
    var m2 := m1[1 := CharsOf(s1[1..], k.largeCharCount)];
    assert LargeSlices(m1, [s1], k) == LargeSlices(m2, [], k);
    assert LargeSlices(m0, [s0, s1], k) == LargeSlices(m1, [s1], k);
    assert LargePart(d, k) == Success([LargeDisplay(m2)]);
    var w2 := m1[1 := CharsOf(s0[1..], k.largeCharCount)];
    assert LargeSlicesAsWritten(m1, [s1], s0[1..], k) == LargeSlicesAsWritten(w2, [], s0[1..], k);
    assert LargeSlicesAsWritten(m0, [s0, s1], s0[1..], k) == LargeSlicesAsWritten(m1, [s1], s0[1..], k);
    assert LargePartAsWritten(d, k) == Success([LargeDisplay(w2)]);
  }

  /** The corrected large display stores each slice index's last letters, for any number of slices. */
  lemma LargeDisplayKeepsSliceLetters(d: seq<UInt8>, k: HuiConstants, j: nat)
    requires |d| > 1 && (|d| - 1) % 11 == 0
    requires var slices := SplitEvery(d[1..], 11);
      j < |slices| && (forall i :: 0 <= i < |slices| ==> slices[i][0] < 16) &&
      (forall i :: j < i < |slices| ==> slices[i][0] != slices[j][0])
    ensures var slices := SplitEvery(d[1..], 11);
      var r := LargePart(d, k);
      r.Success? && slices[j][0] in r.value[0].slices &&
      r.value[0].slices[slices[j][0]] == CharsOf(slices[j][1..], k.largeCharCount)
  {
    var slices := SplitEvery(d[1..], 11);
    LargeSlicesLastWins(map[], slices, k, j);
    var m := LargeSlices(map[], slices, k).value;
    assert LargePart(d, k) == Success([LargeDisplay(m)]);
  }

  /** A large display message reaches the large display part with everything after the two sub-IDs. */
  lemma LargeDisplayDispatch(manufacturer: seq<UInt8>, data: seq<UInt8>, k: HuiConstants)
    requires SysExBody(manufacturer, data, k).Success? && data[2] == HuiTables.LargeDisplayByte
    ensures ParseSysEx(manufacturer, data, k) == LargePart(data[2..], k)
    ensures ParseSysExAsWritten(manufacturer, data, k) == LargePartAsWritten(data[2..], k)
  {
  }

  // ---------------------------------------------------------------------
  // Level meters
  // ---------------------------------------------------------------------

  /** `parse(levelMetersPayload:)`: the note is the strip (0 when it does not fit four bits); the high nibble picks the side, the low nibble is the level. */
  function LevelMeterEvent(note: UInt7, amount: UInt7): (e: CoreEvent)
    ensures e.LevelMeter?
    ensures e.channelStrip == (if note < 16 then note else 0)
    ensures e.side == Left <==> amount < 16
    ensures e.meterLevel == amount % 16
  {
    LevelMeter(if note < 16 then note else 0, if amount / 16 == 0 then Left else Right, amount % 16)
  }

  // ---------------------------------------------------------------------
  // Control messages
  // ---------------------------------------------------------------------

  /** The decoder state a control message changes. */
  datatype ControlState = ControlState(faderMSB: seq<UInt8>, switchesZoneSelect: Option<UInt8>)

  /** What a control message yields, and the state after it. */
  datatype ControlOutcome = ControlOutcome(result: Result<Option<CoreEvent>, DecoderError>, state: ControlState)

  predicate IsVPotByte(b1: int)
  {
    (0x10 <= b1 <= 0x1C) || (0x40 <= b1 <= 0x4C)
  }

  predicate IsZoneSelectByte(b1: int, k: HuiConstants)
  {
    b1 == k.zoneSelectByteToHost || b1 == k.zoneSelectByteToSurface
  }

  predicate IsPortOnOffByte(b1: int, k: HuiConstants)
  {
    b1 == k.portOnOffByteToHost || b1 == k.portOnOffByteToSurface
  }

  /** A control byte that none of the fixed cases (faders, jog wheel, V-Pots) claims. */
  predicate IsFreeControlByte(b: int)
  {
    b > 7 && b != 0x0D && !(0x20 <= b <= 0x27) && !IsVPotByte(b)
  }

  /** The switch bytes do not collide with the fixed cases before them, nor with each other. */
  predicate SwitchBytesDistinct(k: HuiConstants)
  {
    IsFreeControlByte(k.zoneSelectByteToHost) && IsFreeControlByte(k.zoneSelectByteToSurface) &&
    IsFreeControlByte(k.portOnOffByteToHost) && IsFreeControlByte(k.portOnOffByteToSurface) &&
    !IsPortOnOffByte(k.zoneSelectByteToHost, k) && !IsPortOnOffByte(k.zoneSelectByteToSurface, k)
  }

  /**
   * `parse(controlStatusPayload:)`: fader MSBs 0x00-0x07 are stored; LSBs
   * 0x20-0x27 give the 14-bit level with the stored MSB; 0x0D is the jog
   * wheel; 0x10-0x1C and 0x40-0x4C are V-Pots; a zone select is stored and
   * the port message that follows turns it into a switch event.
   */
  function ControlStep(role: HuiRole, k: HuiConstants, s: ControlState, b1: UInt7, b2: UInt7): ControlOutcome
    requires |s.faderMSB| == 8
  {
    if b1 <= 0x07 then
      ControlOutcome(Success(None), s.(faderMSB := s.faderMSB[b1 := b2]))
    else if b1 == 0x0D then
      if role == Host then ControlOutcome(Failure(Unhandled), s)
      else ControlOutcome(Success(Some(JogWheel(DecodeDelta(b2)))), s)
    else if 0x20 <= b1 <= 0x27 then
      var level := s.faderMSB[b1 % 16] * 128 + b2;
      if level < 16384 then ControlOutcome(Success(Some(FaderLevelEvent(b1 % 16, level))), s)
      else ControlOutcome(Failure(Malformed), s)
    else if IsVPotByte(b1) then
      if b1 % 16 >= k.vPotCount then ControlOutcome(Failure(Malformed), s)
      else
        var value := if role == Host then Display(b2) else Delta(DecodeDelta(b2));
        ControlOutcome(Success(Some(VPotEvent(b1 % 16, value))), s)
    else if IsZoneSelectByte(b1, k) then
      ControlOutcome(Success(None), s.(switchesZoneSelect := Some(b2)))
    else if IsPortOnOffByte(b1, k) then
      var cleared := s.(switchesZoneSelect := None);
      var high := b2 / 16;
      if high == 0x2 then ControlOutcome(Success(None), cleared)
      else if high != 0x0 && high != 0x4 then ControlOutcome(Failure(Unhandled), cleared)
      else if s.switchesZoneSelect.None? then ControlOutcome(Success(None), cleared)
      else
        var sw := SwitchInit(s.switchesZoneSelect.value, b2 % 16, k.layout);
        ControlOutcome(Success(Some(SwitchEvent(sw, high == 0x4))), cleared)
    else ControlOutcome(Failure(Malformed), s)
  }

  /** Every control message keeps eight fader MSBs, each of them seven bits. */
  lemma ControlStepKeepsMsbs(role: HuiRole, k: HuiConstants, s: ControlState, b1: UInt7, b2: UInt7)
    requires |s.faderMSB| == 8 && forall i :: 0 <= i < 8 ==> s.faderMSB[i] < 128
    ensures var t := ControlStep(role, k, s, b1, b2).state;
      |t.faderMSB| == 8 && forall i :: 0 <= i < 8 ==> t.faderMSB[i] < 128
  {
  }

  /** A fader MSB only updates that fader's MSB: no event, the zone untouched. */
  lemma FaderMsbStoresOnly(role: HuiRole, k: HuiConstants, s: ControlState, b1: UInt7, b2: UInt7)
    requires |s.faderMSB| == 8 && b1 <= 7
    ensures ControlStep(role, k, s, b1, b2).result == Success(None)
    ensures ControlStep(role, k, s, b1, b2).state.faderMSB[b1] == b2
    ensures forall i :: 0 <= i < 8 && i != b1 ==> ControlStep(role, k, s, b1, b2).state.faderMSB[i] == s.faderMSB[i]
    ensures ControlStep(role, k, s, b1, b2).state.switchesZoneSelect == s.switchesZoneSelect
  {
  }

  /**
   * An MSB followed by the LSB of the same fader gives level MSB * 128 + LSB
   * (`(msb << 7) + lsb`); with seven-bit MSBs the 14-bit guard never fires.
   */
  lemma FaderLevelFromTwoMessages(role: HuiRole, k: HuiConstants, s: ControlState, channel: UInt4, msb: UInt7, lsb: UInt7)
    requires |s.faderMSB| == 8 && channel <= 7
    ensures var s1 := ControlStep(role, k, s, channel, msb).state;
      ControlStep(role, k, s1, 0x20 + channel, lsb).result == Success(Some(FaderLevelEvent(channel, msb * 128 + lsb)))
  {
  }

  /** An LSB never fails while every stored MSB is seven bits. */
  lemma FaderLsbNeverFails(role: HuiRole, k: HuiConstants, s: ControlState, b1: UInt7, b2: UInt7)
    requires |s.faderMSB| == 8 && forall i :: 0 <= i < 8 ==> s.faderMSB[i] < 128
    requires 0x20 <= b1 <= 0x27
    ensures ControlStep(role, k, s, b1, b2).result.Success?
    ensures ControlStep(role, k, s, b1, b2).result.value.value.level == s.faderMSB[b1 - 0x20] * 128 + b2
  {
  }

  /**
   * A zone select followed by a port message whose state nibble is 0x0 or
   * 0x4 yields exactly one switch event, off or on, for that zone and port,
   * and leaves no zone pending.
   */
  lemma SwitchFromTwoMessages(role: HuiRole, k: HuiConstants, s: ControlState, zoneByte: UInt7, zone: UInt7, portByte: UInt7, b2: UInt7)
    requires |s.faderMSB| == 8 && SwitchBytesDistinct(k)
    requires IsZoneSelectByte(zoneByte, k) && IsPortOnOffByte(portByte, k)
    requires b2 / 16 == 0 || b2 / 16 == 4
    ensures var s1 := ControlStep(role, k, s, zoneByte, zone);
      var s2 := ControlStep(role, k, s1.state, portByte, b2);
      s1.result == Success(None) && s1.state.switchesZoneSelect == Some(zone) &&
      s2.result == Success(Some(SwitchEvent(SwitchInit(zone, b2 % 16, k.layout), b2 / 16 == 4))) &&
      s2.state.switchesZoneSelect.None? && s2.state.faderMSB == s.faderMSB
  {
  }

  /** Every port message leaves no zone pending; state nibble 0x2 yields nothing, a nibble other than 0x0, 0x2 and 0x4 is unhandled. */
  lemma PortMessageClearsZone(role: HuiRole, k: HuiConstants, s: ControlState, portByte: UInt7, b2: UInt7)
    requires |s.faderMSB| == 8 && SwitchBytesDistinct(k) && IsPortOnOffByte(portByte, k)
    ensures ControlStep(role, k, s, portByte, b2).state == s.(switchesZoneSelect := None)
    ensures b2 / 16 == 2 ==> ControlStep(role, k, s, portByte, b2).result == Success(None)
    ensures b2 / 16 !in {0, 2, 4} ==> ControlStep(role, k, s, portByte, b2).result == Failure(Unhandled)
    ensures s.switchesZoneSelect.None? ==> ControlStep(role, k, s, portByte, b2).result.Success? ==>
      ControlStep(role, k, s, portByte, b2).result.value.None?
  {
  }

  /** The V-Pot id is the low nibble; a host reads a display preset, a surface a turn; the jog wheel is unhandled by a host. */
  lemma VPotAndJogWheel(role: HuiRole, k: HuiConstants, s: ControlState, b1: UInt7, b2: UInt7)
    requires |s.faderMSB| == 8
    ensures IsVPotByte(b1) && b1 % 16 < k.vPotCount ==>
      ControlStep(role, k, s, b1, b2).result ==
        Success(Some(VPotEvent(b1 % 16, if role == Host then Display(b2) else Delta(DecodeDelta(b2)))))
    ensures b1 == 0x0D ==> (ControlStep(role, k, s, b1, b2).result.Failure? <==> role == Host)
    ensures IsVPotByte(b1) || b1 == 0x0D ==> ControlStep(role, k, s, b1, b2).state == s
  {
  }

  // ---------------------------------------------------------------------
  // decode(event:)
  // ---------------------------------------------------------------------

  datatype DecodeOutcome = DecodeOutcome(result: Result<seq<CoreEvent>, DecoderError>, state: ControlState)

  /** `decode(event:)` as a function of the event and the decoder state. */
  function DecodeEvent(role: HuiRole, k: HuiConstants, s: ControlState, event: MidiEvent): (o: DecodeOutcome)
    requires |s.faderMSB| == 8
    ensures !event.CC? ==> o.state == s
    ensures event.NotePressure? && event != k.pingReplyToHostMessage && event != k.pingToSurfaceMessage ==> o.result == Success([LevelMeterEvent(event.note, event.amount)])
  {
    if event == k.pingReplyToHostMessage && role == Surface then DecodeOutcome(Success([Ping]), s)
    else if event == k.pingToSurfaceMessage && role == Host then DecodeOutcome(Success([Ping]), s)
    else if event.NoteOff? && event.note == 0 && event.velocity16 in {0, 0x8000} then DecodeOutcome(Success([Ping]), s)
    else
      match event
      case SysEx7(m, data) => DecodeOutcome(ParseSysEx(m, data, k), s)
      case CC(_, controller, value) =>
        var o := ControlStep(role, k, s, controller, value);
        DecodeOutcome(
          match o.result
          case Failure(e) => Failure(e)
          case Success(None) => Success([])
          case Success(Some(ev)) => Success([ev]),
          o.state)
      case NotePressure(_, note, amount) => DecodeOutcome(Success([LevelMeterEvent(note, amount)]), s)
      case SystemReset => DecodeOutcome(if role == Surface then Success([SystemResetEvent]) else Success([]), s)
      case _ => DecodeOutcome(Success([]), s)
  }

  /** A decoder reads back the fader level a fader encoder sends, for strips 0-7. */
  lemma FaderRoundTrip(role: HuiRole, k: HuiConstants, s: ControlState, level: UInt14, channel: UInt4)
    requires |s.faderMSB| == 8 && channel <= 7
    requires k.pingReplyToHostMessage !in EncodeFader(level, channel)
    requires k.pingToSurfaceMessage !in EncodeFader(level, channel)
    ensures var events := EncodeFader(level, channel);
      var o1 := DecodeEvent(role, k, s, events[0]);
      o1.result == Success([]) &&
      DecodeEvent(role, k, o1.state, events[1]).result == Success([FaderLevelEvent(channel, level)])
  {
    FaderLevelFromTwoMessages(role, k, s, channel, level / 128, level % 128);
  }

  /** A decoder reads back the switch a switch encoder sends, looked up by its zone and port. */
  lemma SwitchRoundTrip(role: HuiRole, k: HuiConstants, s: ControlState, zone: UInt7, port: UInt4, state: bool, to: HuiRole)
    requires |s.faderMSB| == 8 && SwitchBytesDistinct(k)
    requires k.zoneSelectByteToHost < 128 && k.zoneSelectByteToSurface < 128
    requires k.portOnOffByteToHost < 128 && k.portOnOffByteToSurface < 128
    requires k.pingReplyToHostMessage !in EncodeSwitch(zone, port, state, to, k)
    requires k.pingToSurfaceMessage !in EncodeSwitch(zone, port, state, to, k)
    ensures var events := EncodeSwitch(zone, port, state, to, k);
      var o1 := DecodeEvent(role, k, s, events[0]);
      var o2 := DecodeEvent(role, k, o1.state, events[1]);
      o1.result == Success([]) &&
      o2.result == Success([SwitchEvent(SwitchInit(zone, port, k.layout), state)]) &&
      o2.state.switchesZoneSelect.None?
  {
    var events := EncodeSwitch(zone, port, state, to, k);
    var b2 := if state then port + 0x40 else port;
    assert b2 % 16 == port && (b2 / 16 == 4 <==> state) && (b2 / 16 == 0 || b2 / 16 == 4);
    SwitchFromTwoMessages(role, k, s, events[0].controller, zone, events[1].controller, b2);
  }

  // ---------------------------------------------------------------------
  // The decoder
  // ---------------------------------------------------------------------

  class HuiCoreDecoder {
    /** Which messages the decoder expects: those a host or those a surface receives. */
    const role: HuiRole
    const constants: HuiConstants
    var faderMSB: seq<UInt8>
    var switchesZoneSelect: Option<UInt8>

    /** Eight faders, each MSB seven bits (it is stored from a 7-bit data byte). */
    predicate Valid()
      reads this
    {
      |faderMSB| == 8 && forall i :: 0 <= i < 8 ==> faderMSB[i] < 128
    }

    function State(): ControlState
      reads this
    {
      ControlState(faderMSB, switchesZoneSelect)
    }

    /** `init(role:huiEventHandler:)`, which resets. */
    constructor(role: HuiRole, constants: HuiConstants)
      ensures Valid()
      ensures this.role == role && this.constants == constants
      ensures faderMSB == [0, 0, 0, 0, 0, 0, 0, 0] && switchesZoneSelect.None?
    {
      this.role := role;
      this.constants := constants;
      faderMSB := [0, 0, 0, 0, 0, 0, 0, 0];
      switchesZoneSelect := None;
    }

    /** `reset()`: eight zero MSBs and no pending zone. */
    method Reset()
      modifies this
      ensures Valid()
      ensures faderMSB == [0, 0, 0, 0, 0, 0, 0, 0] && switchesZoneSelect.None?
    {
      faderMSB := [0, 0, 0, 0, 0, 0, 0, 0];
      switchesZoneSelect := None;
    }

    /** `parse(controlStatusPayload:)`. */
    method ParseControlStatus(b1: UInt7, b2: UInt7) returns (r: Result<Option<CoreEvent>, DecoderError>)
      requires Valid()
      modifies this
      ensures Valid()
      ensures ControlOutcome(r, State()) == ControlStep(role, constants, old(State()), b1, b2)
    {
      ControlStepKeepsMsbs(role, constants, State(), b1, b2);
      if b1 <= 0x07 {
        faderMSB := faderMSB[b1 % 16 := b2];
        return Success(None);
      } else if b1 == 0x0D {
        if role == Host {
          return Failure(Unhandled);
        }
        return Success(Some(JogWheel(DecodeDelta(b2))));
      } else if 0x20 <= b1 <= 0x27 {
        var channel := b1 % 16;
        var level := faderMSB[channel] * 128 + b2;
        if level >= 16384 {
          return Failure(Malformed);
        }
        return Success(Some(FaderLevelEvent(channel, level)));
      } else if IsVPotByte(b1) {
        var number := b1 % 16;
        if number >= constants.vPotCount {
          return Failure(Malformed);
        }
        var value := if role == Host then Display(b2) else Delta(DecodeDelta(b2));
        return Success(Some(VPotEvent(number, value)));
      } else if IsZoneSelectByte(b1, constants) {
        switchesZoneSelect := Some(b2);
        return Success(None);
      } else if IsPortOnOffByte(b1, constants) {
        var port := b2 % 16;
        var state: bool;
        var high := b2 / 16;
        if high == 0x0 {
          state := false;
        } else if high == 0x2 {
          switchesZoneSelect := None;
          return Success(None);
        } else if high == 0x4 {
          state := true;
        } else {
          switchesZoneSelect := None;
          return Failure(Unhandled);
        }
        if switchesZoneSelect.Some? {
          var zone := switchesZoneSelect.value;
          switchesZoneSelect := None;
          return Success(Some(SwitchEvent(SwitchInit(zone, port, constants.layout), state)));
        }
        switchesZoneSelect := None;
        return Success(None);
      }
      return Failure(Malformed);
    }

    /** `decode(event:)`: the events one MIDI event decodes to, or the error it throws. */
    method Decode(event: MidiEvent) returns (r: Result<seq<CoreEvent>, DecoderError>)
      requires Valid()
      modifies this
      ensures Valid()
      ensures DecodeOutcome(r, State()) == DecodeEvent(role, constants, old(State()), event)
    {
      if event == constants.pingReplyToHostMessage && role == Surface {
        return Success([Ping]);
      }
      if event == constants.pingToSurfaceMessage && role == Host {
        return Success([Ping]);
      }
      if event.NoteOff? && event.note == 0 && event.velocity16 in {0, 0x8000} {
        return Success([Ping]);
      }
      match event {
        case SysEx7(m, data) =>
          r := ParseSysEx(m, data, constants);
        case CC(_, controller, value) =>
          var decoded := ParseControlStatus(controller, value);
          match decoded {
            case Failure(e) => r := Failure(e);
            case Success(None) => r := Success([]);
            case Success(Some(ev)) => r := Success([ev]);
          }
        case NotePressure(_, note, amount) =>
          r := Success([LevelMeterEvent(note, amount)]);
        case SystemReset =>
          r := if role == Surface then Success([SystemResetEvent]) else Success([]);
        case _ =>
          r := Success([]);
      }
    }
  }
}
