/**
 * `MIDI.HUI.Parser`: the HUI parser of the original MIDIKit module.  It
 * reads raw MIDI 1.0 bytes rather than events, keeps the time display, the
 * large display, nine fader MSB slots and the zone of a pending switch
 * message, and reports changes to its handler (here: the returned events).
 *
 * As written, control bytes 0x20-0x27 (fader LSBs) never reach the fader
 * parser, so no fader level is ever reported; `ControlAsWritten` models
 * that, and `ControlSpec`, which the parser uses, routes them as intended.
 * Array traps are returned as a `Failure`, after which the parser has no
 * further state.
 */
module HuiLegacyParsers {
  import opened Wrappers
  import opened MidiTypes
  import HuiTables
  import opened HuiWire
  import HuiParsers

  /** The parser's fields; `faderMSB` has nine slots. */
  datatype LegacyState = LegacyState(
    timeDisplay: seq<string>,
    largeDisplay: seq<string>,
    faderMSB: seq<UInt8>,
    switchesZoneSelect: Option<UInt8>)

  predicate ValidState(s: LegacyState)
  {
    |s.timeDisplay| == 8 && |s.largeDisplay| == 8 && |s.faderMSB| == 9
  }

  /** The three character tables the parser reads display codes through. */
  datatype Tables = Tables(small: seq<string>, large: seq<string>, time: seq<string>)

  /** The sizes of the tables in `MIDI.HUI.kCharTables`. */
  predicate Sized(t: Tables)
  {
    |t.small| == 128 && |t.large| == 128 && |t.time| == 0x31
  }

  /** The tables of `MIDI.HUI.kCharTables`, which the parser uses. */
  function ConstantTables(): (t: Tables)
    ensures Sized(t)
  {
    HuiTables.CharTableSizes();
    Tables(HuiTables.SmallDisplayChars, HuiTables.LargeDisplayChars, HuiTables.TimeDisplayChars)
  }

  datatype Outcome = Outcome(result: Result<seq<ParserEvent>, Trap>, state: LegacyState)

  /** `reset()`: eight empty time and large-display strings, nine zero MSBs, no zone. */
  function ResetState(): (s: LegacyState)
    ensures ValidState(s) && s.switchesZoneSelect.None?
    ensures forall i :: 0 <= i < 8 ==> s.timeDisplay[i] == "" && s.largeDisplay[i] == ""
    ensures forall i :: 0 <= i < 9 ==> s.faderMSB[i] == 0
  {
    LegacyState(["", "", "", "", "", "", "", ""], ["", "", "", "", "", "", "", ""], [0, 0, 0, 0, 0, 0, 0, 0, 0], None)
  }

  // ---------------------------------------------------------------------
  // Displays
  // ---------------------------------------------------------------------

  /** The time-display codes the loop writes: every code except the SysEx end byte 0xF7, in order. */
  function NonEnd(codes: seq<UInt8>): (r: seq<UInt8>)
    ensures |r| <= |codes|
    ensures forall i :: 0 <= i < |r| ==> r[i] != HuiTables.SysExEndByte
    ensures HuiTables.SysExEndByte !in codes ==> r == codes
  {
    if codes == [] then []
    else
      var last := codes[|codes| - 1];
      NonEnd(codes[..|codes| - 1]) + (if last != HuiTables.SysExEndByte then [last] else [])
  }

  /**
   * The large-display loop: blocks of a zone and ten letters until a block
   * starts with 0xF7.  Running out of bytes before that byte, a letter past
   * the table or a zone past the eight slices traps.
   */
  function LargeLoop(display: seq<string>, data: seq<UInt8>, table: seq<string>): (r: Result<seq<string>, Trap>)
    ensures r.Success? ==> |r.value| == |display|
    decreases |data|
  {
    if |data| == 0 then Failure(IndexOutOfRange)
    else if data[0] == HuiTables.SysExEndByte then Success(display)
    else if |data| < 11 then Failure(IndexOutOfRange)
    else
      match Render(table, data[1..11])
      case None => Failure(IndexOutOfRange)
      case Some(text) =>
        if data[0] >= |display| then Failure(IndexOutOfRange)
        else LargeLoop(display[data[0] := text], data[11..], table)
  }

  /**
   * For a well-formed message (eleven-byte blocks, none starting with 0xF7,
   * then 0xF7), the legacy loop stores exactly what `HUIParser`'s loop
   * stores.
   */
  lemma {:induction false} LargeLoopAgreesWithParser(display: seq<string>, blocks: seq<seq<UInt8>>, table: seq<string>)
    requires forall j :: 0 <= j < |blocks| ==> |blocks[j]| == 11 && blocks[j][0] != HuiTables.SysExEndByte
    ensures LargeLoop(display, Flatten(blocks) + [HuiTables.SysExEndByte], table) ==
      HuiParsers.LargeWrite(display, blocks, table)
    decreases |blocks|
  {
    var data := Flatten(blocks) + [HuiTables.SysExEndByte];
    if blocks != [] {
      var b := blocks[0];
      assert data == b + (Flatten(blocks[1..]) + [HuiTables.SysExEndByte]);
      assert data[1..11] == b[1..] && data[0] == b[0];
      assert data[11..] == Flatten(blocks[1..]) + [HuiTables.SysExEndByte];
      LargeLoopAgreesWithParser(display, blocks[1..], table);
      match Render(table, b[1..]) {
        case None =>
        case Some(text) =>
          if b[0] < |display| {
            LargeLoopAgreesWithParser(display[b[0] := text], blocks[1..], table);
          }
      }
    }
  }

  /** A small-display message after the header: type byte, channel and four letters. */
  function SmallSpec(t: Tables, s: LegacyState, d: seq<UInt8>): (o: Outcome)
    requires |d| > 0
    ensures o.state == s
    ensures o.result.Success? && o.result.value != [] ==> |d| == 7 && d[1] <= 8
  {
    if |d| != 7 then Outcome(Success([]), s)
    else
      match Render(t.small, d[2..6])
      case None => Outcome(Failure(IndexOutOfRange), s)
      case Some(text) =>
        if d[1] <= 7 then Outcome(Success([ChannelText(d[1], text)]), s)
        else if d[1] == 8 then Outcome(Success([SelectAssignText(text)]), s)
        else Outcome(Success([]), s)
  }

  /** A large-display message after the header: the length guard, then the block loop. */
  function LargeSpec(t: Tables, s: LegacyState, d: seq<UInt8>): (o: Outcome)
    requires ValidState(s) && |d| > 0
    ensures o.result.Success? ==> ValidState(o.state)
    ensures o.state == s.(largeDisplay := o.state.largeDisplay)
  {
    if |d| < 2 || (|d| - 2) % 11 != 0 then Outcome(Success([]), s)
    else
      match LargeLoop(s.largeDisplay, d[1..], t.large)
      case Failure(e) => Outcome(Failure(e), s)
      case Success(ld) => Outcome(Success([LargeDisplayText(ld)]), s.(largeDisplay := ld))
  }

  /** A time-display message after the header: nothing after the type byte traps, otherwise the codes are written. */
  function TimeSpec(t: Tables, s: LegacyState, d: seq<UInt8>): (o: Outcome)
    requires ValidState(s) && |d| > 0
    ensures o.result.Success? ==> ValidState(o.state)
    ensures o.state == s.(timeDisplay := o.state.timeDisplay)
  {
    if |d| == 1 then Outcome(Failure(InvalidRange), s)
    else
      match HuiParsers.TimeWrite(s.timeDisplay, NonEnd(d[1..]), t.time)
      case Failure(e) => Outcome(Failure(e), s)
      case Success(td) => Outcome(Success([TimeDisplayText(td)]), s.(timeDisplay := td))
  }

  /** `parse(sysEx:)`: a message that starts with the HUI SysEx header, dispatched on its display type. */
  function SysExSpec(t: Tables, s: LegacyState, data: seq<UInt8>): (o: Outcome)
    requires ValidState(s)
    ensures o.result.Success? ==> ValidState(o.state)
    ensures o.state.faderMSB == s.faderMSB && o.state.switchesZoneSelect == s.switchesZoneSelect
  {
    if |data| < 7 || data[..6] != HuiTables.SysExHeader then Outcome(Success([]), s)
    else
      var d := data[6..];
      if d[0] == HuiTables.SmallDisplayByte then SmallSpec(t, s, d)
      else if d[0] == HuiTables.LargeDisplayByte then LargeSpec(t, s, d)
      else if d[0] == HuiTables.TimeDisplayByte then TimeSpec(t, s, d)
      else Outcome(Success([]), s)
  }

  // ---------------------------------------------------------------------
  // Control and level-meter messages
  // ---------------------------------------------------------------------

  /** `parseFaderLevel(dataByte1:dataByte2:)`: high nibble 0 stores the MSB, 2 reports (MSB << 7) + LSB. */
  function FaderSpec(s: LegacyState, b1: UInt8, b2: UInt8): (o: Outcome)
    requires ValidState(s) && (b1 <= 7 || 0x20 <= b1 <= 0x27)
    ensures o.result.Success? && ValidState(o.state)
  {
    var channel := b1 % 16;
    if b1 / 16 == 0x0 then Outcome(Success([]), s.(faderMSB := s.faderMSB[channel := b2]))
    else Outcome(Success([FaderLevel(channel, s.faderMSB[channel] * 128 + b2)]), s)
  }

  /** The switch messages: zone select stores the zone; a port message reports the switch and always clears the zone. */
  function SwitchSpec(s: LegacyState, b1: UInt8, b2: UInt8): (o: Outcome)
    requires ValidState(s)
    ensures o.result.Success? && ValidState(o.state)
  {
    if b1 == HuiTables.ZoneSelectByte then
      Outcome(Success([]), s.(switchesZoneSelect := Some(b2)))
    else if b1 == HuiTables.PortOnOffByte then
      var cleared := s.(switchesZoneSelect := None);
      var high := b2 / 16;
      if (high == 0x0 || high == 0x4) && s.switchesZoneSelect.Some? then
        Outcome(Success([Switch(s.switchesZoneSelect.value, b2 % 16, high == 0x4)]), cleared)
      else Outcome(Success([]), cleared)
    else Outcome(Success([]), s)
  }

  /** `parse(controlStatusMessage:)` as written: only data bytes 0-7 reach the fader parser. */
  function ControlAsWritten(s: LegacyState, b1: UInt8, b2: UInt8): (o: Outcome)
    requires ValidState(s)
    ensures o.result.Success? && ValidState(o.state)
  {
    if 0x10 <= b1 <= 0x1B then Outcome(Success([VPot(b1 % 16, b2)]), s)
    else if b1 <= 7 then FaderSpec(s, b1, b2)
    else SwitchSpec(s, b1, b2)
  }

  /** `parse(controlStatusMessage:)` as intended: the fader LSBs 0x20-0x27 reach the fader parser too. */
  function ControlSpec(s: LegacyState, b1: UInt8, b2: UInt8): (o: Outcome)
    requires ValidState(s)
    ensures o.result.Success? && ValidState(o.state)
    ensures !(0x20 <= b1 <= 0x27) ==> o == ControlAsWritten(s, b1, b2)
  {
    if 0x10 <= b1 <= 0x1B then Outcome(Success([VPot(b1 % 16, b2)]), s)
    else if b1 <= 7 || 0x20 <= b1 <= 0x27 then FaderSpec(s, b1, b2)
    else SwitchSpec(s, b1, b2)
  }

  /** `parse(levelMetersMessage:)`: the channel must fit four bits; 0x10 or more is the right side with its low nibble. */
  function LevelSpec(s: LegacyState, data: seq<UInt8>): (o: Outcome)
    ensures o.state == s && o.result.Success?
    ensures |o.result.value| <= 1
    ensures |o.result.value| == 1 <==> |data| >= 3 && data[1] <= 15
  {
    if |data| < 3 || data[1] > 15 then Outcome(Success([]), s)
    else if data[2] >= 0x10 then Outcome(Success([LevelMeters(data[1], Right, data[2] % 16)]), s)
    else Outcome(Success([LevelMeters(data[1], Left, data[2])]), s)
  }

  /** `midiIn(data:)`: the host ping, then dispatch on the first byte. */
  function MidiInSpec(t: Tables, s: LegacyState, data: seq<UInt8>): (o: Outcome)
    requires ValidState(s)
    ensures o.result.Success? ==> ValidState(o.state)
  {
    if data == HuiTables.PingFromHostMessage then Outcome(Success([PingReceived]), s)
    else if data == [] then Outcome(Success([]), s)
    else if data[0] == HuiTables.SysExStartByte then SysExSpec(t, s, data)
    else if data[0] == HuiTables.ControlStatus then
      if |data| < 3 then Outcome(Success([]), s) else ControlSpec(s, data[1], data[2])
    else if data[0] == HuiTables.LevelMetersStatus then LevelSpec(s, data)
    else Outcome(Success([]), s)
  }

  // ---------------------------------------------------------------------
  // Properties
  // ---------------------------------------------------------------------

  /** The host ping produces the ping event alone and changes nothing. */
  lemma PingOnly(t: Tables, s: LegacyState)
    requires ValidState(s)
    ensures MidiInSpec(t, s, [0x90, 0x00, 0x00]) == Outcome(Success([PingReceived]), s)
  {
  }

  /** As written, no control message ever reports a fader level, whatever the state. */
  lemma FaderLevelNeverReportedAsWritten(s: LegacyState, b1: UInt8, b2: UInt8)
    requires ValidState(s)
    ensures forall i :: 0 <= i < |ControlAsWritten(s, b1, b2).result.value| ==>
      !ControlAsWritten(s, b1, b2).result.value[i].FaderLevel?
  {
  }

  /** As written, the fader move MSB 0x10 then LSB 0x05 on strip 0 produces no event at all. */
  lemma FaderMoveLostAsWritten()
    ensures var o1 := ControlAsWritten(ResetState(), 0x00, 0x10);
      o1.result == Success([]) && ControlAsWritten(o1.state, 0x20, 0x05).result == Success([])
  {
  }

  /** As intended, a fader MSB followed by that fader's LSB reports level MSB * 128 + LSB. */
  lemma FaderLevelFromTwoMessages(t: Tables, s: LegacyState, channel: UInt4, msb: UInt8, lsb: UInt8)
    requires ValidState(s) && channel <= 7
    ensures var o1 := MidiInSpec(t, s, [0xB0, channel, msb]);
      o1.result == Success([]) &&
      MidiInSpec(t, o1.state, [0xB0, 0x20 + channel, lsb]).result == Success([FaderLevel(channel, msb * 128 + lsb)])
  {
  }

  /** A zone select and a port message with state nibble 0x0 or 0x4 report one switch; every port message clears the zone. */
  lemma SwitchFromTwoMessages(s: LegacyState, zone: UInt8, b2: UInt8)
    requires ValidState(s)
    ensures var o1 := ControlSpec(s, HuiTables.ZoneSelectByte, zone);
      var o2 := ControlSpec(o1.state, HuiTables.PortOnOffByte, b2);
      o1.state.switchesZoneSelect == Some(zone) &&
      o2.state == s.(switchesZoneSelect := None) &&
      (b2 / 16 == 0 || b2 / 16 == 4 <==> o2.result == Success([Switch(zone, b2 % 16, b2 / 16 == 4)])) &&
      (b2 / 16 != 0 && b2 / 16 != 4 <==> o2.result == Success([]))
  {
  }

  /** Every port message leaves no zone pending. */
  lemma PortMessageClearsZone(s: LegacyState, b2: UInt8)
    requires ValidState(s)
    ensures ControlSpec(s, HuiTables.PortOnOffByte, b2).state == s.(switchesZoneSelect := None)
  {
  }

  /** A small-display message for strip 0-7 or the select-assign display reads back its four letters. */
  lemma SmallDisplayRoundTrip(t: Tables, s: LegacyState, channel: UInt8, codes: seq<UInt8>)
    requires Sized(t) && ValidState(s) && channel <= 8 && |codes| == 4
    requires forall i :: 0 <= i < 4 ==> codes[i] < 128
    ensures var o := MidiInSpec(t, s, HuiTables.SysExHeader + [HuiTables.SmallDisplayByte, channel] + codes + [HuiTables.SysExEndByte]);
      var text := Render(t.small, codes);
      text.Some? && o.state == s &&
      o.result == Success([if channel <= 7 then ChannelText(channel, text.value) else SelectAssignText(text.value)])
  {
    var data := HuiTables.SysExHeader + [HuiTables.SmallDisplayByte, channel] + codes + [HuiTables.SysExEndByte];
    assert data[..6] == HuiTables.SysExHeader;
    assert data[6..] == [HuiTables.SmallDisplayByte, channel] + codes + [HuiTables.SysExEndByte];
    assert data[6..][2..6] == codes;
    assert |data| == 13 && data[0] == HuiTables.SysExStartByte;
    assert SmallSpec(t, s, data[6..]).result ==
      Success([if channel <= 7 then ChannelText(channel, Render(t.small, codes).value)
        else SelectAssignText(Render(t.small, codes).value)]);
  }

  /** A time-display message ending in 0xF7 writes its codes from the right and reports the whole display. */
  lemma {:induction false} TimeDisplayRoundTrip(t: Tables, s: LegacyState, codes: seq<UInt8>)
    requires ValidState(s) && 1 <= |codes| <= 8 && HuiTables.SysExEndByte !in codes
    ensures var o := MidiInSpec(t, s, HuiTables.SysExHeader + [HuiTables.TimeDisplayByte] + codes + [HuiTables.SysExEndByte]);
      o.result == Success([TimeDisplayText(o.state.timeDisplay)]) &&
      o.state == s.(timeDisplay := o.state.timeDisplay) &&
      forall j :: 0 <= j < 8 ==>
        (o.state.timeDisplay[j] == if 7 - j < |codes| then HuiParsers.TimeChar(codes[7 - j], t.time) else s.timeDisplay[j])
  {
    var data := HuiTables.SysExHeader + [HuiTables.TimeDisplayByte] + codes + [HuiTables.SysExEndByte];
    assert data[..6] == HuiTables.SysExHeader;
    assert data[6..] == [HuiTables.TimeDisplayByte] + codes + [HuiTables.SysExEndByte];
    var d := data[6..];
    assert d[1..] == codes + [HuiTables.SysExEndByte];
    NonEndOfTerminated(codes);
    var w := HuiParsers.TimeWrite(s.timeDisplay, codes, t.time);
    assert TimeSpec(t, s, d) == Outcome(Success([TimeDisplayText(w.value)]), s.(timeDisplay := w.value));
    assert data != HuiTables.PingFromHostMessage && data[0] == HuiTables.SysExStartByte;
  }

  /** A terminating end byte is dropped; codes without it are kept as they are. */
  lemma {:induction false} NonEndOfTerminated(codes: seq<UInt8>)
    requires HuiTables.SysExEndByte !in codes
    ensures NonEnd(codes + [HuiTables.SysExEndByte]) == codes
  {
    var rest := codes + [HuiTables.SysExEndByte];
    NonEndStep(rest, |codes|);
    assert rest[..|codes| + 1] == rest && rest[..|codes|] == codes;
  }

  /** A well-formed large-display message agrees with `HUIParser`: same slices stored, same event. */
  lemma LargeDisplayAgreesWithParser(t: Tables, s: LegacyState, blocks: seq<seq<UInt8>>)
    requires ValidState(s)
    requires forall j :: 0 <= j < |blocks| ==> |blocks[j]| == 11 && blocks[j][0] != HuiTables.SysExEndByte
    ensures var data := HuiTables.SysExHeader + [HuiTables.LargeDisplayByte] + Flatten(blocks) + [HuiTables.SysExEndByte];
      var w := HuiParsers.LargeWrite(s.largeDisplay, blocks, t.large);
      var o := MidiInSpec(t, s, data);
      (o.result.Success? <==> w.Success?) &&
      (w.Success? ==> o.result == Success([LargeDisplayText(w.value)]) && o.state == s.(largeDisplay := w.value))
  {
    var data := HuiTables.SysExHeader + [HuiTables.LargeDisplayByte] + Flatten(blocks) + [HuiTables.SysExEndByte];
    FlattenLength(blocks);
    var d := data[6..];
    assert data[..6] == HuiTables.SysExHeader;
    assert d == [HuiTables.LargeDisplayByte] + Flatten(blocks) + [HuiTables.SysExEndByte];
    assert d[1..] == Flatten(blocks) + [HuiTables.SysExEndByte];
    assert |d| - 2 == |blocks| * 11;
    assert (|blocks| * 11) % 11 == 0 by {
      Bits.DivOfMultiple(|blocks|, 11);
    }
    LargeLoopAgreesWithParser(s.largeDisplay, blocks, t.large);
  }

  /** Dropping end bytes never makes a prefix's result longer than the whole's. */
  lemma {:induction false} NonEndPrefixLength(codes: seq<UInt8>, j: nat)
    requires j <= |codes|
    ensures |NonEnd(codes[..j])| <= |NonEnd(codes)|
    decreases |codes|
  {
    if j < |codes| {
      var init := codes[..|codes| - 1];
      assert codes[..j] == init[..j];
      NonEndPrefixLength(init, j);
    } else {
      assert codes[..j] == codes;
    }
  }

  /** One more code: kept unless it is the end byte. */
  lemma {:induction false} NonEndStep(codes: seq<UInt8>, j: nat)
    requires j < |codes|
    ensures codes[j] != HuiTables.SysExEndByte ==> NonEnd(codes[..j + 1]) == NonEnd(codes[..j]) + [codes[j]]
    ensures codes[j] == HuiTables.SysExEndByte ==> NonEnd(codes[..j + 1]) == NonEnd(codes[..j])
  {
    assert codes[..j + 1][..j] == codes[..j];
    assert NonEnd(codes[..j]) + [] == NonEnd(codes[..j]);
  }

  /** One more time-display code lands at position `7 - i`. */
  lemma {:induction false} TimeWriteStep(start: seq<string>, prev: seq<UInt8>, c: UInt8, table: seq<string>, display: seq<string>)
    requires |start| == 8 && |prev| < 8
    requires HuiParsers.TimeWrite(start, prev, table) == Success(display)
    ensures HuiParsers.TimeWrite(start, prev + [c], table) ==
      Success(display[7 - |prev| := HuiParsers.TimeChar(c, table)])
  {
    assert (prev + [c])[..|prev|] == prev;
  }

  lemma {:induction false} FlattenLength(blocks: seq<seq<UInt8>>)
    requires forall j :: 0 <= j < |blocks| ==> |blocks[j]| == 11
    ensures |Flatten(blocks)| == |blocks| * 11
  {
    if blocks != [] {
      FlattenLength(blocks[1..]);
    }
  }

  /**
   * Inputs the code does not guard against trap: a time-display message with
   * nothing after the type byte (`1 ... 0`), and a large-display message
   * whose last byte is not 0xF7.
   */
  lemma UnguardedInputsTrap(t: Tables, s: LegacyState, block: seq<UInt8>, last: UInt8)
    requires ValidState(s) && |block| == 11 && block[0] != HuiTables.SysExEndByte && last != HuiTables.SysExEndByte
    ensures MidiInSpec(t, s, HuiTables.SysExHeader + [HuiTables.TimeDisplayByte]).result == Failure(InvalidRange)
    ensures MidiInSpec(t, s, HuiTables.SysExHeader + [HuiTables.LargeDisplayByte] + block + [last]).result.Failure?
  {
    var time := HuiTables.SysExHeader + [HuiTables.TimeDisplayByte];
    assert time[..6] == HuiTables.SysExHeader && time[6..] == [HuiTables.TimeDisplayByte];
    var data := HuiTables.SysExHeader + [HuiTables.LargeDisplayByte] + block + [last];
    var d := data[6..];
    assert data[..6] == HuiTables.SysExHeader;
    assert d == [HuiTables.LargeDisplayByte] + block + [last];
    assert d[1..] == block + [last];
    assert (block + [last])[11..] == [last];
    assert d[1..][1..11] == block[1..];
    assert d[1..][0] == block[0];
    assert d[1..][11..] == [last];
    assert forall display: seq<string> :: LargeLoop(display, [last], t.large) == Failure(IndexOutOfRange);
    assert LargeLoop(s.largeDisplay, d[1..], t.large).Failure?;
    assert |d| == 13 && (|d| - 2) % 11 == 0;
    assert data != HuiTables.PingFromHostMessage && data[0] == HuiTables.SysExStartByte;
  }

  /**
   * The time-display loop of `parse(sysEx:)`: each code other than 0xF7 is
   * looked up and written from the right; a ninth such code traps.
   */
  method WriteTimeCodes(display: seq<string>, codes: seq<UInt8>, table: seq<string>) returns (r: Result<seq<string>, Trap>)
    requires |display| == 8
    ensures r == HuiParsers.TimeWrite(display, NonEnd(codes), table)
  {
    var timeDisplay := display;
    var i := 0;
    for j := 0 to |codes|
      invariant |timeDisplay| == 8 && i == |NonEnd(codes[..j])|
      invariant HuiParsers.TimeWrite(display, NonEnd(codes[..j]), table) == Success(timeDisplay)
    {
      NonEndStep(codes, j);
      if codes[j] != HuiTables.SysExEndByte {
        if 7 - i < 0 {
          NonEndPrefixLength(codes, j + 1);
          return Failure(IndexOutOfRange);
        }
        var lookupChar := HuiParsers.TimeChar(codes[j], table);
        TimeWriteStep(display, NonEnd(codes[..j]), codes[j], table, timeDisplay);
        timeDisplay := timeDisplay[7 - i := lookupChar];
        i := i + 1;
      }
    }
    assert codes[..|codes|] == codes;
    return Success(timeDisplay);
  }

  // ---------------------------------------------------------------------
  // The parser
  // ---------------------------------------------------------------------

  class LegacyParser {
    const tables: Tables
    var timeDisplay: seq<string>
    var largeDisplay: seq<string>
    var faderMSB: seq<UInt8>
    var switchesZoneSelect: Option<UInt8>

    function State(): LegacyState
      reads this
    {
      LegacyState(timeDisplay, largeDisplay, faderMSB, switchesZoneSelect)
    }

    predicate Valid()
      reads this
    {
      ValidState(State())
    }

    /** `init(eventHandler:)`, which resets. */
    constructor()
      ensures Valid() && State() == ResetState() && tables == ConstantTables()
    {
      tables := ConstantTables();
      timeDisplay := ["", "", "", "", "", "", "", ""];
      largeDisplay := ["", "", "", "", "", "", "", ""];
      faderMSB := [0, 0, 0, 0, 0, 0, 0, 0, 0];
      switchesZoneSelect := None;
    }

    /** `reset()`. */
    method Reset()
      modifies this
      ensures Valid() && State() == ResetState()
    {
      timeDisplay := ["", "", "", "", "", "", "", ""];
      largeDisplay := ["", "", "", "", "", "", "", ""];
      faderMSB := [0, 0, 0, 0, 0, 0, 0, 0, 0];
      switchesZoneSelect := None;
    }

    /** `midiIn(data:)`: the events reported to the handler, or the trap the bytes run into. */
    method MidiIn(data: seq<UInt8>) returns (r: Result<seq<ParserEvent>, Trap>)
      requires Valid()
      modifies this
      ensures r == MidiInSpec(tables, old(State()), data).result
      ensures r.Success? ==> Valid() && State() == MidiInSpec(tables, old(State()), data).state
    {
      if data == HuiTables.PingFromHostMessage {
        return Success([PingReceived]);
      }
      if data == [] {
        return Success([]);
      }
      if data[0] == HuiTables.SysExStartByte {
        r := ParseSysEx(data);
      } else if data[0] == HuiTables.ControlStatus {
        r := ParseControlStatusMessage(data);
      } else if data[0] == HuiTables.LevelMetersStatus {
        r := ParseLevelMetersMessage(data);
      } else {
        r := Success([]);
      }
    }

    /** `parse(sysEx:)`. */
    method ParseSysEx(data: seq<UInt8>) returns (r: Result<seq<ParserEvent>, Trap>)
      requires Valid()
      modifies this
      ensures r == SysExSpec(tables, old(State()), data).result
      ensures r.Success? ==> Valid() && State() == SysExSpec(tables, old(State()), data).state
    {
      if |data| < 7 || data[..6] != HuiTables.SysExHeader {
        return Success([]);
      }
      var d := data[6..];
      if d[0] == HuiTables.SmallDisplayByte {
        r := ParseSmallDisplay(d);
      } else if d[0] == HuiTables.LargeDisplayByte {
        r := ParseLargeDisplay(d);
      } else if d[0] == HuiTables.TimeDisplayByte {
        r := ParseTimeDisplay(d);
      } else {
        r := Success([]);
      }
    }

    /** The small-display branch of `parse(sysEx:)`. */
    method ParseSmallDisplay(d: seq<UInt8>) returns (r: Result<seq<ParserEvent>, Trap>)
      requires |d| > 0
      ensures r == SmallSpec(tables, State(), d).result
    {
      if |d| != 7 {
        return Success([]);
      }
      var channel := d[1];
      var text := RenderCodes(tables.small, d[2..6]);
      if text.None? {
        return Failure(IndexOutOfRange);
      }
      if channel <= 7 {
        return Success([ChannelText(channel, text.value)]);
      } else if channel == 8 {
        return Success([SelectAssignText(text.value)]);
      }
      return Success([]);
    }

    /** The large-display branch of `parse(sysEx:)`: the block loop. */
    method ParseLargeDisplay(d: seq<UInt8>) returns (r: Result<seq<ParserEvent>, Trap>)
      requires Valid() && |d| > 0
      modifies this
      ensures r == LargeSpec(tables, old(State()), d).result
      ensures r.Success? ==> Valid() && State() == LargeSpec(tables, old(State()), d).state
    {
      if |d| < 2 || (|d| - 2) % 11 != 0 {
        return Success([]);
      }
      var rest := d[1..];
      ghost var start := largeDisplay;
      while |rest| == 0 || rest[0] != HuiTables.SysExEndByte
        invariant |largeDisplay| == 8
        invariant LargeLoop(start, d[1..], tables.large) == LargeLoop(largeDisplay, rest, tables.large)
        invariant old(State()) == State().(largeDisplay := start)
        decreases |rest|
      {
        if |rest| < 11 {
          return Failure(IndexOutOfRange);
        }
        var zone := rest[0];
        var text := RenderCodes(tables.large, rest[1..11]);
        if text.None? {
          return Failure(IndexOutOfRange);
        }
        if zone >= |largeDisplay| {
          return Failure(IndexOutOfRange);
        }
        largeDisplay := largeDisplay[zone := text.value];
        rest := rest[11..];
      }
      return Success([LargeDisplayText(largeDisplay)]);
    }

    /** The time-display branch of `parse(sysEx:)`: codes from the right, the end byte skipped. */
    method ParseTimeDisplay(d: seq<UInt8>) returns (r: Result<seq<ParserEvent>, Trap>)
      requires Valid() && |d| > 0
      modifies this
      ensures r == TimeSpec(tables, old(State()), d).result
      ensures r.Success? ==> Valid() && State() == TimeSpec(tables, old(State()), d).state
    {
      if |d| == 1 {
        return Failure(InvalidRange);
      }
      var written := WriteTimeCodes(timeDisplay, d[1..], tables.time);
      if written.Failure? {
        return Failure(written.error);
      }
      timeDisplay := written.value;
      return Success([TimeDisplayText(timeDisplay)]);
    }

    /** `parse(controlStatusMessage:)`, with the fader LSBs routed to `ParseFaderLevel`. */
    method ParseControlStatusMessage(data: seq<UInt8>) returns (r: Result<seq<ParserEvent>, Trap>)
      requires Valid() && |data| > 0 && data[0] == HuiTables.ControlStatus
      modifies this
      ensures r == MidiInSpec(tables, old(State()), data).result
      ensures Valid() && State() == MidiInSpec(tables, old(State()), data).state
    {
      if |data| < 3 {
        return Success([]);
      }
      var b1, b2 := data[1], data[2];
      if 0x10 <= b1 <= 0x1B {
        return Success([VPot(b1 % 16, b2)]);
      }
      if b1 <= 7 || 0x20 <= b1 <= 0x27 {
        r := ParseFaderLevel(b1, b2);
        return;
      }
      if b1 == HuiTables.ZoneSelectByte {
        switchesZoneSelect := Some(b2);
        return Success([]);
      } else if b1 == HuiTables.PortOnOffByte {
        var port := b2 % 16;
        var state: bool;
        var high := b2 / 16;
        if high == 0x0 {
          state := false;
        } else if high == 0x4 {
          state := true;
        } else {
          switchesZoneSelect := None;
          return Success([]);
        }
        if switchesZoneSelect.Some? {
          r := Success([Switch(switchesZoneSelect.value, port, state)]);
        } else {
          r := Success([]);
        }
        switchesZoneSelect := None;
        return;
      }
      return Success([]);
    }

    /** `parseFaderLevel(dataByte1:dataByte2:)`. */
    method ParseFaderLevel(b1: UInt8, b2: UInt8) returns (r: Result<seq<ParserEvent>, Trap>)
      requires Valid() && (b1 <= 7 || 0x20 <= b1 <= 0x27)
      modifies this
      ensures r == FaderSpec(old(State()), b1, b2).result
      ensures Valid() && State() == FaderSpec(old(State()), b1, b2).state
    {
      var channel := b1 % 16;
      var part := b1 / 16;
      if part == 0x0 {
        faderMSB := faderMSB[channel := b2];
        return Success([]);
      }
      var level := faderMSB[channel] * 128 + b2;
      return Success([FaderLevel(channel, level)]);
    }

    /** `parse(levelMetersMessage:)`. */
    method ParseLevelMetersMessage(data: seq<UInt8>) returns (r: Result<seq<ParserEvent>, Trap>)
      requires Valid()
      ensures r == LevelSpec(State(), data).result
    {
      if |data| < 3 || data[1] > 15 {
        return Success([]);
      }
      var channel, sideAndValue := data[1], data[2];
      if sideAndValue >= 0x10 {
        return Success([LevelMeters(channel, Right, sideAndValue % 16)]);
      }
      return Success([LevelMeters(channel, Left, sideAndValue)]);
    }
  }
}
