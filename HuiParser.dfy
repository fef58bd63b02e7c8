/**
 * `HUIParser`: the earlier HUI parser of the control-surfaces library.  It
 * keeps the time display, the large display, the eight fader MSBs and the
 * zone of a pending switch message, updates them as messages arrive and
 * reports each change to its handler; here the handler calls are the
 * returned sequence of events.
 *
 * Where the code indexes an array out of range or forms an empty closed
 * range, Swift traps; the model returns that trap as a `Failure`, after
 * which the parser has no further state.
 */
module HuiParsers {
  import opened Wrappers
  import opened MidiTypes
  import HuiTables
  import opened HuiWire

  /**
   * `HUIConstants.kCharTables` of the control-surfaces library and the blank
   * large-display component, neither of which is part of this model.
   */
  datatype CharTables = CharTables(small: seq<string>, large: seq<string>, time: seq<string>, largeDefault: string)

  /** The parser's fields. */
  datatype ParserState = ParserState(
    timeDisplay: seq<string>,
    largeDisplay: seq<string>,
    faderMSB: seq<UInt8>,
    switchesZoneSelect: Option<UInt8>)

  /** Eight time-display characters, eight large-display slices and eight seven-bit fader MSBs. */
  predicate ValidState(s: ParserState)
  {
    |s.timeDisplay| == 8 && |s.largeDisplay| == 8 && |s.faderMSB| == 8 &&
    forall i :: 0 <= i < 8 ==> s.faderMSB[i] < 128
  }

  /** The events one message produces, or the trap it runs into, and the state after it. */
  datatype Outcome = Outcome(result: Result<seq<ParserEvent>, Trap>, state: ParserState)

  /** `reset()`: blank time characters, default large-display slices, zero MSBs, no zone. */
  function ResetState(t: CharTables): (s: ParserState)
    ensures ValidState(s)
    ensures forall i :: 0 <= i < 8 ==> s.timeDisplay[i] == " " && s.largeDisplay[i] == t.largeDefault && s.faderMSB[i] == 0
    ensures s.switchesZoneSelect.None?
  {
    ParserState(
      [" ", " ", " ", " ", " ", " ", " ", " "],
      seq(8, _ => t.largeDefault),
      [0, 0, 0, 0, 0, 0, 0, 0],
      None)
  }

  // ---------------------------------------------------------------------
  // Displays
  // ---------------------------------------------------------------------

  /** One time-display character: the table's entry, or "?" for a code past the table. */
  function TimeChar(code: UInt8, table: seq<string>): string
  {
    if code < |table| then table[code] else "?"
  }

  /**
   * The loop over the time-display codes: code `i` goes to position `7 - i`,
   * so the first code is the rightmost character.  A ninth code writes to
   * position -1, which traps.
   */
  function TimeWrite(display: seq<string>, codes: seq<UInt8>, table: seq<string>): (r: Result<seq<string>, Trap>)
    requires |display| == 8
    ensures r.Success? <==> |codes| <= 8
    ensures r.Success? ==> (|r.value| == 8 &&
      forall j :: 0 <= j < 8 ==> r.value[j] == (if 7 - j < |codes| then TimeChar(codes[7 - j], table) else display[j]))
    ensures r.Failure? ==> r.error == IndexOutOfRange
  {
    if codes == [] then Success(display)
    else
      match TimeWrite(display, codes[..|codes| - 1], table)
      case Failure(e) => Failure(e)
      case Success(d) =>
        var i := |codes| - 1;
        if 7 - i < 0 then Failure(IndexOutOfRange) else Success(d[7 - i := TimeChar(codes[i], table)])
  }

  /**
   * The loop over the large-display blocks: each block's ten letters are
   * rendered and stored at its zone; a letter past the table or a zone past
   * the display traps.
   */
  function LargeWrite(display: seq<string>, blocks: seq<seq<UInt8>>, table: seq<string>): (r: Result<seq<string>, Trap>)
    requires forall j :: 0 <= j < |blocks| ==> |blocks[j]| == 11
    ensures r.Success? <==> forall j :: 0 <= j < |blocks| ==> blocks[j][0] < |display| && Render(table, blocks[j][1..]).Some?
    ensures r.Success? ==> |r.value| == |display|
    ensures r.Failure? ==> r.error == IndexOutOfRange
    decreases |blocks|
  {
    if blocks == [] then Success(display)
    else
      match Render(table, blocks[0][1..])
      case None => Failure(IndexOutOfRange)
      case Some(text) =>
        if blocks[0][0] >= |display| then Failure(IndexOutOfRange)
        else LargeWrite(display[blocks[0][0] := text], blocks[1..], table)
  }

  /** A zone that no block names keeps its slice. */
  lemma {:induction false} LargeWriteKeepsOthers(display: seq<string>, blocks: seq<seq<UInt8>>, table: seq<string>, zone: nat)
    requires forall j :: 0 <= j < |blocks| ==> |blocks[j]| == 11 && blocks[j][0] != zone
    requires zone < |display| && LargeWrite(display, blocks, table).Success?
    ensures LargeWrite(display, blocks, table).value[zone] == display[zone]
    decreases |blocks|
  {
    if blocks != [] {
      var next := display[blocks[0][0] := Render(table, blocks[0][1..]).value];
      assert forall j :: 0 <= j < |blocks| - 1 ==> blocks[1..][j] == blocks[j + 1];
      LargeWriteKeepsOthers(next, blocks[1..], table, zone);
    }
  }

  /** A zone ends up showing the letters of the last block that names it. */
  lemma {:induction false} LargeWriteLastWins(display: seq<string>, blocks: seq<seq<UInt8>>, table: seq<string>, j: nat)
    requires forall j :: 0 <= j < |blocks| ==> |blocks[j]| == 11
    requires j < |blocks| && LargeWrite(display, blocks, table).Success?
    requires forall j' :: j < j' < |blocks| ==> blocks[j'][0] != blocks[j][0]
    ensures blocks[j][0] < |display|
    ensures LargeWrite(display, blocks, table).value[blocks[j][0]] == Render(table, blocks[j][1..]).value
    decreases |blocks|
  {
    var next := display[blocks[0][0] := Render(table, blocks[0][1..]).value];
    var rest := blocks[1..];
    assert forall j' :: 0 <= j' < |rest| ==> rest[j'] == blocks[j' + 1];
    if j == 0 {
      LargeWriteKeepsOthers(next, rest, table, blocks[0][0]);
    } else {
      LargeWriteLastWins(next, rest, table, j - 1);
    }
  }

  /** `parse(sysExContent:)`: what a SysEx message's data bytes do to the displays. */
  function SysExSpec(k: HuiConstants, t: CharTables, s: ParserState, data: seq<UInt8>): (o: Outcome)
    requires ValidState(s)
    ensures o.result.Success? ==> ValidState(o.state)
    ensures o.state.faderMSB == s.faderMSB && o.state.switchesZoneSelect == s.switchesZoneSelect
  {
    var nothing := Outcome(Success([]), s);
    if |data| < 2 || data[0] != k.subId1 || data[1] != k.subId2 || |data| == 2 then nothing
    else
      var d := data[2..];
      if d[0] == HuiTables.SmallDisplayByte then
        if |d| != 6 then nothing
        else
          match Render(t.small, d[2..6])
          case None => Outcome(Failure(IndexOutOfRange), s)
          case Some(text) =>
            if d[1] <= 7 then Outcome(Success([ChannelText(d[1], text)]), s)
            else if d[1] == 8 then Outcome(Success([SelectAssignText(text)]), s)
            else nothing
      else if d[0] == HuiTables.LargeDisplayByte then
        if (|d| - 1) % 11 != 0 then nothing
        else if |d| == 1 then Outcome(Failure(InvalidRange), s)
        else
          match LargeWrite(s.largeDisplay, SplitEvery(d[1..], 11), t.large)
          case Failure(e) => Outcome(Failure(e), s)
          case Success(ld) => Outcome(Success([LargeDisplayText(ld)]), s.(largeDisplay := ld))
      else if d[0] == HuiTables.TimeDisplayByte then
        if |d| <= 1 then nothing
        else
          match TimeWrite(s.timeDisplay, d[1..], t.time)
          case Failure(e) => Outcome(Failure(e), s)
          case Success(td) => Outcome(Success([TimeDisplayText(td)]), s.(timeDisplay := td))
      else nothing
  }

  // ---------------------------------------------------------------------
  // Control and level-meter messages
  // ---------------------------------------------------------------------

  /**
   * `parse(controlStatusMessage:)` for a control change on channel 0 (the
   * only one whose status byte is 0xB0): fader MSBs and LSBs, V-Pots, and
   * the two messages of a switch.
   */
  function ControlSpec(k: HuiConstants, s: ParserState, b1: UInt7, b2: UInt7): (o: Outcome)
    requires ValidState(s)
    ensures o.result.Success? && ValidState(o.state)
    ensures o.state.timeDisplay == s.timeDisplay && o.state.largeDisplay == s.largeDisplay
  {
    if b1 <= 0x07 then
      Outcome(Success([]), s.(faderMSB := s.faderMSB[b1 := b2]))
    else if 0x20 <= b1 <= 0x27 then
      var level := s.faderMSB[b1 % 16] * 128 + b2;
      if level < 16384 then Outcome(Success([FaderLevel(b1 % 16, level)]), s)
      else Outcome(Success([]), s)
    else if 0x10 <= b1 <= 0x1B then
      Outcome(Success([VPot(b1 % 16, b2)]), s)
    else if b1 == k.zoneSelectByte then
      Outcome(Success([]), s.(switchesZoneSelect := Some(b2)))
    else if b1 == k.portOnOffByte then
      var cleared := s.(switchesZoneSelect := None);
      var high := b2 / 16;
      if (high == 0x0 || high == 0x4) && s.switchesZoneSelect.Some? then
        Outcome(Success([Switch(s.switchesZoneSelect.value, b2 % 16, high == 0x4)]), cleared)
      else Outcome(Success([]), cleared)
    else Outcome(Success([]), s)
  }

  /** `parse(levelMetersMessage:)`: a value of 0x10 or more is the right side with its low nibble, a smaller one the left side with the whole value. */
  function LevelSpec(b1: UInt7, b2: UInt7): (e: ParserEvent)
    ensures e.LevelMeters? && e.channel == b1
    ensures e.side == Right <==> b2 >= 0x10
    ensures e.level == b2 % 16 && e.level <= 0xF
  {
    if b2 >= 0x10 then LevelMeters(b1, Right, b2 % 16) else LevelMeters(b1, Left, b2)
  }

  /** `midiIn(event:)`: what one MIDI event does. */
  function MidiInSpec(k: HuiConstants, t: CharTables, s: ParserState, event: MidiEvent): (o: Outcome)
    requires ValidState(s)
    ensures o.result.Success? ==> ValidState(o.state)
  {
    match event
    case NoteOn(_, note, velocity) =>
      Outcome(Success(if note == 0 && velocity == 0 then [PingReceived] else []), s)
    case NoteOff(_, note, velocity16) =>
      Outcome(Success(if note == 0 && velocity16 in {0, 0x8000} then [PingReceived] else []), s)
    case SysEx7(m, data) =>
      if m != k.manufacturer then Outcome(Success([]), s) else SysExSpec(k, t, s, data)
    case CC(channel, controller, value) =>
      if 0xB0 + channel != HuiTables.ControlStatus then Outcome(Success([]), s) else ControlSpec(k, s, controller, value)
    case NotePressure(channel, note, amount) =>
      if 0xA0 + channel != HuiTables.LevelMetersStatus then Outcome(Success([]), s)
      else Outcome(Success([LevelSpec(note, amount)]), s)
    case _ => Outcome(Success([]), s)
  }

  // ---------------------------------------------------------------------
  // Properties
  // ---------------------------------------------------------------------

  /** Every port message leaves no zone pending, whatever its state nibble. */
  lemma PortMessageClearsZone(k: HuiConstants, s: ParserState, b2: UInt7)
    requires ValidState(s) && IsFreeParserByte(k.portOnOffByte) && k.portOnOffByte != k.zoneSelectByte
    ensures ControlSpec(k, s, k.portOnOffByte, b2).state == s.(switchesZoneSelect := None)
  {
  }

  /** The control bytes of the switch messages that the fader and V-Pot cases do not claim first. */
  predicate IsFreeParserByte(b: int)
  {
    0x07 < b < 0x80 && !(0x20 <= b <= 0x27) && !(0x10 <= b <= 0x1B)
  }

  /**
   * A zone select followed by a port message with state nibble 0x0 or 0x4
   * yields one switch event with that zone, port and state.
   */
  lemma SwitchFromTwoMessages(k: HuiConstants, s: ParserState, zone: UInt7, b2: UInt7)
    requires ValidState(s) && IsFreeParserByte(k.zoneSelectByte) && IsFreeParserByte(k.portOnOffByte)
    requires k.portOnOffByte != k.zoneSelectByte
    requires b2 / 16 == 0 || b2 / 16 == 4
    ensures var o1 := ControlSpec(k, s, k.zoneSelectByte, zone);
      var o2 := ControlSpec(k, o1.state, k.portOnOffByte, b2);
      o1.result == Success([]) &&
      o2.result == Success([Switch(zone, b2 % 16, b2 / 16 == 4)]) &&
      o2.state == s.(switchesZoneSelect := None)
  {
  }

  /** An MSB followed by the same fader's LSB reports level MSB * 128 + LSB. */
  lemma FaderLevelFromTwoMessages(k: HuiConstants, s: ParserState, channel: UInt4, msb: UInt7, lsb: UInt7)
    requires ValidState(s) && channel <= 7
    ensures var o1 := ControlSpec(k, s, channel, msb);
      o1.result == Success([]) &&
      ControlSpec(k, o1.state, 0x20 + channel, lsb).result == Success([FaderLevel(channel, msb * 128 + lsb)])
  {
  }

  /** The fader encoder's two messages read back as the level it encoded. */
  lemma FaderRoundTrip(k: HuiConstants, t: CharTables, s: ParserState, level: UInt14, channel: UInt4)
    requires ValidState(s) && channel <= 7
    ensures var events := EncodeFader(level, channel);
      var o1 := MidiInSpec(k, t, s, events[0]);
      o1.result == Success([]) &&
      MidiInSpec(k, t, o1.state, events[1]).result == Success([FaderLevel(channel, level)])
  {
    FaderLevelFromTwoMessages(k, s, channel, level / 128, level % 128);
  }

  /** Control changes and level meters on a channel other than 0 are ignored. */
  lemma OtherChannelsIgnored(k: HuiConstants, t: CharTables, s: ParserState, event: MidiEvent)
    requires ValidState(s) && (event.CC? || event.NotePressure?) && event.channel != 0
    ensures MidiInSpec(k, t, s, event) == Outcome(Success([]), s)
  {
  }

  /** The small-display encoder's message reads back as that display's text. */
  lemma SmallDisplayRoundTrip(k: HuiConstants, t: CharTables, s: ParserState, display: UInt4, codes: seq<UInt7>)
    requires ValidState(s) && display <= 8 && |codes| == 4
    requires forall i :: 0 <= i < 4 ==> codes[i] < |t.small|
    ensures var o := MidiInSpec(k, t, s, EncodeSmallDisplay(display, codes, k));
      o.state == s &&
      o.result == Success([if display <= 7 then ChannelText(display, Render(t.small, codes).value)
                           else SelectAssignText(Render(t.small, codes).value)])
  {
    var d := [HuiTables.SmallDisplayByte, display] + codes;
    assert ([k.subId1, k.subId2] + d)[2..] == d;
    assert d[2..6] == codes;
  }

  /** The large-display encoder's message stores its letters at its slice and reports the whole display. */
  lemma LargeDisplayRoundTrip(k: HuiConstants, t: CharTables, s: ParserState, slice: UInt4, codes: seq<UInt7>)
    requires ValidState(s) && slice <= 7 && |codes| == 10
    requires forall i :: 0 <= i < 10 ==> codes[i] < |t.large|
    ensures var o := MidiInSpec(k, t, s, EncodeLargeDisplaySlice(slice, codes, k));
      o.result == Success([LargeDisplayText(s.largeDisplay[slice := Render(t.large, codes).value])]) &&
      o.state == s.(largeDisplay := s.largeDisplay[slice := Render(t.large, codes).value])
  {
    var d := [HuiTables.LargeDisplayByte, slice] + codes;
    assert ([k.subId1, k.subId2] + d)[2..] == d;
    var block := d[1..];
    assert block[..11] == block && block[11..] == [] && block[1..] == codes;
    assert SplitEvery(block, 11) == [block];
    var text := Render(t.large, codes).value;
    assert LargeWrite(s.largeDisplay, [block], t.large) == LargeWrite(s.largeDisplay[slice := text], [], t.large);
  }

  /** The time-display encoder's message writes its characters right to left and leaves the other positions. */
  lemma TimeDisplayRoundTrip(k: HuiConstants, t: CharTables, s: ParserState, chars: seq<UInt7>)
    requires ValidState(s) && 1 <= |chars| <= 8
    ensures var o := MidiInSpec(k, t, s, EncodeTimeDisplay(chars, k));
      o.result.Success? && |o.result.value| == 1 && o.result.value[0] == TimeDisplayText(o.state.timeDisplay) &&
      forall j :: 0 <= j < 8 ==>
        o.state.timeDisplay[j] == (if 7 - j < |chars| then TimeChar(chars[7 - j], t.time) else s.timeDisplay[j])
  {
    var d := [HuiTables.TimeDisplayByte] + chars;
    assert ([k.subId1, k.subId2] + d)[2..] == d;
    assert d[1..] == chars;
  }

  /**
   * Inputs the code does not guard against trap: a large-display block whose
   * zone is past the eight slices, more than eight time-display codes, and
   * a large-display message with no byte after the type byte.
   */
  lemma UnguardedInputsTrap(k: HuiConstants, t: CharTables, s: ParserState, zone: UInt8, letters: seq<UInt8>, codes: seq<UInt8>)
    requires ValidState(s) && zone >= 8 && |letters| == 10 && Render(t.large, letters).Some?
    requires |codes| > 8
    ensures SysExSpec(k, t, s, [k.subId1, k.subId2, HuiTables.LargeDisplayByte, zone] + letters).result == Failure(IndexOutOfRange)
    ensures SysExSpec(k, t, s, [k.subId1, k.subId2, HuiTables.TimeDisplayByte] + codes).result == Failure(IndexOutOfRange)
    ensures SysExSpec(k, t, s, [k.subId1, k.subId2, HuiTables.LargeDisplayByte]).result == Failure(InvalidRange)
  {
    var d := [HuiTables.LargeDisplayByte, zone] + letters;
    assert ([k.subId1, k.subId2, HuiTables.LargeDisplayByte, zone] + letters)[2..] == d;
    var block := d[1..];
    assert block[..11] == block && block[11..] == [] && block[1..] == letters;
    assert SplitEvery(block, 11) == [block];
    var d2 := [HuiTables.TimeDisplayByte] + codes;
    assert ([k.subId1, k.subId2, HuiTables.TimeDisplayByte] + codes)[2..] == d2;
    assert d2[1..] == codes;
    assert [k.subId1, k.subId2, HuiTables.LargeDisplayByte][2..] == [HuiTables.LargeDisplayByte];
  }

  // ---------------------------------------------------------------------
  // The parser
  // ---------------------------------------------------------------------

  class HuiParser {
    const constants: HuiConstants
    const tables: CharTables
    var timeDisplay: seq<string>
    var largeDisplay: seq<string>
    var faderMSB: seq<UInt8>
    var switchesZoneSelect: Option<UInt8>

    function State(): ParserState
      reads this
    {
      ParserState(timeDisplay, largeDisplay, faderMSB, switchesZoneSelect)
    }

    predicate Valid()
      reads this
    {
      ValidState(State())
    }

    /** `init(huiEventHandler:)`, which resets. */
    constructor(constants: HuiConstants, tables: CharTables)
      ensures this.constants == constants && this.tables == tables
      ensures Valid() && State() == ResetState(tables)
    {
      this.constants := constants;
      this.tables := tables;
      timeDisplay := [" ", " ", " ", " ", " ", " ", " ", " "];
      largeDisplay := seq(8, _ => tables.largeDefault);
      faderMSB := [0, 0, 0, 0, 0, 0, 0, 0];
      switchesZoneSelect := None;
    }

    /** `reset()`. */
    method Reset()
      modifies this
      ensures Valid() && State() == ResetState(tables)
    {
      timeDisplay := [" ", " ", " ", " ", " ", " ", " ", " "];
      largeDisplay := seq(8, _ => tables.largeDefault);
      faderMSB := [0, 0, 0, 0, 0, 0, 0, 0];
      switchesZoneSelect := None;
    }

    /** `midiIn(event:)`: the events reported to the handler, or the trap the event runs into. */
    method MidiIn(event: MidiEvent) returns (r: Result<seq<ParserEvent>, Trap>)
      requires Valid()
      modifies this
      ensures r == MidiInSpec(constants, tables, old(State()), event).result
      ensures r.Success? ==> Valid() && State() == MidiInSpec(constants, tables, old(State()), event).state
    {
      match event {
        case NoteOn(_, note, velocity) =>
          r := Success(if note == 0 && velocity == 0 then [PingReceived] else []);
        case NoteOff(_, note, velocity16) =>
          r := Success(if note == 0 && velocity16 in {0, 0x8000} then [PingReceived] else []);
        case SysEx7(m, data) =>
          if m != constants.manufacturer {
            return Success([]);
          }
          r := ParseSysExContent(data);
        case CC(_, _, _) =>
          r := ParseControlStatusMessage(event);
        case NotePressure(_, _, _) =>
          r := ParseLevelMetersMessage(event);
        case _ =>
          r := Success([]);
      }
    }

    /** `parse(sysExContent:)`. */
    method ParseSysExContent(data: seq<UInt8>) returns (r: Result<seq<ParserEvent>, Trap>)
      requires Valid()
      modifies this
      ensures r == SysExSpec(constants, tables, old(State()), data).result
      ensures r.Success? ==> Valid() && State() == SysExSpec(constants, tables, old(State()), data).state
    {
      if |data| < 2 || data[0] != constants.subId1 || data[1] != constants.subId2 || |data| == 2 {
        return Success([]);
      }
      var d := data[2..];
      if d[0] == HuiTables.SmallDisplayByte {
        if |d| != 6 {
          return Success([]);
        }
        var channel := d[1];
        var text := RenderCodes(tables.small, d[2..6]);
        if text.None? {
          return Failure(IndexOutOfRange);
        }
        if channel <= 7 {
          return Success([ChannelText(channel, text.value)]);
        } else if channel == 8 {
          return Success([SelectAssignText(text.value)]);
        }
        return Success([]);
      } else if d[0] == HuiTables.LargeDisplayByte {
        if (|d| - 1) % 11 != 0 {
          return Success([]);
        }
        if |d| == 1 {
          return Failure(InvalidRange);
        }
        var blocks := d[1..];
        ghost var start := largeDisplay;
        while |blocks| >= 11
          invariant |largeDisplay| == 8
          invariant LargeWrite(start, SplitEvery(d[1..], 11), tables.large) == LargeWrite(largeDisplay, SplitEvery(blocks, 11), tables.large)
          invariant old(State()) == State().(largeDisplay := start)
          decreases |blocks|
        {
          var zone := blocks[0];
          var letters := blocks[1..11];
          assert blocks[..11][0] == zone && blocks[..11][1..] == letters;
          var text := RenderCodes(tables.large, letters);
          if text.None? {
            return Failure(IndexOutOfRange);
          }
          if zone >= |largeDisplay| {
            return Failure(IndexOutOfRange);
          }
          largeDisplay := largeDisplay[zone := text.value];
          blocks := blocks[11..];
        }
        return Success([LargeDisplayText(largeDisplay)]);
      } else if d[0] == HuiTables.TimeDisplayByte {
        if |d| <= 1 {
          return Success([]);
        }
        var codes := d[1..];
        ghost var start := timeDisplay;
        var i := 0;
        while i < |codes|
          invariant 0 <= i <= |codes| && |timeDisplay| == 8
          invariant TimeWrite(start, codes[..i], tables.time) == Success(timeDisplay)
          invariant old(State()) == State().(timeDisplay := start)
        {
          assert codes[..i + 1][..i] == codes[..i];
          if 7 - i < 0 {
            return Failure(IndexOutOfRange);
          }
          var lookupChar := if codes[i] < |tables.time| then tables.time[codes[i]] else "?";
          timeDisplay := timeDisplay[7 - i := lookupChar];
          i := i + 1;
        }
        assert codes[..i] == codes;
        return Success([TimeDisplayText(timeDisplay)]);
      }
      return Success([]);
    }

    /** `parse(controlStatusMessage:)`. */
    method ParseControlStatusMessage(event: MidiEvent) returns (r: Result<seq<ParserEvent>, Trap>)
      requires Valid() && event.CC?
      modifies this
      ensures r == MidiInSpec(constants, tables, old(State()), event).result
      ensures Valid() && State() == MidiInSpec(constants, tables, old(State()), event).state
    {
      var data := Midi1RawBytes(event);
      if |data| < 3 || data[0] != HuiTables.ControlStatus {
        return Success([]);
      }
      var b1, b2 := data[1], data[2];
      if b1 <= 0x07 {
        faderMSB := faderMSB[b1 % 16 := b2];
        return Success([]);
      } else if 0x20 <= b1 <= 0x27 {
        var channel := b1 % 16;
        var level := faderMSB[channel] as int * 128 + b2 as int;
        if level >= 16384 {
          return Success([]);
        }
        return Success([FaderLevel(channel, level)]);
      } else if 0x10 <= b1 <= 0x1B {
        return Success([VPot(b1 % 16, b2)]);
      } else if b1 == constants.zoneSelectByte {
        switchesZoneSelect := Some(b2);
        return Success([]);
      } else if b1 == constants.portOnOffByte {
        var port := b2 % 16;
        var state: bool;
        var high := b2 / 16;
        if high == 0x0 {
          state := false;
        } else if high == 0x2 {
          switchesZoneSelect := None;
          return Success([]);
        } else if high == 0x4 {
          state := true;
        } else {
          switchesZoneSelect := None;
          return Success([]);
        }
        if switchesZoneSelect.Some? {
          var zone := switchesZoneSelect.value;
          switchesZoneSelect := None;
          return Success([Switch(zone, port, state)]);
        }
        switchesZoneSelect := None;
        return Success([]);
      }
      return Success([]);
    }

    /** `parse(levelMetersMessage:)`. */
    method ParseLevelMetersMessage(event: MidiEvent) returns (r: Result<seq<ParserEvent>, Trap>)
      requires Valid() && event.NotePressure?
      ensures r == MidiInSpec(constants, tables, State(), event).result
      ensures State() == MidiInSpec(constants, tables, State(), event).state
    {
      var data := Midi1RawBytes(event);
      if |data| < 3 || data[0] != HuiTables.LevelMetersStatus {
        return Success([]);
      }
      var channel, sideAndValue := data[1], data[2];
      if sideAndValue >= 0x10 {
        return Success([LevelMeters(channel, Right, sideAndValue % 16)]);
      }
      return Success([LevelMeters(channel, Left, sideAndValue)]);
    }
  }
}
