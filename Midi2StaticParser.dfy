/**
 * The first, stateless MIDI 2.0 parser of Universal MIDI Packets
 * (`MIDI.MIDI2Parser.parsedEvents(in:)`, Sources/MIDIKit/Parser/MIDI2Parser.swift).
 *
 * It reads System Real Time / Common, MIDI 1.0 channel-voice and
 * single-packet SysEx7 messages, and nothing else: utility, MIDI 2.0
 * channel-voice and data-128 packets give no event, and so do SysEx7
 * packets that are part of a message sent in several packets.
 *
 * Its complete-SysEx7 check rejects a packet carrying six payload bytes
 * (the most a data-64 packet holds); `Revision` selects the check as
 * written or as the later parsers have it.
 */
module Midi2StaticParsers {
  import opened Wrappers
  import opened MidiTypes
  import opened UmpFields
  import Current = Midi2Parsers

  /** The events of this parser, as the library's event type had them then. */
  datatype Event =
    | NoteOff(note: UInt7, velocity: UInt7, channel: UInt4, group: UInt4)
    | NoteOn(note: UInt7, velocity: UInt7, channel: UInt4, group: UInt4)
    | PolyAftertouch(note: UInt7, pressure: UInt7, channel: UInt4, group: UInt4)
    | CC(controller: UInt7, value: UInt7, channel: UInt4, group: UInt4)
    | ProgramChange(program: UInt7, channel: UInt4, group: UInt4)
    | ChanAftertouch(pressure: UInt7, channel: UInt4, group: UInt4)
    | PitchBend(bend: UInt14, channel: UInt4, group: UInt4)
    | SysEx(body: seq<UInt8>, group: UInt4)
    | TimecodeQuarterFrame(dataByte: UInt7, group: UInt4)
    | SongPositionPointer(midiBeat: UInt14, group: UInt4)
    | SongSelect(number: UInt7, group: UInt4)
    | TuneRequest(group: UInt4)
    | TimingClock(group: UInt4)
    | Start(group: UInt4)
    | Continue(group: UInt4)
    | Stop(group: UInt4)
    | ActiveSensing(group: UInt4)
    | SystemReset(group: UInt4)

  /**
   * `MIDI.Event.sysEx(from:group:)`, which is not part of this model: the
   * event it builds from 0xF0, the payload and 0xF7, or no value where it throws.
   */
  type SysExDecoder = (seq<UInt8>, UInt4) -> Option<Event>

  /** The complete-SysEx7 check as written, or as the later parsers have it. */
  datatype Revision = AsWritten | Corrected

  /** `parseSystemRealTimeAndCommon`: the bytes after byte 0 of a System Real Time / Common UMP. */
  function ParseSystemRealTimeAndCommon(bytes: seq<UInt8>, group: UInt4): (r: Option<Event>)
    ensures |bytes| != 3 ==> r.None?
    ensures r.Some? <==> (|bytes| == 3 && Current.DefinedSystemStatus(bytes[0])
                          && forall i :: 1 <= i <= Current.SystemDataCount(bytes[0]) ==> bytes[i] < 0x80)
    ensures r.Some? ==> r.value.group == group
  {
    if |bytes| != 3 then None
    else
      var status := bytes[0];
      if status == 0xF1 then
        (match UInt7Exactly(bytes[1])
         case None => None
         case Some(d) => Some(TimecodeQuarterFrame(d, group)))
      else if status == 0xF2 then
        (match (UInt7Exactly(bytes[1]), UInt7Exactly(bytes[2]))
         case (Some(d1), Some(d2)) => Some(SongPositionPointer(Join14(d2, d1), group))
         case _ => None)
      else if status == 0xF3 then
        (match UInt7Exactly(bytes[1])
         case None => None
         case Some(d) => Some(SongSelect(d, group)))
      else if status == 0xF6 then Some(TuneRequest(group))
      else if status == 0xF8 then Some(TimingClock(group))
      else if status == 0xFA then Some(Event.Start(group))
      else if status == 0xFB then Some(Event.Continue(group))
      else if status == 0xFC then Some(Stop(group))
      else if status == 0xFE then Some(ActiveSensing(group))
      else if status == 0xFF then Some(SystemReset(group))
      else None
  }

  /** The events `parseMIDI1ChannelVoice` builds. */
  predicate IsChannelVoice(e: Event)
  {
    e.NoteOff? || e.NoteOn? || e.PolyAftertouch? || e.CC? || e.ProgramChange? || e.ChanAftertouch? || e.PitchBend?
  }

  /**
   * `parseMIDI1ChannelVoice`: the bytes after byte 0 of a MIDI 1.0
   * channel-voice UMP; the channel is the low nibble of the status byte.
   */
  function ParseMidi1ChannelVoice(bytes: seq<UInt8>, group: UInt4): (r: Option<Event>)
    ensures r.Some? <==> (|bytes| == 3 && Current.Midi1VoiceNibble(High(bytes[0]))
                          && forall i :: 1 <= i <= Current.Midi1DataCount(High(bytes[0])) ==> bytes[i] < 0x80)
    ensures r.Some? ==> IsChannelVoice(r.value) && r.value.channel == Low(bytes[0]) && r.value.group == group
  {
    if |bytes| != 3 then None
    else
      var high := High(bytes[0]);
      var channel := Low(bytes[0]);
      var d1 := UInt7Exactly(bytes[1]);
      var d2 := UInt7Exactly(bytes[2]);
      if high == 0x8 || high == 0x9 || high == 0xA || high == 0xB || high == 0xE then
        (match (d1, d2)
         case (Some(a), Some(b)) =>
           Some(if high == 0x8 then NoteOff(a, b, channel, group)
                else if high == 0x9 then NoteOn(a, b, channel, group)
                else if high == 0xA then PolyAftertouch(a, b, channel, group)
                else if high == 0xB then CC(a, b, channel, group)
                else PitchBend(Join14(b, a), channel, group))
         case _ => None)
      else if high == 0xC || high == 0xD then
        (match d1
         case Some(a) =>
           Some(if high == 0xC then ProgramChange(a, channel, group) else ChanAftertouch(a, channel, group))
         case None => None)
      else None
  }

  /**
   * The payload-size check of a complete SysEx7 packet (`bytes` being the
   * seven bytes after byte 0): as written, `bytes.count >= numberOfBytes + 2`;
   * corrected, at most the six bytes a data-64 packet holds.
   */
  predicate CompleteFits(rev: Revision, bytes: seq<UInt8>, n: nat)
  {
    match rev
    case AsWritten => |bytes| >= n + 2
    case Corrected => n <= 6
  }

  /**
   * `parseData64Bit`: a complete SysEx7 packet gives the decoder's event
   * for 0xF0, its payload and 0xF7; Start, Continue and End packets are not
   * handled and give no event.
   */
  function ParseData64Bit(rev: Revision, bytes: seq<UInt8>, group: UInt4, sysEx: SysExDecoder): (r: Option<Event>)
    ensures r.Some? ==> |bytes| == 7 && High(bytes[0]) == SysExStatusRaw(Complete) && Low(bytes[0]) <= 6
    ensures |bytes| == 7 && High(bytes[0]) == SysExStatusRaw(Complete) && Low(bytes[0]) <= 5
            ==> r == sysEx([0xF0] + bytes[1..1 + Low(bytes[0])] + [0xF7], group)
  {
    if |bytes| != 7 then None
    else
      match SysExStatusFromRaw(High(bytes[0]))
      case None => None
      case Some(status) =>
        var n := Low(bytes[0]);
        match status
        case Complete =>
          if !CompleteFits(rev, bytes, n) then None
          else sysEx([0xF0] + bytes[1..1 + n] + [0xF7], group)
        case _ => None
  }

  function OptionSeq(e: Option<Event>): (r: seq<Event>)
    ensures e.None? ==> r == []
    ensures e.Some? ==> r == [e.value]
  {
    if e.Some? then [e.value] else []
  }

  /** `MIDI2Parser.parsedEvents(in:)`: the events of one UMP, at most one. */
  function ParsedEvents(rev: Revision, bytes: seq<UInt8>, sysEx: SysExDecoder): (r: seq<Event>)
    ensures |r| <= 1
    ensures |bytes| == 0 || |bytes| % 4 != 0 ==> r == []
    ensures |r| == 1 ==> 0x1 <= High(bytes[0]) <= 0x3
    ensures |r| == 1 && High(bytes[0]) != 0x3 ==> r[0].group == Low(bytes[0])
  {
    if |bytes| == 0 || |bytes| % 4 != 0 then []
    else
      var group := Low(bytes[0]);
      var rest := bytes[1..];
      match MessageTypeFromRaw(High(bytes[0]))
      case None => []
      case Some(Utility) => []
      case Some(SystemRealTimeAndCommon) => OptionSeq(ParseSystemRealTimeAndCommon(rest, group))
      case Some(Midi1ChannelVoice) => OptionSeq(ParseMidi1ChannelVoice(rest, group))
      case Some(Data64Bit) => OptionSeq(ParseData64Bit(rev, rest, group, sysEx))
      case Some(Midi2ChannelVoice) => []
      case Some(Data128Bit) => []
  }

  // ---------------------------------------------------------------------
  // Properties
  // ---------------------------------------------------------------------

  /** Utility, MIDI 2.0 channel-voice, data-128 and unknown message types give no event. */
  lemma UnhandledTypes(rev: Revision, bytes: seq<UInt8>, sysEx: SysExDecoder)
    requires |bytes| > 0
    requires var t := High(bytes[0]); t == 0x0 || t == 0x4 || t >= 0x5
    ensures ParsedEvents(rev, bytes, sysEx) == []
  {
  }

  /** Start, Continue and End SysEx7 packets give no event. */
  lemma MultiPacketSysExIgnored(rev: Revision, bytes: seq<UInt8>, group: UInt4, sysEx: SysExDecoder)
    requires |bytes| == 7 && 0x1 <= High(bytes[0]) <= 0x3
    ensures ParseData64Bit(rev, bytes, group, sysEx).None?
  {
  }

  /** The stateless parser's events in the event type of the later parsers. */
  function Upgrade(e: Event): (r: Current.Event)
    requires !e.SysEx?
    ensures r.group == e.group
  {
    match e
    case NoteOff(n, v, ch, g) => Current.NoteOff(n, Current.Velocity7(v), Current.NoAttribute, ch, g)
    case NoteOn(n, v, ch, g) => Current.NoteOn(n, Current.Velocity7(v), Current.NoAttribute, ch, g)
    case PolyAftertouch(n, p, ch, g) => Current.NotePressure(n, Current.Amount7(p), ch, g)
    case CC(c, v, ch, g) => Current.CC(c, Current.Amount7(v), ch, g)
    case ProgramChange(p, ch, g) => Current.ProgramChange(p, Current.NoBankSelect, ch, g)
    case ChanAftertouch(p, ch, g) => Current.Pressure(Current.Amount7(p), ch, g)
    case PitchBend(v, ch, g) => Current.PitchBend(Current.Bend14(v), ch, g)
    case TimecodeQuarterFrame(d, g) => Current.TimecodeQuarterFrame(d, g)
    case SongPositionPointer(v, g) => Current.SongPositionPointer(v, g)
    case SongSelect(n, g) => Current.SongSelect(n, g)
    case TuneRequest(g) => Current.TuneRequest(g)
    case TimingClock(g) => Current.TimingClock(g)
    case Start(g) => Current.Event.Start(g)
    case Continue(g) => Current.Event.Continue(g)
    case Stop(g) => Current.Stop(g)
    case ActiveSensing(g) => Current.ActiveSensing(g)
    case SystemReset(g) => Current.SystemReset(g)
  }

  function UpgradeOption(e: Option<Event>): Option<Current.Event>
    requires e.Some? ==> !e.value.SysEx?
  {
    match e
    case None => None
    case Some(v) => Some(Upgrade(v))
  }

  /** The system sub-parser reads every UMP as the later parsers do. */
  lemma SystemAgreesWithLater(bytes: seq<UInt8>, group: UInt4)
    ensures var r := ParseSystemRealTimeAndCommon(bytes, group);
      r.Some? ==> !r.value.SysEx?
    ensures UpgradeOption(ParseSystemRealTimeAndCommon(bytes, group))
            == Current.ParseSystemRealTimeAndCommon(bytes, group)
  {
  }

  /** The MIDI 1.0 channel-voice sub-parser reads every UMP as the later parsers do. */
  lemma Midi1AgreesWithLater(bytes: seq<UInt8>, group: UInt4)
    requires |bytes| > 0
    ensures var r := ParseMidi1ChannelVoice(bytes, group);
      r.Some? ==> !r.value.SysEx?
    ensures UpgradeOption(ParseMidi1ChannelVoice(bytes, group))
            == Current.ParseMidi1ChannelVoice(bytes, Low(bytes[0]), group)
  {
  }

  // ---------------------------------------------------------------------
  // The six-byte complete SysEx7 packet
  // ---------------------------------------------------------------------

  /** The seven bytes after byte 0 of a complete SysEx7 UMP carrying `payload`. */
  function CompletePacketBody(payload: seq<UInt8>): (r: seq<UInt8>)
    requires |payload| <= 6
    ensures |r| == 7 && High(r[0]) == SysExStatusRaw(Complete) && Low(r[0]) == |payload|
    ensures r[1..1 + |payload|] == payload
  {
    var r := [Nibbles(SysExStatusRaw(Complete), |payload|)] + payload + Zeros(6 - |payload|);
    assert r[1..1 + |payload|] == payload;
    r
  }

  /**
   * As written, a complete SysEx7 packet carrying six payload bytes gives
   * no event, whatever the decoder would make of it.
   */
  lemma SixByteSysExDroppedAsWritten(payload: seq<UInt8>, group: UInt4, sysEx: SysExDecoder)
    requires |payload| == 6
    ensures ParseData64Bit(AsWritten, CompletePacketBody(payload), group, sysEx).None?
  {
  }

  /** The concrete packet 0x30 0x06 0x01 ... 0x06 is dropped as written, and read as a six-byte SysEx when corrected. */
  lemma SixByteSysExExample(sysEx: SysExDecoder)
    requires sysEx([0xF0, 1, 2, 3, 4, 5, 6, 0xF7], 0).Some?
    ensures ParsedEvents(AsWritten, [0x30, 0x06, 1, 2, 3, 4, 5, 6], sysEx) == []
    ensures ParsedEvents(Corrected, [0x30, 0x06, 1, 2, 3, 4, 5, 6], sysEx)
            == [sysEx([0xF0, 1, 2, 3, 4, 5, 6, 0xF7], 0).value]
  {
    var bytes: seq<UInt8> := [0x30, 0x06, 1, 2, 3, 4, 5, 6];
    assert MessageTypeFromRaw(High(bytes[0])) == Some(Data64Bit);
    assert bytes[1..] == [0x06, 1, 2, 3, 4, 5, 6];
    assert bytes[1..][1..7] == [1, 2, 3, 4, 5, 6];
    assert High(0x06) == 0x0 && Low(0x06) == 6;
    assert [0xF0] + bytes[1..][1..7] + [0xF7] == [0xF0, 1, 2, 3, 4, 5, 6, 0xF7];
  }

  /**
   * Corrected, every complete SysEx7 packet (zero to six payload bytes)
   * gives the decoder's event for 0xF0, the payload and 0xF7.
   */
  lemma CompleteSysExCorrected(payload: seq<UInt8>, group: UInt4, sysEx: SysExDecoder)
    requires |payload| <= 6
    ensures ParseData64Bit(Corrected, CompletePacketBody(payload), group, sysEx)
            == sysEx([0xF0] + payload + [0xF7], group)
  {
    FieldRoundTrips(Data64Bit, Complete, NoOp);
  }

  /** The two revisions differ only on complete packets with a six-byte payload. */
  lemma RevisionsAgreeBelowSix(bytes: seq<UInt8>, group: UInt4, sysEx: SysExDecoder)
    requires |bytes| == 7 ==> Low(bytes[0]) != 6
    ensures ParseData64Bit(AsWritten, bytes, group, sysEx) == ParseData64Bit(Corrected, bytes, group, sysEx)
  {
  }
}
