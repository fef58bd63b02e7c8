/**
 * The stateful MIDI 2.0 parser of Universal MIDI Packets, in its two
 * editions: `MIDI.IO.MIDI2Parser` (Sources/MIDIKit/IO/Parser/MIDI2Parser.swift)
 * and `MIDI2Parser` of the IO library (Sources/MIDIKitIO/Parser/MIDI2Parser.swift).
 *
 * A packet is the bytes of one UMP, possibly preceded by Jitter-Reduction
 * utility words.  Byte 0 gives the message type (high nibble) and the
 * group (low nibble); the bytes after it go to the sub-parser of that type,
 * which checks that there are exactly as many as the type needs.  SysEx7
 * and SysEx8 messages that span several packets are gathered in two
 * buffers of the parser: one byte sequence for SysEx7, and one byte
 * sequence per stream ID for SysEx8.
 *
 * The two editions differ only in MIDI 2.0 channel-voice status nibbles
 * 0x2 ... 0x5, which the current edition reads as RPN / NRPN messages and
 * the earlier one ignores.
 */
module Midi2Parsers {
  import opened Wrappers
  import opened MidiTypes
  import opened UmpFields

  // ---------------------------------------------------------------------
  // Events
  // ---------------------------------------------------------------------

  /** Note velocity: `.midi1` seven-bit or `.midi2` sixteen-bit. */
  datatype Velocity = Velocity7(v7: UInt7) | Velocity16(v16: UInt16)

  /** A controller or pressure amount: `.midi1` seven-bit or `.midi2` 32-bit. */
  datatype Amount = Amount7(a7: UInt7) | Amount32(a32: UInt32)

  /** A pitch-bend value: `.midi1` fourteen-bit or `.midi2` 32-bit. */
  datatype BendValue = Bend14(b14: UInt14) | Bend32(b32: UInt32)

  /** The note attribute, kept as its raw type byte and data word. */
  datatype NoteAttribute = NoAttribute | Attribute(kind: UInt8, data: UInt16)

  /** The controller of a per-note CC, kept as its raw index byte. */
  datatype PerNoteController = Registered(number: UInt8) | Assignable(number: UInt8)

  datatype Bank = NoBankSelect | BankSelect(bank: UInt14)

  /** The change of an RPN / NRPN message. */
  datatype ParameterChange = Absolute | Relative

  /** The events the parser builds, as `MIDIEvent` cases. */
  datatype Event =
    | NoteOff(note: UInt7, velocity: Velocity, attribute: NoteAttribute, channel: UInt4, group: UInt4)
    | NoteOn(note: UInt7, velocity: Velocity, attribute: NoteAttribute, channel: UInt4, group: UInt4)
    | NotePressure(note: UInt7, amount: Amount, channel: UInt4, group: UInt4)
    | CC(controller: UInt7, value: Amount, channel: UInt4, group: UInt4)
    | ProgramChange(program: UInt7, bank: Bank, channel: UInt4, group: UInt4)
    | Pressure(amount: Amount, channel: UInt4, group: UInt4)
    | PitchBend(bend: BendValue, channel: UInt4, group: UInt4)
    | NoteCC(note: UInt7, perNote: PerNoteController, word: UInt32, channel: UInt4, group: UInt4)
    | NotePitchBend(note: UInt7, word: UInt32, channel: UInt4, group: UInt4)
    | NoteManagement(note: UInt7, flags: UInt8, channel: UInt4, group: UInt4)
    | Rpn(parameterMsb: UInt7, parameterLsb: UInt7, dataMsb: UInt7, dataLsb: UInt7,
          change: ParameterChange, channel: UInt4, group: UInt4)
    | Nrpn(parameterMsb: UInt7, parameterLsb: UInt7, dataMsb: UInt7, dataLsb: UInt7,
           change: ParameterChange, channel: UInt4, group: UInt4)
    | SysEx7(body: seq<UInt8>, group: UInt4)
    | SysEx8(body: seq<UInt8>, group: UInt4)
    | TimecodeQuarterFrame(dataByte: UInt7, group: UInt4)
    | SongPositionPointer(midiBeat: UInt14, group: UInt4)
    | SongSelect(number: UInt7, group: UInt4)
    | TuneRequest(group: UInt4)
    | TimingClock(group: UInt4)
    | Start(group: UInt4)
    | Continue(group: UInt4)
    | Stop(group: UInt4)
    | ActiveSensing(group: UInt4)
    | SystemReset(group: UInt4)
    | NoOp(group: UInt4)
    | JrClock(time: UInt16, group: UInt4)
    | JrTimestamp(time: UInt16, group: UInt4)

  /**
   * The library code the parser calls and that is not part of this model:
   * `MIDIEvent.sysEx7(rawBytes:group:)` and `MIDIEvent.sysEx8(rawBytes:group:)`
   * (no value where they throw), and the 32-bit to 14-bit downscaling
   * `ChanVoice14Bit32BitValue.midi2(_).midi1Value`.
   */
  datatype Decoders = Decoders(
    sysEx7: (seq<UInt8>, UInt4) -> Option<Event>,
    sysEx8: (seq<UInt8>, UInt4) -> Option<Event>,
    midi1Value: UInt32 -> UInt14)

  /** `MIDI.IO.MIDI2Parser` (earlier) or the IO library's `MIDI2Parser` (current). */
  datatype Edition = Earlier | Current

  // ---------------------------------------------------------------------
  // Stateless sub-parsers; `bytes` are the packet bytes after byte 0
  // ---------------------------------------------------------------------

  /** System statuses that the UMP carries with an event. */
  predicate DefinedSystemStatus(status: UInt8)
  {
    status == 0xF1 || status == 0xF2 || status == 0xF3 || status == 0xF6 || status == 0xF8
    || status == 0xFA || status == 0xFB || status == 0xFC || status == 0xFE || status == 0xFF
  }

  /** The data bytes a defined system status uses. */
  function SystemDataCount(status: UInt8): nat
  {
    if status == 0xF1 || status == 0xF3 then 1 else if status == 0xF2 then 2 else 0
  }

  /** `parseSystemRealTimeAndCommon`. */
  function ParseSystemRealTimeAndCommon(bytes: seq<UInt8>, group: UInt4): (r: Option<Event>)
    ensures |bytes| != 3 ==> r.None?
    ensures r.Some? ==> DefinedSystemStatus(bytes[0]) && r.value.group == group
    ensures r.Some? ==> forall i :: 1 <= i <= SystemDataCount(bytes[0]) ==> bytes[i] < 0x80
    ensures (|bytes| == 3 && DefinedSystemStatus(bytes[0])
             && forall i :: 1 <= i <= SystemDataCount(bytes[0]) ==> bytes[i] < 0x80) ==> r.Some?
  {
    if |bytes| != 3 then None
    else
      var status := bytes[0];
      if status == 0xF1 then
        (match UInt7Exactly(bytes[1])
         case None => None
         case Some(d) => Some(TimecodeQuarterFrame(d, group)))
      else if status == 0xF2 then
        (match (UInt7Exactly(bytes[1]), UInt7Exactly(bytes[2]))
         case (Some(d1), Some(d2)) => Some(SongPositionPointer(Join14(d2, d1), group))
         case _ => None)
      else if status == 0xF3 then
        (match UInt7Exactly(bytes[1])
         case None => None
         case Some(d) => Some(SongSelect(d, group)))
      else if status == 0xF6 then Some(TuneRequest(group))
      else if status == 0xF8 then Some(TimingClock(group))
      else if status == 0xFA then Some(Event.Start(group))
      else if status == 0xFB then Some(Event.Continue(group))
      else if status == 0xFC then Some(Stop(group))
      else if status == 0xFE then Some(ActiveSensing(group))
      else if status == 0xFF then Some(SystemReset(group))
      else None
  }

  /** Status nibbles 0x8 ... 0xE of a MIDI 1.0 channel-voice message. */
  predicate Midi1VoiceNibble(high: UInt4)
  {
    0x8 <= high <= 0xE
  }

  /** Program change and channel pressure carry one data byte, the others two. */
  function Midi1DataCount(high: UInt4): nat
  {
    if high == 0xC || high == 0xD then 1 else 2
  }

  /** `parseMIDI1ChannelVoice`: the channel is the low nibble of the status byte, read by the caller. */
  function ParseMidi1ChannelVoice(bytes: seq<UInt8>, channel: UInt4, group: UInt4): (r: Option<Event>)
    ensures r.Some? <==> (|bytes| == 3 && Midi1VoiceNibble(High(bytes[0]))
                          && forall i :: 1 <= i <= Midi1DataCount(High(bytes[0])) ==> bytes[i] < 0x80)
    ensures r.Some? ==> IsMidi1Voice(r.value) && r.value.channel == channel && r.value.group == group
  {
    if |bytes| != 3 then None
    else
      var high := High(bytes[0]);
      var d1 := UInt7Exactly(bytes[1]);
      var d2 := UInt7Exactly(bytes[2]);
      if high == 0x8 || high == 0x9 || high == 0xA || high == 0xB || high == 0xE then
        (match (d1, d2)
         case (Some(a), Some(b)) =>
           Some(if high == 0x8 then NoteOff(a, Velocity7(b), NoAttribute, channel, group)
                else if high == 0x9 then NoteOn(a, Velocity7(b), NoAttribute, channel, group)
                else if high == 0xA then NotePressure(a, Amount7(b), channel, group)
                else if high == 0xB then CC(a, Amount7(b), channel, group)
                else PitchBend(Bend14(Join14(b, a)), channel, group))
         case _ => None)
      else if high == 0xC || high == 0xD then
        (match d1
         case Some(a) =>
           Some(if high == 0xC then ProgramChange(a, NoBankSelect, channel, group)
                else Pressure(Amount7(a), channel, group))
         case None => None)
      else None
  }

  /** The events `parseMIDI1ChannelVoice` can build. */
  predicate IsMidi1Voice(e: Event)
  {
    match e
    case NoteOff(_, v, a, _, _) => v.Velocity7? && a.NoAttribute?
    case NoteOn(_, v, a, _, _) => v.Velocity7? && a.NoAttribute?
    case NotePressure(_, a, _, _) => a.Amount7?
    case CC(_, a, _, _) => a.Amount7?
    case ProgramChange(_, b, _, _) => b.NoBankSelect?
    case Pressure(a, _, _) => a.Amount7?
    case PitchBend(b, _, _) => b.Bend14?
    case _ => false
  }

  /** The events that carry a channel. */
  predicate IsChannelVoice(e: Event)
  {
    e.NoteOff? || e.NoteOn? || e.NotePressure? || e.CC? || e.ProgramChange? || e.Pressure?
    || e.PitchBend? || e.NoteCC? || e.NotePitchBend? || e.NoteManagement? || e.Rpn? || e.Nrpn?
  }

  /** The RPN / NRPN kind and change of status nibbles 0x2 ... 0x5 (`typeAndChange(fromUMPStatusNibble:)`). */
  function ParameterNumberEvent(high: UInt4, param: (UInt7, UInt7), data: (UInt7, UInt7),
                                channel: UInt4, group: UInt4): (r: Event)
    requires 0x2 <= high <= 0x5
    ensures (high == 0x2 || high == 0x4) <==> r.Rpn?
    ensures (high == 0x3 || high == 0x5) <==> r.Nrpn?
    ensures r.change == (if high <= 0x3 then Absolute else Relative)
    ensures (r.parameterMsb, r.parameterLsb, r.dataMsb, r.dataLsb) == (param.0, param.1, data.0, data.1)
    ensures r.channel == channel && r.group == group
  {
    var change := if high <= 0x3 then Absolute else Relative;
    if high == 0x2 || high == 0x4 then Rpn(param.0, param.1, data.0, data.1, change, channel, group)
    else Nrpn(param.0, param.1, data.0, data.1, change, channel, group)
  }

  /** `parseMIDI2ChannelVoice`; `bytes[3..7]` is the second word. */
  function ParseMidi2ChannelVoice(ed: Edition, bytes: seq<UInt8>, channel: UInt4, group: UInt4,
                             midi1Value: UInt32 -> UInt14): (r: Option<Event>)
    ensures |bytes| != 7 ==> r.None?
    ensures |bytes| == 7 && High(bytes[0]) == 0x7 ==> r.None?
    ensures |bytes| == 7 && 0x2 <= High(bytes[0]) <= 0x5 ==> (r.Some? <==> ed == Current && bytes[1] < 0x80 && bytes[2] < 0x80)
    ensures r.Some? ==> IsChannelVoice(r.value) && r.value.channel == channel && r.value.group == group
  {
    if |bytes| != 7 then None
    else
      var high := High(bytes[0]);
      var word2 := Word32(bytes[3], bytes[4], bytes[5], bytes[6]);
      if high == 0x0 || high == 0x1 then
        (match UInt7Exactly(bytes[1])
         case None => None
         case Some(note) =>
           var cc := if high == 0x0 then Registered(bytes[2]) else Assignable(bytes[2]);
           Some(NoteCC(note, cc, word2, channel, group)))
      else if 0x2 <= high <= 0x5 then
        if ed == Earlier then None
        else
          var msb := UInt7Exactly(bytes[1]);
          var lsb := UInt7Exactly(bytes[2]);
          if msb.None? || lsb.None? then None
          else
            assert ed == Current && bytes[1] < 0x80 && bytes[2] < 0x80;
            Some(ParameterNumberEvent(high, (msb.value, lsb.value), Split14(midi1Value(word2)), channel, group))
      else if high == 0x6 then
        (match UInt7Exactly(bytes[1])
         case None => None
         case Some(note) => Some(NotePitchBend(note, word2, channel, group)))
      else if high == 0x8 || high == 0x9 then
        (match UInt7Exactly(bytes[1])
         case None => None
         case Some(note) =>
           var velocity := Velocity16(Word16(bytes[3], bytes[4]));
           var attribute := Attribute(bytes[2], Word16(bytes[5], bytes[6]));
           Some(if high == 0x8 then NoteOff(note, velocity, attribute, channel, group)
                else NoteOn(note, velocity, attribute, channel, group)))
      else if high == 0xA then
        (match UInt7Exactly(bytes[1])
         case None => None
         case Some(note) => Some(NotePressure(note, Amount32(word2), channel, group)))
      else if high == 0xB then
        (match UInt7Exactly(bytes[1])
         case None => None
         case Some(index) => Some(CC(index, Amount32(word2), channel, group)))
      else if high == 0xC then
        (match (UInt7Exactly(bytes[3]), UInt7Exactly(bytes[5]), UInt7Exactly(bytes[6]))
         case (Some(program), Some(bankMsb), Some(bankLsb)) =>
           var bank := if bytes[2] % 2 == 1 then BankSelect(Join14(bankMsb, bankLsb)) else NoBankSelect;
           Some(ProgramChange(program, bank, channel, group))
         case _ => None)
      else if high == 0xD then Some(Pressure(Amount32(word2), channel, group))
      else if high == 0xE then Some(PitchBend(Bend32(word2), channel, group))
      else if high == 0xF then
        (match UInt7Exactly(bytes[1])
         case None => None
         case Some(note) => Some(NoteManagement(note, bytes[2], channel, group)))
      else None
  }

  /**
   * `parseMIDI2Utility`: the utility event and the bytes after its word,
   * which a JR Clock or JR Timestamp may precede; NOOP never has followers.
   */
  function ParseUtility(bytes: seq<UInt8>, group: UInt4): (r: Option<(Event, seq<UInt8>)>)
    ensures |bytes| < 3 ==> r.None?
    ensures r.Some? <==> |bytes| >= 3 && High(bytes[0]) <= 2
    ensures r.Some? ==> r.value.1 == [] || r.value.1 == bytes[3..]
    ensures r.Some? ==> r.value.0.group == group
    ensures r.Some? && r.value.0.NoOp? ==> r.value.1 == []
  {
    if |bytes| < 3 then None
    else
      var status := UtilityStatusFromRaw(High(bytes[0]));
      if status.None? then None
      else if status.value == UtilityStatus.NoOp then Some((Event.NoOp(group), []))
      else
        var time := Word16(bytes[1], bytes[2]);
        var e := if status.value == UtilityStatus.JrClock then Event.JrClock(time, group) else Event.JrTimestamp(time, group);
        Some((e, if |bytes| > 3 then bytes[3..] else []))
  }

  // ---------------------------------------------------------------------
  // Sub-parsers with buffers
  // ---------------------------------------------------------------------

  /** The new buffer state of a sub-parser and the event it returns, if any. */
  datatype Outcome<S> = Outcome(state: S, event: Option<Event>)

  /** The payload bytes a SysEx7 packet carries in its status byte's low nibble, if valid. */
  predicate ValidSysEx7(bytes: seq<UInt8>)
  {
    |bytes| == 7 && High(bytes[0]) <= 3 && Low(bytes[0]) <= 6
  }

  /**
   * `parseData64Bit` over the SysEx7 buffer.  Start refills the buffer,
   * Continue appends to it, End appends, empties it and emits the whole
   * message; Continue and End are ignored while the buffer is empty.
   */
  function Data64(buffer: seq<UInt8>, bytes: seq<UInt8>, group: UInt4,
                  sysEx7: (seq<UInt8>, UInt4) -> Option<Event>): (r: Outcome<seq<UInt8>>)
    ensures !ValidSysEx7(bytes) ==> r == Outcome(buffer, None)
    ensures r.event.Some? ==> ValidSysEx7(bytes) && (High(bytes[0]) == 0x0 || High(bytes[0]) == 0x3)
    ensures ValidSysEx7(bytes) && High(bytes[0]) == 0x1 ==> r.state == bytes[1..1 + Low(bytes[0])]
    ensures r.state != buffer ==> ValidSysEx7(bytes) && (High(bytes[0]) == 0x1 || |buffer| > 0)
  {
    if |bytes| != 7 then Outcome(buffer, None)
    else
      match SysExStatusFromRaw(High(bytes[0]))
      case None => Outcome(buffer, None)
      case Some(status) =>
        var n := Low(bytes[0]);
        if n > 6 then Outcome(buffer, None)
        else
          var payload := bytes[1..1 + n];
          match status
          case Complete => Outcome(buffer, sysEx7([0xF0] + payload + [0xF7], group))
          case Start => Outcome(payload, None)
          case Continue => if |buffer| == 0 then Outcome(buffer, None) else Outcome(buffer + payload, None)
          case End =>
            if |buffer| == 0 then Outcome(buffer, None)
            else Outcome([], sysEx7([0xF0] + (buffer + payload) + [0xF7], group))
  }

  /** A regular SysEx8 packet: a SysEx status nibble and 1 ... 14 bytes, the first of them the stream ID. */
  predicate ValidSysEx8(bytes: seq<UInt8>)
  {
    |bytes| == 15 && High(bytes[0]) <= 3 && 1 <= Low(bytes[0]) <= 14
  }

  /**
   * `parseData128Bit`: a regular SysEx8 packet goes to
   * `parseData128BitRegularSysEx`; a mixed-data-set packet (current edition)
   * and any other status give no event.  Buffers are kept per stream ID:
   * Start sets the entry (stream ID included), Continue appends to a
   * non-empty entry, End removes it and emits the whole message.
   */
  function Data128(buffers: map<UInt8, seq<UInt8>>, bytes: seq<UInt8>, group: UInt4,
                   sysEx8: (seq<UInt8>, UInt4) -> Option<Event>): (r: Outcome<map<UInt8, seq<UInt8>>>)
    ensures !ValidSysEx8(bytes) ==> r == Outcome(buffers, None)
    ensures r.event.Some? ==> ValidSysEx8(bytes) && (High(bytes[0]) == 0x0 || High(bytes[0]) == 0x3)
    ensures forall id :: ValidSysEx8(bytes) && id != bytes[1] ==>
              (id in r.state <==> id in buffers) && (id in buffers ==> r.state[id] == buffers[id])
  {
    if |bytes| != 15 then Outcome(buffers, None)
    else
      match SysExStatusFromRaw(High(bytes[0]))
      case None =>
        // a mixed-data-set status (0x8, 0x9) is read but not implemented; anything else is unknown
        Outcome(buffers, None)
      case Some(status) =>
        var n := Low(bytes[0]);
        if n < 1 || n > 14 then Outcome(buffers, None)
        else
          var id := bytes[1];
          match status
          case Complete => Outcome(buffers, sysEx8(bytes[1..1 + n], group))
          case Start => Outcome(buffers[id := bytes[1..1 + n]], None)
          case Continue =>
            if id !in buffers || |buffers[id]| == 0 then Outcome(buffers, None)
            else Outcome(buffers[id := buffers[id] + bytes[2..1 + n]], None)
          case End =>
            if id !in buffers || |buffers[id]| == 0 then Outcome(buffers, None)
            else Outcome(buffers - {id}, sysEx8(buffers[id] + bytes[2..1 + n], group))
  }

  // ---------------------------------------------------------------------
  // The packet parser
  // ---------------------------------------------------------------------

  /** The parser's buffers. */
  datatype Buffers = Buffers(sysEx7: seq<UInt8>, sysEx8: map<UInt8, seq<UInt8>>)

  /** The buffers after a packet and the events parsed from it. */
  datatype Parsed = Parsed(buffers: Buffers, events: seq<Event>)

  function OptionSeq(e: Option<Event>): (r: seq<Event>)
    ensures |r| <= 1
    ensures e.None? ==> r == []
    ensures e.Some? ==> r == [e.value]
  {
    if e.Some? then [e.value] else []
  }

  /**
   * `parsedEvents(in:)`: empty or unaligned input gives nothing; byte 0
   * chooses the sub-parser; the bytes after a JR utility word are parsed as
   * a packet of their own and their events follow.
   */
  function Parse(ed: Edition, st: Buffers, bytes: seq<UInt8>, dec: Decoders): (r: Parsed)
    decreases |bytes|
    ensures |bytes| == 0 || |bytes| % 4 != 0 ==> r == Parsed(st, [])
    ensures |r.events| <= |bytes| / 4
  {
    if |bytes| == 0 || |bytes| % 4 != 0 then Parsed(st, [])
    else
      var group := Low(bytes[0]);
      var rest := bytes[1..];
      match MessageTypeFromRaw(High(bytes[0]))
      case None => Parsed(st, [])
      case Some(Utility) =>
        (match ParseUtility(rest, group)
         case None => Parsed(st, [])
         case Some((e, following)) =>
           if |following| == 0 then Parsed(st, [e])
           else
             var tail := Parse(ed, st, following, dec);
             Parsed(tail.buffers, [e] + tail.events))
      case Some(SystemRealTimeAndCommon) => Parsed(st, OptionSeq(ParseSystemRealTimeAndCommon(rest, group)))
      case Some(Midi1ChannelVoice) => Parsed(st, OptionSeq(ParseMidi1ChannelVoice(rest, Low(bytes[1]), group)))
      case Some(Data64Bit) =>
        var o := Data64(st.sysEx7, rest, group, dec.sysEx7);
        Parsed(st.(sysEx7 := o.state), OptionSeq(o.event))
      case Some(Midi2ChannelVoice) =>
        Parsed(st, OptionSeq(ParseMidi2ChannelVoice(ed, rest, Low(bytes[1]), group, dec.midi1Value)))
      case Some(Data128Bit) =>
        var o := Data128(st.sysEx8, rest, group, dec.sysEx8);
        Parsed(st.(sysEx8 := o.state), OptionSeq(o.event))
  }

  /** A packet starting with a utility word: its event, then those of the words it hands back. */
  lemma UtilityWord(ed: Edition, st: Buffers, bytes: seq<UInt8>, dec: Decoders)
    requires |bytes| > 0 && |bytes| % 4 == 0 && MessageTypeFromRaw(High(bytes[0])) == Some(Utility)
    ensures var p := ParseUtility(bytes[1..], Low(bytes[0]));
      Parse(ed, st, bytes, dec) ==
        if p.None? then Parsed(st, [])
        else if |p.value.1| == 0 then Parsed(st, [p.value.0])
        else Parsed(Parse(ed, st, p.value.1, dec).buffers, [p.value.0] + Parse(ed, st, p.value.1, dec).events)
  {
  }

  /** One parser instance per endpoint; its buffers persist between packets. */
  class Parser {
    var sysEx7Buffer: seq<UInt8>
    var sysEx8Buffer: map<UInt8, seq<UInt8>>
    const edition: Edition
    const decoders: Decoders

    function State(): Buffers
      reads this
    {
      Buffers(sysEx7Buffer, sysEx8Buffer)
    }

    constructor(edition: Edition, decoders: Decoders)
      ensures sysEx7Buffer == [] && sysEx8Buffer == map[]
      ensures this.edition == edition && this.decoders == decoders
    {
      sysEx7Buffer := [];
      sysEx8Buffer := map[];
      this.edition := edition;
      this.decoders := decoders;
    }

    /** `parseData64Bit`, updating the SysEx7 buffer in place. */
    method ParseData64Bit(bytes: seq<UInt8>, group: UInt4) returns (r: Option<Event>)
      modifies this
      ensures Outcome(sysEx7Buffer, r) == Data64(old(sysEx7Buffer), bytes, group, decoders.sysEx7)
      ensures sysEx8Buffer == old(sysEx8Buffer)
    {
      if |bytes| != 7 {
        return None;
      }
      var status := SysExStatusFromRaw(High(bytes[0]));
      if status.None? {
        return None;
      }
      var n := Low(bytes[0]);
      if n > 6 {
        return None;
      }
      var payload := bytes[1..1 + n];
      match status.value
      case Complete =>
        r := decoders.sysEx7([0xF0] + payload + [0xF7], group);
      case Start =>
        sysEx7Buffer := [];
        sysEx7Buffer := sysEx7Buffer + payload;
        assert sysEx7Buffer == payload;
        r := None;
      case Continue =>
        if |sysEx7Buffer| == 0 {
          return None;
        }
        sysEx7Buffer := sysEx7Buffer + payload;
        r := None;
      case End =>
        if |sysEx7Buffer| == 0 {
          return None;
        }
        sysEx7Buffer := sysEx7Buffer + payload;
        var fullData := sysEx7Buffer;
        sysEx7Buffer := [];
        r := decoders.sysEx7([0xF0] + fullData + [0xF7], group);
    }

    /** `parseData128Bit` and `parseData128BitRegularSysEx`, updating the SysEx8 buffers in place. */
    method ParseData128Bit(bytes: seq<UInt8>, group: UInt4) returns (r: Option<Event>)
      modifies this
      ensures Outcome(sysEx8Buffer, r) == Data128(old(sysEx8Buffer), bytes, group, decoders.sysEx8)
      ensures sysEx7Buffer == old(sysEx7Buffer)
    {
      if |bytes| != 15 {
        return None;
      }
      var status := SysExStatusFromRaw(High(bytes[0]));
      if status.None? {
        return None;
      }
      var n := Low(bytes[0]);
      if n < 1 || n > 14 {
        return None;
      }
      var id := bytes[1];
      match status.value
      case Complete =>
        r := decoders.sysEx8(bytes[1..1 + n], group);
      case Start =>
        sysEx8Buffer := sysEx8Buffer[id := bytes[1..1 + n]];
        r := None;
      case Continue =>
        if id !in sysEx8Buffer || |sysEx8Buffer[id]| == 0 {
          return None;
        }
        sysEx8Buffer := sysEx8Buffer[id := sysEx8Buffer[id] + bytes[2..1 + n]];
        r := None;
      case End =>
        if id !in sysEx8Buffer || |sysEx8Buffer[id]| == 0 {
          return None;
        }
        var buffer := sysEx8Buffer[id];
        sysEx8Buffer := sysEx8Buffer - {id};
        r := decoders.sysEx8(buffer + bytes[2..1 + n], group);
    }

    /** `parsedEvents(in:)`. */
    method ParsedEvents(bytes: seq<UInt8>) returns (events: seq<Event>)
      modifies this
      decreases |bytes|
      ensures Parsed(State(), events) == Parse(edition, old(State()), bytes, decoders)
    {
      events := [];
      if |bytes| == 0 || |bytes| % 4 != 0 {
        return;
      }
      var group := Low(bytes[0]);
      var messageType := MessageTypeFromRaw(High(bytes[0]));
      if messageType.None? {
        return;
      }
      if messageType.value != Utility {
        events := ParseWord(bytes);
        return;
      }
      UtilityWord(edition, State(), bytes, decoders);
      var parsed := ParseUtility(bytes[1..], group);
      if parsed.Some? {
        if |parsed.value.1| > 0 {
          var following := ParsedEvents(parsed.value.1);
          events := [parsed.value.0] + following;
        } else {
          events := [parsed.value.0];
        }
      }
    }

    /** The cases of `parsedEvents(in:)` other than utility messages, which read one packet. */
    method ParseWord(bytes: seq<UInt8>) returns (events: seq<Event>)
      requires |bytes| > 0 && |bytes| % 4 == 0
      requires MessageTypeFromRaw(High(bytes[0])).Some? && MessageTypeFromRaw(High(bytes[0])).value != Utility
      modifies this
      ensures Parsed(State(), events) == Parse(edition, old(State()), bytes, decoders)
    {
      events := [];
      var group := Low(bytes[0]);
      var rest := bytes[1..];
      match MessageTypeFromRaw(High(bytes[0])).value
      case SystemRealTimeAndCommon =>
        var e := ParseSystemRealTimeAndCommon(rest, group);
        if e.Some? {
          events := events + [e.value];
        }
      case Midi1ChannelVoice =>
        var e := ParseMidi1ChannelVoice(rest, Low(bytes[1]), group);
        if e.Some? {
          events := events + [e.value];
        }
      case Data64Bit =>
        var e := ParseData64Bit(rest, group);
        if e.Some? {
          events := events + [e.value];
        }
      case Midi2ChannelVoice =>
        var e := ParseMidi2ChannelVoice(edition, rest, Low(bytes[1]), group, decoders.midi1Value);
        if e.Some? {
          events := events + [e.value];
        }
      case Data128Bit =>
        var e := ParseData128Bit(rest, group);
        if e.Some? {
          events := events + [e.value];
        }
    }
  }
}
