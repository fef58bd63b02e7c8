/**
 * `MIDI.MIDI1Parser` of the original MIDIKit module: a MIDI 1.0 byte-stream
 * parser that follows the running-status and real-time rules of the MIDI
 * 1.0 Detailed Specification.  The state between bytes is the running
 * status, the bytes of the message in progress and the number of data
 * bytes that message expects; a real-time byte (0xF8 ... 0xFF) is reported
 * at once and leaves all three alone.
 *
 * `MIDI.Event.sysEx(from:)` is not part of this model; it is the parameter
 * `sysEx`, which returns `None` where it throws.
 */
module Midi1Parsers {
  import opened Wrappers
  import opened MidiTypes
  import LegacyIntegers
  import MidiUnsignedInteger

  /** The events this parser produces. */
  datatype Event =
    | NoteOff(note: UInt7, velocity: UInt7, channel: UInt4, group: UInt4)
    | NoteOn(note: UInt7, velocity: UInt7, channel: UInt4, group: UInt4)
    | PolyAftertouch(note: UInt7, pressure: UInt7, channel: UInt4, group: UInt4)
    | CC(controller: UInt7, value: UInt7, channel: UInt4, group: UInt4)
    | ProgramChange(program: UInt7, channel: UInt4, group: UInt4)
    | ChanAftertouch(pressure: UInt7, channel: UInt4, group: UInt4)
    | PitchBend(bend: UInt14, channel: UInt4, group: UInt4)
    | SysEx(payload: seq<UInt8>)
    | TimecodeQuarterFrame(dataByte: UInt7)
    | SongPositionPointer(midiBeat: UInt14)
    | SongSelect(number: UInt7)
    | TuneRequest(group: UInt4)
    | TimingClock(group: UInt4)
    | Start(group: UInt4)
    | Continue(group: UInt4)
    | Stop(group: UInt4)
    | ActiveSensing(group: UInt4)
    | SystemReset(group: UInt4)

  /** The SysEx decoder: the event for a message starting with 0xF0, or `None` where it throws. */
  type SysExDecoder = seq<UInt8> -> Option<Event>

  predicate IsRealTime(e: Event)
  {
    e.TimingClock? || e.Start? || e.Continue? || e.Stop? || e.ActiveSensing? || e.SystemReset?
  }

  /** The events of a sequence that are not real-time, in order. */
  function NonRealTimeEvents(events: seq<Event>): (r: seq<Event>)
    ensures forall i :: 0 <= i < |r| ==> !IsRealTime(r[i])
  {
    if events == [] then []
    else
      var rest := NonRealTimeEvents(events[..|events| - 1]);
      var last := events[|events| - 1];
      if IsRealTime(last) then rest else rest + [last]
  }

  lemma {:induction false} NonRealTimeEventsAppend(a: seq<Event>, b: seq<Event>)
    ensures NonRealTimeEvents(a + b) == NonRealTimeEvents(a) + NonRealTimeEvents(b)
    decreases |b|
  {
    if b == [] {
      assert a + b == a;
    } else {
      var b' := b[..|b| - 1];
      assert (a + b)[..|a + b| - 1] == a + b';
      NonRealTimeEventsAppend(a, b');
    }
  }

  /** `toMIDIUInt7Exactly`: a byte that fits seven bits. */
  function Exactly7(b: Option<UInt8>): (r: Option<UInt7>)
    ensures r.Some? <==> b.Some? && b.value < 128
    ensures r.Some? ==> r.value == b.value
  {
    if b.Some? && b.value < 128 then Some(b.value) else None
  }

  /** `UInt14(bytePair:)`: seven bits of each byte, the MSB above the LSB. */
  function FourteenBits(msb: UInt8, lsb: UInt8): (r: UInt14)
    ensures r == (msb % 128) * 128 + lsb % 128
  {
    LegacyIntegers.UInt14FromBytePair(MidiUnsignedInteger.BytePair(msb, lsb))
  }

  // ---------------------------------------------------------------------
  // One message
  // ---------------------------------------------------------------------

  /** The data byte at `i`, if the message has one. */
  function DataByte(bytes: seq<UInt8>, i: nat): Option<UInt8>
  {
    if i < |bytes| then Some(bytes[i]) else None
  }

  /** The events of one system status byte `0xF0 + low`, given the whole message. */
  function SystemMessage(bytes: seq<UInt8>, low: UInt4, group: UInt4, sysEx: SysExDecoder): (r: seq<Event>)
    requires |bytes| > 0
    ensures |r| <= 1
  {
    var d1 := DataByte(bytes, 1);
    var d2 := DataByte(bytes, 2);
    if low == 0x0 then
      (match sysEx(bytes) case None => [] case Some(e) => [e])
    else if low == 0x1 then
      (if Exactly7(d1).Some? then [TimecodeQuarterFrame(Exactly7(d1).value)] else [])
    else if low == 0x2 then
      (if d1.Some? && d2.Some? then [SongPositionPointer(FourteenBits(d2.value, d1.value))] else [])
    else if low == 0x3 then
      (if Exactly7(d1).Some? then [SongSelect(Exactly7(d1).value)] else [])
    else if low == 0x6 then [TuneRequest(group)]
    else if low == 0x8 then [TimingClock(group)]
    else if low == 0xA then [Start(group)]
    else if low == 0xB then [Continue(group)]
    else if low == 0xC then [Stop(group)]
    else if low == 0xE then [ActiveSensing(group)]
    else if low == 0xF then [SystemReset(group)]
    else []
  }

  /**
   * `parseSingleMessage(_:umpGroup:)`: the event of one complete message, or
   * none when a data byte it needs is missing or, for a seven-bit field,
   * above 0x7F.
   */
  function ParseSingleMessage(bytes: seq<UInt8>, group: UInt4, sysEx: SysExDecoder): (r: seq<Event>)
    ensures |r| <= 1
    ensures bytes == [] ==> r == []
    ensures |bytes| > 0 && 0x8 <= bytes[0] / 16 <= 0xB ==>
      (r != [] <==> |bytes| >= 3 && bytes[1] < 128 && bytes[2] < 128)
    ensures |bytes| > 0 && 0xC <= bytes[0] / 16 <= 0xD ==> (r != [] <==> |bytes| >= 2 && bytes[1] < 128)
    ensures |bytes| > 0 && bytes[0] / 16 == 0xE ==> (r != [] <==> |bytes| >= 3)
    ensures |bytes| > 0 && bytes[0] < 0x80 ==> r == []
  {
    if bytes == [] then []
    else
      var status := bytes[0];
      var channel := status % 16;
      var high := status / 16;
      var d1 := DataByte(bytes, 1);
      var d2 := DataByte(bytes, 2);
      var n1 := Exactly7(d1);
      var n2 := Exactly7(d2);
      if high == 0x8 then
        (if n1.Some? && n2.Some? then [NoteOff(n1.value, n2.value, channel, group)] else [])
      else if high == 0x9 then
        (if n1.Some? && n2.Some? then [NoteOn(n1.value, n2.value, channel, group)] else [])
      else if high == 0xA then
        (if n1.Some? && n2.Some? then [PolyAftertouch(n1.value, n2.value, channel, group)] else [])
      else if high == 0xB then
        (if n1.Some? && n2.Some? then [CC(n1.value, n2.value, channel, group)] else [])
      else if high == 0xC then
        (if n1.Some? then [ProgramChange(n1.value, channel, group)] else [])
      else if high == 0xD then
        (if n1.Some? then [ChanAftertouch(n1.value, channel, group)] else [])
      else if high == 0xE then
        (if d1.Some? && d2.Some? then [PitchBend(FourteenBits(d2.value, d1.value), channel, group)] else [])
      else if high == 0xF then SystemMessage(bytes, channel, group, sysEx)
      else []
  }

  /** The MIDI 1.0 bytes of a channel-voice or system event, from the MIDI 1.0 Detailed Specification. */
  function Midi1Bytes(e: Event): (r: seq<UInt8>)
    requires !e.SysEx?
    ensures |r| >= 1 && r[0] >= 0x80
  {
    match e
    case NoteOff(n, v, c, _) => [0x80 + c, n, v]
    case NoteOn(n, v, c, _) => [0x90 + c, n, v]
    case PolyAftertouch(n, p, c, _) => [0xA0 + c, n, p]
    case CC(n, v, c, _) => [0xB0 + c, n, v]
    case ProgramChange(p, c, _) => [0xC0 + c, p]
    case ChanAftertouch(p, c, _) => [0xD0 + c, p]
    case PitchBend(v, c, _) => [0xE0 + c, v % 128, v / 128]
    case TimecodeQuarterFrame(d) => [0xF1, d as UInt8]
    case SongPositionPointer(b) => [0xF2, b % 128, b / 128]
    case SongSelect(n) => [0xF3, n as UInt8]
    case TuneRequest(_) => [0xF6]
    case TimingClock(_) => [0xF8]
    case Start(_) => [0xFA]
    case Continue(_) => [0xFB]
    case Stop(_) => [0xFC]
    case ActiveSensing(_) => [0xFE]
    case SystemReset(_) => [0xFF]
  }

  /** The UMP group an event carries, where it carries one. */
  predicate InGroup(e: Event, group: UInt4)
  {
    match e
    case TimecodeQuarterFrame(_) => true
    case SongPositionPointer(_) => true
    case SongSelect(_) => true
    case SysEx(_) => true
    case _ => e.group == group
  }

  /** Every event other than SysEx reads back from its own bytes. */
  lemma SingleMessageRoundTrip(e: Event, group: UInt4, sysEx: SysExDecoder)
    requires !e.SysEx? && InGroup(e, group)
    ensures ParseSingleMessage(Midi1Bytes(e), group, sysEx) == [e]
  {
    var bytes := Midi1Bytes(e);
    match e {
      case NoteOff(_, _, c, _) => StatusNibbles(0x8, c);
      case NoteOn(_, _, c, _) => StatusNibbles(0x9, c);
      case PolyAftertouch(_, _, c, _) => StatusNibbles(0xA, c);
      case CC(_, _, c, _) => StatusNibbles(0xB, c);
      case ProgramChange(_, c, _) => StatusNibbles(0xC, c);
      case ChanAftertouch(_, c, _) => StatusNibbles(0xD, c);
      case PitchBend(v, c, _) =>
        StatusNibbles(0xE, c);
        FourteenBitsRoundTrip(v);
      case SongPositionPointer(b) =>
        FourteenBitsRoundTrip(b);
      case _ =>
    }
  }

  /** Splitting a 14-bit value into seven-bit halves and joining them gives it back. */
  lemma FourteenBitsRoundTrip(v: UInt14)
    ensures v / 128 < 128 && FourteenBits(v / 128, v % 128) == v
  {
    LegacyIntegers.UInt14BytePairRoundTrip(v);
    assert LegacyIntegers.UInt14ToBytePair(v) == MidiUnsignedInteger.BytePair(v / 128, v % 128);
  }

  /** A status byte's high nibble is its kind and its low nibble the channel. */
  lemma StatusNibbles(high: int, channel: UInt4)
    requires 0x8 <= high <= 0xE
    ensures (high * 16 + channel) / 16 == high && (high * 16 + channel) % 16 == channel
  {
  }

  // ---------------------------------------------------------------------
  // The byte-stream state machine
  // ---------------------------------------------------------------------

  /** `ExpectedDataBytes`. */
  datatype Expected = NoDataBytes | Exact(count: nat) | SysExOpenEnded

  /** `setExpectedBytes(fromNibble:)`: what a status with this high nibble expects. */
  function ExpectedOf(nibble: Option<int>): Expected
  {
    if nibble == Some(0x8) || nibble == Some(0x9) || nibble == Some(0xA) || nibble == Some(0xB) || nibble == Some(0xE) then Exact(2)
    else if nibble == Some(0xC) || nibble == Some(0xD) then Exact(1)
    else NoDataBytes
  }

  /**
   * A channel-voice status expects exactly the number of data bytes after
   * which `ParseSingleMessage` can build its event.
   */
  lemma ExpectedMatchesMessage(status: UInt8, data: seq<UInt8>, group: UInt4, sysEx: SysExDecoder)
    requires 0x80 <= status <= 0xEF
    requires forall i :: 0 <= i < |data| ==> data[i] < 128
    ensures ExpectedOf(Some(status / 16)).Exact?
    ensures ParseSingleMessage([status] + data, group, sysEx) != [] <==>
      |data| >= ExpectedOf(Some(status / 16)).count
  {
    var bytes := [status] + data;
    assert forall i :: 1 <= i < |bytes| ==> bytes[i] == data[i - 1];
  }

  /** The parser's state between two bytes. */
  datatype Core = Core(runningStatus: Option<UInt8>, buffer: seq<UInt8>, expected: Expected)

  /** The state after some bytes, and the events reported so far. */
  datatype Progress = Progress(core: Core, events: seq<Event>)

  /** `parseCurrentMessage()`: the buffered message's event, and an empty buffer. */
  function Flush(c: Core, group: UInt4, sysEx: SysExDecoder): (p: Progress)
    ensures p.core == c.(buffer := [])
    ensures p.events == ParseSingleMessage(c.buffer, group, sysEx)
  {
    if c.buffer == [] then Progress(c, [])
    else Progress(c.(buffer := []), ParseSingleMessage(c.buffer, group, sysEx))
  }

  /** The event a real-time byte reports by itself. */
  function RealTimeEvents(b: UInt8, group: UInt4): (r: seq<Event>)
    requires b >= 0xF8
    ensures forall i :: 0 <= i < |r| ==> IsRealTime(r[i])
  {
    if b == 0xF8 then [TimingClock(group)]
    else if b == 0xFA then [Start(group)]
    else if b == 0xFB then [Continue(group)]
    else if b == 0xFC then [Stop(group)]
    else if b == 0xFE then [ActiveSensing(group)]
    else if b == 0xFF then [SystemReset(group)]
    else []
  }

  /** One system-common status byte 0xF0 ... 0xF7, after the message in progress is flushed. */
  function SystemCommonCore(c: Core, b: UInt8): (r: Core)
    requires 0xF0 <= b <= 0xF7
    ensures r.runningStatus == None
  {
    var low := b % 16;
    if low == 0x0 then Core(None, [b], SysExOpenEnded)
    else if low == 0x1 || low == 0x3 then Core(None, [b], Exact(1))
    else if low == 0x2 then Core(None, [b], Exact(2))
    else if low == 0x4 || low == 0x5 then Core(None, [], NoDataBytes)
    else if low == 0x6 then Core(None, [b], NoDataBytes)
    else Core(None, c.buffer + [b], NoDataBytes)
  }

  /** One data byte: the running status is put in front of an empty buffer, then the byte is stored or dropped. */
  function DataStep(c: Core, b: UInt8, group: UInt4, sysEx: SysExDecoder): (p: Progress)
    requires b < 0x80
  {
    var buffer := if c.buffer == [] && c.runningStatus.Some? then [c.runningStatus.value] else c.buffer;
    match c.expected
    case NoDataBytes => Progress(c.(buffer := buffer), [])
    case Exact(n) =>
      var grown := buffer + [b];
      if |grown| == 1 + n then Flush(c.(buffer := grown), group, sysEx)
      else Progress(c.(buffer := grown), [])
    case SysExOpenEnded => Progress(c.(buffer := buffer + [b]), [])
  }

  /** One byte of the main loop of `parsedEvents(in:runningStatus:umpGroup:)`. */
  function Step(c: Core, b: UInt8, group: UInt4, sysEx: SysExDecoder): (p: Progress)
    ensures p.core.runningStatus == c.runningStatus || p.core.runningStatus == None || p.core.runningStatus == Some(b)
    ensures b >= 0xF8 ==> p.core == c
    ensures b < 0x80 ==> p.core.runningStatus == c.runningStatus
  {
    var high := b / 16;
    if 0x8 <= high <= 0xE then
      var f := Flush(c, group, sysEx);
      Progress(Core(Some(b), [b], ExpectedOf(Some(high))), f.events)
    else if b >= 0xF8 then Progress(c, RealTimeEvents(b, group))
    else if high == 0xF then
      var f := Flush(c, group, sysEx);
      Progress(SystemCommonCore(f.core, b), f.events)
    else DataStep(c, b, group, sysEx)
  }

  /** The loop over a packet: each byte's step, events appended in order. */
  function Run(c: Core, bytes: seq<UInt8>, group: UInt4, sysEx: SysExDecoder): (p: Progress)
  {
    if bytes == [] then Progress(c, [])
    else
      var prev := Run(c, bytes[..|bytes| - 1], group, sysEx);
      var s := Step(prev.core, bytes[|bytes| - 1], group, sysEx);
      Progress(s.core, prev.events + s.events)
  }

  /** The state the loop starts in: the given running status and what it expects. */
  function InitialCore(runningStatus: Option<UInt8>): Core
  {
    Core(runningStatus, [], ExpectedOf(if runningStatus.Some? then Some(runningStatus.value / 16) else None))
  }

  /** The result of `parsedEvents(in:runningStatus:umpGroup:)`. */
  datatype Parsed = Parsed(events: seq<Event>, runningStatus: Option<UInt8>)

  /**
   * `parsedEvents(in:runningStatus:umpGroup:)`: empty input changes nothing;
   * otherwise every byte is stepped and what is left in the buffer is
   * flushed.
   */
  function ParsedEvents(bytes: seq<UInt8>, runningStatus: Option<UInt8>, group: UInt4, sysEx: SysExDecoder): (r: Parsed)
    ensures bytes == [] ==> r == Parsed([], runningStatus)
  {
    if bytes == [] then Parsed([], runningStatus)
    else
      var p := Run(InitialCore(runningStatus), bytes, group, sysEx);
      var f := Flush(p.core, group, sysEx);
      Parsed(p.events + f.events, f.core.runningStatus)
  }

  // ---------------------------------------------------------------------
  // Properties of one step
  // ---------------------------------------------------------------------

  /**
   * A channel-voice status byte flushes the message in progress, becomes
   * the running status and starts a new message that expects its data bytes.
   */
  lemma ChannelStatusStep(c: Core, b: UInt8, group: UInt4, sysEx: SysExDecoder)
    requires 0x80 <= b <= 0xEF
    ensures var p := Step(c, b, group, sysEx);
      p.core == Core(Some(b), [b], ExpectedOf(Some(b / 16))) &&
      p.events == ParseSingleMessage(c.buffer, group, sysEx) &&
      (b / 16 == 0xC || b / 16 == 0xD <==> p.core.expected == Exact(1)) &&
      (b / 16 != 0xC && b / 16 != 0xD <==> p.core.expected == Exact(2))
  {
  }

  /** A system-common byte 0xF0 ... 0xF7 flushes the message in progress and clears the running status. */
  lemma SystemCommonStep(c: Core, b: UInt8, group: UInt4, sysEx: SysExDecoder)
    requires 0xF0 <= b <= 0xF7
    ensures var p := Step(c, b, group, sysEx);
      p.core.runningStatus == None && p.events == ParseSingleMessage(c.buffer, group, sysEx)
  {
  }

  /** A real-time byte reports its event at once and leaves the running status, the buffer and the expectation alone. */
  lemma RealTimeStep(c: Core, b: UInt8, group: UInt4, sysEx: SysExDecoder)
    requires b >= 0xF8
    ensures Step(c, b, group, sysEx) == Progress(c, RealTimeEvents(b, group))
    ensures b != 0xF9 && b != 0xFD ==> |Step(c, b, group, sysEx).events| == 1
  {
  }

  /**
   * A data byte that finds the buffer empty and a running status cached is
   * stored after that status byte.
   */
  lemma RunningStatusPrefix(c: Core, b: UInt8, group: UInt4, sysEx: SysExDecoder)
    requires b < 0x80 && c.buffer == [] && c.runningStatus.Some?
    requires c.expected == Exact(2) || c.expected == SysExOpenEnded
    ensures Step(c, b, group, sysEx) == Progress(c.(buffer := [c.runningStatus.value, b]), [])
  {
  }

  /**
   * With an exact expectation, a data byte completes the message exactly
   * when the buffer reaches the status byte plus the expected count; then
   * the message is parsed and the buffer emptied.  Without an expectation
   * the byte is dropped.
   */
  lemma DataByteStep(c: Core, b: UInt8, group: UInt4, sysEx: SysExDecoder)
    requires b < 0x80
    ensures var buffer := if c.buffer == [] && c.runningStatus.Some? then [c.runningStatus.value] else c.buffer;
      var p := Step(c, b, group, sysEx);
      p.core.runningStatus == c.runningStatus && p.core.expected == c.expected &&
      (c.expected.NoDataBytes? ==> p == Progress(c.(buffer := buffer), [])) &&
      (c.expected.Exact? && |buffer| + 1 == 1 + c.expected.count ==>
        p == Progress(c.(buffer := []), ParseSingleMessage(buffer + [b], group, sysEx))) &&
      (c.expected.Exact? && |buffer| + 1 != 1 + c.expected.count ==>
        p == Progress(c.(buffer := buffer + [b]), []))
  {
  }

  // ---------------------------------------------------------------------
  // Properties of whole packets
  // ---------------------------------------------------------------------

  /** The bytes of a packet that are not real-time bytes, in order. */
  function NonRealTime(bytes: seq<UInt8>): (r: seq<UInt8>)
    ensures forall i :: 0 <= i < |r| ==> r[i] < 0xF8
  {
    if bytes == [] then []
    else
      var rest := NonRealTime(bytes[..|bytes| - 1]);
      var last := bytes[|bytes| - 1];
      if last >= 0xF8 then rest else rest + [last]
  }

  /**
   * Real-time bytes are transparent: removing them from a packet leaves the
   * final state and the other events exactly as they were.
   */
  lemma {:induction false} RealTimeTransparent(c: Core, bytes: seq<UInt8>, group: UInt4, sysEx: SysExDecoder)
    ensures Run(c, bytes, group, sysEx).core == Run(c, NonRealTime(bytes), group, sysEx).core
    ensures NonRealTimeEvents(Run(c, bytes, group, sysEx).events) ==
      NonRealTimeEvents(Run(c, NonRealTime(bytes), group, sysEx).events)
    decreases |bytes|
  {
    if bytes != [] {
      var init := bytes[..|bytes| - 1];
      var last := bytes[|bytes| - 1];
      RealTimeTransparent(c, init, group, sysEx);
      var p := Run(c, init, group, sysEx);
      var q := Run(c, NonRealTime(init), group, sysEx);
      var s := Step(p.core, last, group, sysEx);
      NonRealTimeEventsAppend(p.events, s.events);
      if last >= 0xF8 {
        assert NonRealTime(bytes) == NonRealTime(init);
        assert NonRealTimeEvents(s.events) == [] by {
          NoRealTimeLeft(s.events);
        }
      } else {
        var r := NonRealTime(init) + [last];
        assert NonRealTime(bytes) == r;
        assert r[..|r| - 1] == NonRealTime(init);
        NonRealTimeEventsAppend(q.events, s.events);
      }
    }
  }

  lemma {:induction false} NoRealTimeLeft(events: seq<Event>)
    requires forall i :: 0 <= i < |events| ==> IsRealTime(events[i])
    ensures NonRealTimeEvents(events) == []
    decreases |events|
  {
    if events != [] {
      NoRealTimeLeft(events[..|events| - 1]);
    }
  }

  /** The same holds for a whole call: the other events and the returned running status do not see real-time bytes. */
  lemma ParsedEventsIgnoreRealTime(bytes: seq<UInt8>, runningStatus: Option<UInt8>, group: UInt4, sysEx: SysExDecoder)
    ensures var r := ParsedEvents(bytes, runningStatus, group, sysEx);
      var s := ParsedEvents(NonRealTime(bytes), runningStatus, group, sysEx);
      r.runningStatus == s.runningStatus && NonRealTimeEvents(r.events) == NonRealTimeEvents(s.events)
  {
    var c := InitialCore(runningStatus);
    RealTimeTransparent(c, bytes, group, sysEx);
    var p := Run(c, bytes, group, sysEx);
    var q := Run(c, NonRealTime(bytes), group, sysEx);
    var f := Flush(p.core, group, sysEx);
    NonRealTimeEventsAppend(p.events, f.events);
    NonRealTimeEventsAppend(q.events, f.events);
    if bytes != [] && NonRealTime(bytes) == [] {
      assert q == Progress(c, []);
      assert f.events == [];
    }
  }

  /** The running status after any bytes is the one given or a channel-voice status byte of the packet. */
  lemma {:induction false} RunningStatusFromInput(c: Core, bytes: seq<UInt8>, group: UInt4, sysEx: SysExDecoder)
    ensures var rs := Run(c, bytes, group, sysEx).core.runningStatus;
      rs == None || rs == c.runningStatus || (rs.value in bytes && 0x80 <= rs.value <= 0xEF)
    decreases |bytes|
  {
    if bytes != [] {
      RunningStatusFromInput(c, bytes[..|bytes| - 1], group, sysEx);
      var rs := Run(c, bytes[..|bytes| - 1], group, sysEx).core.runningStatus;
      if rs.Some? && rs.value in bytes[..|bytes| - 1] {
        assert rs.value in bytes;
      }
    }
  }

  /** The bytes of a running-status stream: the status byte, then the data pairs with no repeated status. */
  function PairBytes(pairs: seq<(UInt7, UInt7)>): (r: seq<UInt8>)
    ensures |r| == 2 * |pairs|
  {
    if pairs == [] then []
    else PairBytes(pairs[..|pairs| - 1]) + [pairs[|pairs| - 1].0, pairs[|pairs| - 1].1]
  }

  /** The events a two-data-byte channel status makes of each pair. */
  function PairEvents(status: UInt8, pairs: seq<(UInt7, UInt7)>, group: UInt4, sysEx: SysExDecoder): (r: seq<Event>)
    requires 0x80 <= status <= 0xEF && ExpectedOf(Some(status / 16)) == Exact(2)
    ensures |r| == |pairs|
  {
    if pairs == [] then []
    else
      var last: (UInt7, UInt7) := pairs[|pairs| - 1];
      var e := ParseSingleMessage([status, last.0 as UInt8, last.1 as UInt8], group, sysEx);
      assert |e| == 1;
      PairEvents(status, pairs[..|pairs| - 1], group, sysEx) + e
  }

  /** Running over one more byte is one more step after the run. */
  lemma RunSnoc(c: Core, bytes: seq<UInt8>, b: UInt8, group: UInt4, sysEx: SysExDecoder)
    ensures var prev := Run(c, bytes, group, sysEx);
      var s := Step(prev.core, b, group, sysEx);
      Run(c, bytes + [b], group, sysEx) == Progress(s.core, prev.events + s.events)
  {
    assert (bytes + [b])[..|bytes|] == bytes;
  }

  /** Two data bytes after a two-data-byte status, with or without the status byte still buffered, complete one message. */
  lemma DataPairSteps(k: Core, status: UInt8, a: UInt7, b: UInt7, group: UInt4, sysEx: SysExDecoder)
    requires 0x80 <= status <= 0xEF && ExpectedOf(Some(status / 16)) == Exact(2)
    requires k.runningStatus == Some(status) && k.expected == Exact(2) && (k.buffer == [] || k.buffer == [status])
    ensures Step(k, a as UInt8, group, sysEx) == Progress(Core(Some(status), [status, a as UInt8], Exact(2)), [])
    ensures Step(Core(Some(status), [status, a as UInt8], Exact(2)), b as UInt8, group, sysEx) ==
      Progress(Core(Some(status), [], Exact(2)), ParseSingleMessage([status, a as UInt8, b as UInt8], group, sysEx))
  {
    DataByteStep(k, a as UInt8, group, sysEx);
    DataByteStep(Core(Some(status), [status, a as UInt8], Exact(2)), b as UInt8, group, sysEx);
    assert [status, a as UInt8] + [b as UInt8] == [status, a as UInt8, b as UInt8];
  }

  /** One data pair after a two-data-byte status, with or without the status byte still buffered, completes one message. */
  lemma PairStep(c: Core, head: seq<UInt8>, status: UInt8, a: UInt7, b: UInt7, group: UInt4, sysEx: SysExDecoder)
    requires 0x80 <= status <= 0xEF && ExpectedOf(Some(status / 16)) == Exact(2)
    requires var core := Run(c, head, group, sysEx).core;
      core.runningStatus == Some(status) && core.expected == Exact(2) && (core.buffer == [] || core.buffer == [status])
    ensures Run(c, head + [a as UInt8, b as UInt8], group, sysEx) ==
      Progress(Core(Some(status), [], Exact(2)),
        Run(c, head, group, sysEx).events + ParseSingleMessage([status, a as UInt8, b as UInt8], group, sysEx))
  {
    var p0 := Run(c, head, group, sysEx);
    var withA := head + [a as UInt8];
    DataPairSteps(p0.core, status, a, b, group, sysEx);
    RunSnoc(c, head, a as UInt8, group, sysEx);
    assert p0.events + [] == p0.events;
    RunSnoc(c, withA, b as UInt8, group, sysEx);
    assert withA + [b as UInt8] == head + [a as UInt8, b as UInt8];
  }

  /** A packet's first channel-voice status byte flushes the state's buffer and starts its message. */
  lemma StatusByteRun(c: Core, status: UInt8, group: UInt4, sysEx: SysExDecoder)
    requires 0x80 <= status <= 0xEF
    ensures Run(c, [status], group, sysEx) ==
      Progress(Core(Some(status), [status], ExpectedOf(Some(status / 16))), ParseSingleMessage(c.buffer, group, sysEx))
  {
    ChannelStatusStep(c, status, group, sysEx);
    RunSnoc(c, [], status, group, sysEx);
    assert [] + [status] == [status];
    assert [] + ParseSingleMessage(c.buffer, group, sysEx) == ParseSingleMessage(c.buffer, group, sysEx);
  }

  /**
   * Running status: a status byte followed by any number of data pairs
   * yields one event per pair, and the status stays cached.
   */
  lemma {:induction false} RunningStatusStream(c: Core, status: UInt8, pairs: seq<(UInt7, UInt7)>, group: UInt4, sysEx: SysExDecoder)
    requires 0x80 <= status <= 0xEF && ExpectedOf(Some(status / 16)) == Exact(2) && |pairs| > 0
    ensures var p := Run(c, [status] + PairBytes(pairs), group, sysEx);
      p.core == Core(Some(status), [], Exact(2)) &&
      p.events == ParseSingleMessage(c.buffer, group, sysEx) + PairEvents(status, pairs, group, sysEx)
    decreases |pairs|
  {
    var init := pairs[..|pairs| - 1];
    var last: (UInt7, UInt7) := pairs[|pairs| - 1];
    var head := [status] + PairBytes(init);
    assert [status] + PairBytes(pairs) == head + [last.0 as UInt8, last.1 as UInt8];
    if init == [] {
      assert head == [status];
      StatusByteRun(c, status, group, sysEx);
      assert PairEvents(status, init, group, sysEx) == [];
    } else {
      RunningStatusStream(c, status, init, group, sysEx);
    }
    PairStep(c, head, status, last.0, last.1, group, sysEx);
    assert PairEvents(status, pairs, group, sysEx) == PairEvents(status, init, group, sysEx) +
      ParseSingleMessage([status, last.0 as UInt8, last.1 as UInt8], group, sysEx);
  }

  /** Parsing a running-status stream from scratch: one event per pair, the status returned as running status. */
  lemma RunningStatusPacket(status: UInt8, pairs: seq<(UInt7, UInt7)>, group: UInt4, sysEx: SysExDecoder)
    requires 0x80 <= status <= 0xEF && ExpectedOf(Some(status / 16)) == Exact(2) && |pairs| > 0
    ensures ParsedEvents([status] + PairBytes(pairs), None, group, sysEx) ==
      Parsed(PairEvents(status, pairs, group, sysEx), Some(status))
  {
    RunningStatusStream(InitialCore(None), status, pairs, group, sysEx);
  }

  // ---------------------------------------------------------------------
  // The imperative parser
  // ---------------------------------------------------------------------

  /** The body of the byte loop: the switch on the byte's high nibble, over the loop's local state. */
  method StepByte(c: Core, events: seq<Event>, b: UInt8, group: UInt4, sysEx: SysExDecoder)
    returns (c': Core, events': seq<Event>)
    ensures c' == Step(c, b, group, sysEx).core
    ensures events' == events + Step(c, b, group, sysEx).events
  {
    var status, buffer, expected := c.runningStatus, c.buffer, c.expected;
    events' := events;
    assert events + [] == events;
    var high := b / 16;
    if 0x8 <= high <= 0xE {
      status := Some(b);
      if buffer != [] {
        events' := events' + ParseSingleMessage(buffer, group, sysEx);
        buffer := [];
      }
      expected := ExpectedOf(Some(high));
      buffer := buffer + [b];
      assert events' == events + Step(c, b, group, sysEx).events;
    } else if high == 0xF {
      var low := b % 16;
      if buffer != [] && low < 0x8 {
        events' := events' + ParseSingleMessage(buffer, group, sysEx);
        buffer := [];
      }
      if low == 0x0 {
        expected, status, buffer := SysExOpenEnded, None, [b];
      } else if low == 0x1 || low == 0x3 {
        expected, status, buffer := Exact(1), None, [b];
      } else if low == 0x2 {
        expected, status, buffer := Exact(2), None, [b];
      } else if low == 0x4 || low == 0x5 {
        expected, status, buffer := NoDataBytes, None, [];
      } else if low == 0x6 {
        expected, status, buffer := NoDataBytes, None, [b];
      } else if low == 0x7 {
        expected, status := NoDataBytes, None;
        buffer := buffer + [b];
      } else {
        events' := events' + RealTimeEvents(b, group);
      }
      assert events' == events + Step(c, b, group, sysEx).events;
    } else {
      assert b < 0x80;
      assert Step(c, b, group, sysEx) == DataStep(c, b, group, sysEx);
      if buffer == [] && status.Some? {
        buffer := buffer + [status.value];
      }
      match expected {
        case NoDataBytes =>
        case Exact(n) =>
          buffer := buffer + [b];
          if |buffer| == 1 + n {
            ghost var pre := if c.buffer == [] && c.runningStatus.Some? then [c.runningStatus.value] else c.buffer;
            assert buffer == pre + [b];
            assert DataStep(c, b, group, sysEx) == Flush(c.(buffer := buffer), group, sysEx);
            assert Step(c, b, group, sysEx).events == ParseSingleMessage(buffer, group, sysEx);
            events' := events' + ParseSingleMessage(buffer, group, sysEx);
            buffer := [];
          }
        case SysExOpenEnded =>
          buffer := buffer + [b];
      }
      assert events' == events + Step(c, b, group, sysEx).events;
    }
    c' := Core(status, buffer, expected);
  }

  /** `static parsedEvents(in:runningStatus:umpGroup:)`: the byte loop over local state. */
  method ParseBytes(bytes: seq<UInt8>, runningStatus: Option<UInt8>, group: UInt4, sysEx: SysExDecoder)
    returns (events: seq<Event>, newRunningStatus: Option<UInt8>)
    ensures Parsed(events, newRunningStatus) == ParsedEvents(bytes, runningStatus, group, sysEx)
  {
    if bytes == [] {
      return [], runningStatus;
    }
    events := [];
    var status := runningStatus;
    var buffer: seq<UInt8> := [];
    var expected := InitialCore(runningStatus).expected;
    var pos := 0;
    while pos < |bytes|
      invariant 0 <= pos <= |bytes|
      invariant Run(InitialCore(runningStatus), bytes[..pos], group, sysEx) == Progress(Core(status, buffer, expected), events)
    {
      assert bytes[..pos + 1][..pos] == bytes[..pos];
      var c;
      c, events := StepByte(Core(status, buffer, expected), events, bytes[pos], group, sysEx);
      status, buffer, expected := c.runningStatus, c.buffer, c.expected;
      pos := pos + 1;
    }
    assert bytes[..pos] == bytes;
    if buffer != [] {
      events := events + ParseSingleMessage(buffer, group, sysEx);
      buffer := [];
    }
    newRunningStatus := status;
  }

  /** `MIDI.MIDI1Parser`: one instance per endpoint keeps the running status between packets. */
  class Parser {
    var runningStatus: Option<UInt8>

    /** `init()`: no running status yet. */
    constructor()
      ensures runningStatus == None
    {
      runningStatus := None;
    }

    /** `parsedEvents(in:umpGroup:)`: parse with the stored running status and keep the one returned. */
    method ParsedEventsIn(bytes: seq<UInt8>, group: UInt4, sysEx: SysExDecoder) returns (events: seq<Event>)
      modifies this
      ensures Parsed(events, runningStatus) == ParsedEvents(bytes, old(runningStatus), group, sysEx)
    {
      var rs;
      events, rs := ParseBytes(bytes, runningStatus, group, sysEx);
      runningStatus := rs;
    }
  }
}
