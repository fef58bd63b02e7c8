/**
 * The earlier MIDI 1.0 byte-stream parser of the `MIDI` namespace
 * (Sources/MIDIKit/Events/Parser/MIDI1Parser.swift).
 *
 * A packet is read byte by byte.  Channel-voice and system-common status
 * bytes and data bytes are gathered into the message in progress;
 * real-time bytes are queued and reported after that message.  When a new
 * channel-voice status arrives, or the packet ends, the message in progress
 * is handed to a splitter that may find several messages in it sharing one
 * (running) status byte.
 *
 * Only note-off, note-on and control-change statuses are kept as running
 * status; Timing Clock, Active Sensing and System Reset clear it.
 */
module Midi1EventParsers {
  import opened Wrappers
  import opened MidiTypes
  import LegacyIntegers
  import MidiUnsignedInteger

  /** The events this parser builds, as `MIDI.Event` cases with the values the parser passes them. */
  datatype Event =
    | NoteOff(note: UInt7, velocity: UInt7, channel: UInt4)
    | NoteOn(note: UInt7, velocity: UInt7, channel: UInt4)
    | PolyAftertouch(note: UInt7, pressure: UInt7, channel: UInt4)
    | CC(controller: UInt7, value: UInt7, channel: UInt4)
    | ProgramChange(program: UInt7, channel: UInt4)
    | ChanAftertouch(pressure: UInt7, channel: UInt4)
    | PitchBend(bend: UInt14, channel: UInt4)
    | SysEx(data: seq<UInt8>)
    | TimecodeQuarterFrame(dataByte: UInt8)
    | SongPositionPointer(midiBeat: UInt14)
    | SongSelect(number: UInt7)
    | TuneRequest
    | TimingClock
    | Start
    | Continue
    | Stop
    | ActiveSensing
    | SystemReset

  /** `midiUInt7` on a byte above 0x7F: the range-checked `MIDI.UInt7` initialiser stops the program. */
  datatype Trap = UInt7Overflow

  /** `MIDI.Event.SysEx.parsed(from:)`, which is not part of this model: a whole SysEx message to its event, or none. */
  type SysExDecoder = seq<UInt8> -> Option<Event>

  // ---------------------------------------------------------------------
  // The splitter: `parseSingleMessageOrUniformRunningStatusMessages`
  // ---------------------------------------------------------------------

  /** `bytes[safe: i]`. */
  function ByteAt(bytes: seq<UInt8>, i: int): (r: Option<UInt8>)
    ensures r.Some? <==> 0 <= i < |bytes|
    ensures r.Some? ==> r.value == bytes[i]
  {
    if 0 <= i < |bytes| then Some(bytes[i]) else None
  }

  /**
   * `byte?.midiUInt7`: a missing byte gives no value, a byte above 0x7F
   * traps, any other byte is its own seven-bit value.
   */
  function Seven(d: Option<UInt8>): (r: Result<Option<UInt7>, Trap>)
    ensures r.Failure? <==> d.Some? && d.value > 0x7F
    ensures r.Success? ==> (r.value.Some? <==> d.Some?)
    ensures r.Success? && d.Some? ==> r.value.value == d.value
  {
    match d
    case None => Success(None)
    case Some(b) => if b < 0x80 then Success(Some(b)) else Failure(UInt7Overflow)
  }

  /** `guard let a = d1?.midiUInt7, let b = d2?.midiUInt7`: the first byte is checked before the second is looked at. */
  function SevenPair(d1: Option<UInt8>, d2: Option<UInt8>): (r: Result<Option<(UInt7, UInt7)>, Trap>)
    ensures r.Failure? <==> (d1.Some? && d1.value > 0x7F) || (d1.Some? && d2.Some? && d2.value > 0x7F)
    ensures r.Success? ==> (r.value.Some? <==> d1.Some? && d2.Some?)
    ensures r.Success? && r.value.Some? ==> r.value.value == (d1.value, d2.value)
  {
    match Seven(d1)
    case Failure(e) => Failure(e)
    case Success(n1) =>
      if n1.None? then Success(None)
      else
        match Seven(d2)
        case Failure(e) => Failure(e)
        case Success(n2) => if n2.None? then Success(None) else Success(Some((n1.value, n2.value)))
  }

  /** `MIDI.UInt14(bytePair:)` of the legacy integer types: seven bits of each byte. */
  function Bytes14(msb: UInt8, lsb: UInt8): UInt14
  {
    LegacyIntegers.UInt14FromBytePair(MidiUnsignedInteger.BytePair(msb, lsb))
  }

  /** The channel-voice event with two seven-bit data bytes for a status nibble 0x8 ... 0xB. */
  function ChannelPair(high: int, a: UInt7, b: UInt7, channel: UInt4): Event
    requires 0x8 <= high <= 0xB
  {
    if high == 0x8 then NoteOff(a, b, channel)
    else if high == 0x9 then NoteOn(a, b, channel)
    else if high == 0xA then PolyAftertouch(a, b, channel)
    else CC(a, b, channel)
  }

  /** The event of a one-byte system status 0xF4 ... 0xFF, if it has one. */
  function SystemOnly(low: int): (r: seq<Event>)
    requires 0x4 <= low <= 0xF
    ensures |r| <= 1
  {
    if low == 0x6 then [TuneRequest]
    else if low == 0x8 then [TimingClock]
    else if low == 0xA then [Start]
    else if low == 0xB then [Continue]
    else if low == 0xC then [Stop]
    else if low == 0xE then [ActiveSensing]
    else if low == 0xF then [SystemReset]
    else []
  }

  /** One pass of the splitter loop: the events found at `pos` and where the next pass starts, or `Halt` for `return events`. */
  datatype Pass = Emit(events: seq<Event>, next: nat) | Halt

  /**
   * The data bytes one message takes after its status byte, or -1 for SysEx,
   * which takes the whole buffer.
   */
  function DataCount(status: UInt8): int
  {
    var high := status / 16;
    var low := status % 16;
    if 0x8 <= high <= 0xB || high == 0xE then 2
    else if high == 0xC || high == 0xD then 1
    else if status == 0xF0 then -1
    else if status == 0xF1 || status == 0xF3 then 1
    else if status == 0xF2 then 2
    else 0
  }

  /**
   * One pass of the splitter over `bytes`, which start with the status byte,
   * at position `pos`.  The first message takes its status byte and its data
   * bytes, every later one only its data bytes; a SysEx takes the rest of the
   * buffer.
   */
  function SplitStep(bytes: seq<UInt8>, pos: nat, sysEx: SysExDecoder): (r: Result<Pass, Trap>)
    requires pos < |bytes|
    ensures r.Success? && r.value.Emit? ==> pos < r.value.next <= |bytes|
    ensures r.Success? && r.value.Emit? && DataCount(bytes[0]) >= 0 ==>
      r.value.next == pos + (if pos == 0 then 1 else 0) + (if DataCount(bytes[0]) == 0 then 1 - (if pos == 0 then 1 else 0) else DataCount(bytes[0]))
    ensures r.Success? && r.value.Emit? && bytes[0] == 0xF0 ==> r.value.next == |bytes|
    ensures r.Success? && r.value.Emit? ==> |r.value.events| <= 1
  {
    var status := bytes[0];
    var high := status / 16;
    var low := status % 16;
    var channel := low;
    var first := pos == 0;
    var d1 := ByteAt(bytes, pos + (if first then 1 else 0));
    var d2 := ByteAt(bytes, pos + (if first then 2 else 1));
    var afterOne := pos + (if first then 2 else 1);
    var afterTwo := pos + (if first then 3 else 2);
    if 0x8 <= high <= 0xB then
      match SevenPair(d1, d2)
      case Failure(e) => Failure(e)
      case Success(p) =>
        if p.None? then Success(Halt) else Success(Emit([ChannelPair(high, p.value.0, p.value.1, channel)], afterTwo))
    else if high == 0xC || high == 0xD || status == 0xF3 then
      match Seven(d1)
      case Failure(e) => Failure(e)
      case Success(n) =>
        if n.None? then Success(Halt)
        else
          var e := if high == 0xC then ProgramChange(n.value, channel)
            else if high == 0xD then ChanAftertouch(n.value, channel)
            else SongSelect(n.value);
          Success(Emit([e], afterOne))
    else if high == 0xE || status == 0xF2 then
      if d1.None? || d2.None? then Success(Halt)
      else
        var v := Bytes14(d2.value, d1.value);
        Success(Emit([if high == 0xE then PitchBend(v, channel) else SongPositionPointer(v)], afterTwo))
    else if status == 0xF0 then
      match sysEx(bytes)
      case None => Success(Halt)
      case Some(e) => Success(Emit([e], |bytes|))
    else if status == 0xF1 then
      if d1.None? then Success(Halt) else Success(Emit([TimecodeQuarterFrame(d1.value)], afterOne))
    else if high == 0xF then Success(Emit(SystemOnly(low), pos + 1))
    else Success(Emit([], pos + 1))
  }

  /** The events of the splitter's passes from `pos` on. */
  function Split(bytes: seq<UInt8>, pos: nat, sysEx: SysExDecoder): (r: Result<seq<Event>, Trap>)
    requires pos <= |bytes|
    decreases |bytes| - pos
  {
    if pos == |bytes| then Success([])
    else
      match SplitStep(bytes, pos, sysEx)
      case Failure(e) => Failure(e)
      case Success(Halt) => Success([])
      case Success(Emit(es, next)) =>
        match Split(bytes, next, sysEx)
        case Failure(e) => Failure(e)
        case Success(rest) => Success(es + rest)
  }

  /** `parseSingleMessageOrUniformRunningStatusMessages`: no events for an empty buffer, else the passes from 0. */
  function ParseUniform(bytes: seq<UInt8>, sysEx: SysExDecoder): Result<seq<Event>, Trap>
  {
    Split(bytes, 0, sysEx)
  }

  /** Events found before a result: the result with those events in front, a trap unchanged. */
  function Prefixed(events: seq<Event>, r: Result<seq<Event>, Trap>): (p: Result<seq<Event>, Trap>)
    ensures p.Failure? <==> r.Failure?
    ensures p.Success? ==> p.value == events + r.value
  {
    match r
    case Failure(e) => Failure(e)
    case Success(rest) => Success(events + rest)
  }

  /** The splitter loop over local state. */
  method SplitMessages(bytes: seq<UInt8>, sysEx: SysExDecoder) returns (r: Result<seq<Event>, Trap>)
    ensures r == ParseUniform(bytes, sysEx)
  {
    var events: seq<Event> := [];
    if bytes == [] {
      return Success(events);
    }
    var pos := 0;
    var whole := Split(bytes, 0, sysEx);
    if whole.Success? {
      assert [] + whole.value == whole.value;
    }
    while pos < |bytes|
      invariant pos <= |bytes|
      invariant ParseUniform(bytes, sysEx) == Prefixed(events, Split(bytes, pos, sysEx))
      decreases |bytes| - pos
    {
      var step := SplitStep(bytes, pos, sysEx);
      match step {
        case Failure(e) =>
          return Failure(e);
        case Success(Halt) =>
          assert events + [] == events;
          return Success(events);
        case Success(Emit(es, next)) =>
          match Split(bytes, next, sysEx) {
            case Failure(_) =>
            case Success(rest) => assert events + (es + rest) == (events + es) + rest;
          }
          events := events + es;
          pos := next;
      }
    }
    assert events + [] == events;
    return Success(events);
  }

  // ---------------------------------------------------------------------
  // Properties of the splitter
  // ---------------------------------------------------------------------

  /** The data bytes of a running-status run: pairs of seven-bit values, in order. */
  function PairBytes(pairs: seq<(UInt7, UInt7)>): (r: seq<UInt8>)
    ensures |r| == 2 * |pairs|
    ensures forall i :: 0 <= i < |r| ==> r[i] < 0x80
  {
    if pairs == [] then []
    else [pairs[0].0 as UInt8, pairs[0].1 as UInt8] + PairBytes(pairs[1..])
  }

  /** The event the two-data-byte status `high` makes of each pair. */
  function PairEvents(high: int, channel: UInt4, pairs: seq<(UInt7, UInt7)>): (r: seq<Event>)
    requires 0x8 <= high <= 0xB
    ensures |r| == |pairs|
  {
    if pairs == [] then []
    else [ChannelPair(high, pairs[0].0, pairs[0].1, channel)] + PairEvents(high, channel, pairs[1..])
  }

  /** From any later pass on, each remaining pair is one message of the running status. */
  lemma {:induction false} SplitPairs(status: UInt8, before: seq<UInt8>, pairs: seq<(UInt7, UInt7)>, sysEx: SysExDecoder)
    requires 0x80 <= status <= 0xBF && |before| >= 1 && before[0] == status
    ensures Split(before + PairBytes(pairs), |before|, sysEx) == Success(PairEvents(status / 16, status % 16, pairs))
    decreases |pairs|
  {
    var bytes := before + PairBytes(pairs);
    if pairs != [] {
      var rest := before + [pairs[0].0 as UInt8, pairs[0].1 as UInt8];
      assert bytes == rest + PairBytes(pairs[1..]);
      assert bytes[|before|] == pairs[0].0 && bytes[|before| + 1] == pairs[0].1;
      assert SplitStep(bytes, |before|, sysEx) ==
        Success(Emit([ChannelPair(status / 16, pairs[0].0, pairs[0].1, status % 16)], |before| + 2));
      SplitPairs(status, rest, pairs[1..], sysEx);
    }
  }

  /**
   * Running status in one buffer: a note-off, note-on, poly-aftertouch or CC
   * status byte followed by any number of data pairs is one event per pair.
   */
  lemma UniformRunningStatus(status: UInt8, pairs: seq<(UInt7, UInt7)>, sysEx: SysExDecoder)
    requires 0x80 <= status <= 0xBF && |pairs| > 0
    ensures ParseUniform([status] + PairBytes(pairs), sysEx) == Success(PairEvents(status / 16, status % 16, pairs))
  {
    var bytes := [status] + PairBytes(pairs);
    var first := [status, pairs[0].0 as UInt8, pairs[0].1 as UInt8];
    assert bytes == first + PairBytes(pairs[1..]);
    assert bytes[1] == pairs[0].0 && bytes[2] == pairs[0].1;
    assert SplitStep(bytes, 0, sysEx) == Success(Emit([ChannelPair(status / 16, pairs[0].0, pairs[0].1, status % 16)], 3));
    SplitPairs(status, first, pairs[1..], sysEx);
  }

  /** A buffer that starts a SysEx is handed whole to the SysEx decoder: one event or none. */
  lemma SysExTakesWholeBuffer(bytes: seq<UInt8>, sysEx: SysExDecoder)
    requires |bytes| > 0 && bytes[0] == 0xF0
    ensures ParseUniform(bytes, sysEx) == if sysEx(bytes).Some? then Success([sysEx(bytes).value]) else Success([])
  {
    assert bytes[0] / 16 == 0xF;
    if sysEx(bytes).Some? {
      assert SplitStep(bytes, 0, sysEx) == Success(Emit([sysEx(bytes).value], |bytes|));
      assert Split(bytes, |bytes|, sysEx) == Success([]);
      assert [sysEx(bytes).value] + [] == [sysEx(bytes).value];
    } else {
      assert SplitStep(bytes, 0, sysEx) == Success(Halt);
    }
  }

  /**
   * A buffer in which every byte after the first is a data byte, apart from
   * End-of-Exclusive bytes inside a SysEx.
   */
  predicate WellFormed(buffer: seq<UInt8>)
  {
    forall i :: 1 <= i < |buffer| ==> buffer[i] < 0x80 || (buffer[0] == 0xF0 && buffer[i] == 0xF7)
  }

  /** The splitter never traps on a well-formed buffer. */
  lemma {:induction false} WellFormedSplitNeverTraps(bytes: seq<UInt8>, pos: nat, sysEx: SysExDecoder)
    requires pos <= |bytes| && WellFormed(bytes)
    ensures Split(bytes, pos, sysEx).Success?
    decreases |bytes| - pos
  {
    if pos < |bytes| {
      var step := SplitStep(bytes, pos, sysEx);
      assert step.Success?;
      if step.value.Emit? {
        WellFormedSplitNeverTraps(bytes, step.value.next, sysEx);
      }
    }
  }

  // ---------------------------------------------------------------------
  // The packet loop of `parsedEvents(in:runningStatus:)`
  // ---------------------------------------------------------------------

  /**
   * Which packet loop: the code as written, or the corrected one that also
   * ends the message in progress before a system-common status byte that
   * starts a message of its own.
   */
  datatype Revision = AsWritten | Corrected

  /** The running status, the message in progress and the queued real-time events. */
  datatype Core = Core(runningStatus: Option<UInt8>, current: seq<UInt8>, queued: seq<Event>)

  /** The state after some bytes, the events reported, and whether the loop was ended early. */
  datatype Progress = Progress(core: Core, events: seq<Event>, halted: bool)

  /** The state a packet starts from. */
  function InitialCore(runningStatus: Option<UInt8>): Core
  {
    Core(runningStatus, [], [])
  }

  /**
   * `parseCurrentMessage()`: nothing when both the message and the queue are
   * empty, else the message's events followed by the queued events.
   */
  function FlushEvents(c: Core, sysEx: SysExDecoder): Result<seq<Event>, Trap>
  {
    if c.current == [] && c.queued == [] then Success([])
    else
      match ParseUniform(c.current, sysEx)
      case Failure(e) => Failure(e)
      case Success(es) => Success(es + c.queued)
  }

  /** The state after `parseCurrentMessage()`: an empty message and an empty queue. */
  function Flushed(c: Core): (r: Core)
    ensures r.runningStatus == c.runningStatus && r.current == [] && r.queued == []
  {
    c.(current := [], queued := [])
  }

  /** Does the corrected loop end the message in progress before system status byte `b`? */
  predicate StartsOwnMessage(c: Core, b: UInt8)
  {
    (0xF0 <= b <= 0xF3 || b == 0xF6) || (b == 0xF7 && !(c.current != [] && c.current[0] == 0xF0))
  }

  /** The switch on the low nibble of a system status byte 0xF0 ... 0xFF. */
  function SystemStatus(c: Core, b: UInt8): (r: Core)
    requires b >= 0xF0
  {
    var low := b % 16;
    if low <= 0x3 || low == 0x6 then c.(current := c.current + [b])
    else if low == 0x4 || low == 0x5 then c.(runningStatus := None)
    else if low == 0x7 then c.(runningStatus := None, current := c.current + [b])
    else if low == 0x8 then c.(runningStatus := None, queued := c.queued + [TimingClock])
    else if low == 0xE || low == 0xF then c.(runningStatus := None, queued := c.queued + SystemOnly(low))
    else c.(queued := c.queued + SystemOnly(low))
  }

  /**
   * One byte of the packet loop.  `atStart` is whether it is the packet's
   * first byte, where a channel status does not flush.
   */
  function Step(rev: Revision, c: Core, b: UInt8, atStart: bool, sysEx: SysExDecoder): (r: Result<Progress, Trap>)
    ensures r.Success? ==> var rs := r.value.core.runningStatus; rs == c.runningStatus || rs == None || rs == Some(b)
    ensures b < 0x80 ==> r.Success? && r.value.core.runningStatus == c.runningStatus && r.value.events == []
    ensures r.Success? && r.value.halted ==> b < 0x80 && c.current == [] && c.runningStatus.None?
  {
    var high := b / 16;
    if 0x8 <= high <= 0xE then
      var flushed := if atStart then Success([]) else FlushEvents(c, sysEx);
      var base := if atStart then c else Flushed(c);
      var status := if high == 0x8 || high == 0x9 || high == 0xB then Some(b) else None;
      match flushed
      case Failure(e) => Failure(e)
      case Success(es) => Success(Progress(Core(status, base.current + [b], base.queued), es, false))
    else if high == 0xF then
      if rev.Corrected? && StartsOwnMessage(c, b) then
        match FlushEvents(c, sysEx)
        case Failure(e) => Failure(e)
        case Success(es) => Success(Progress(SystemStatus(Flushed(c), b), es, false))
      else Success(Progress(SystemStatus(c, b), [], false))
    else if c.current != [] then Success(Progress(c.(current := c.current + [b]), [], false))
    else if c.runningStatus.Some? then Success(Progress(c.(current := [c.runningStatus.value, b]), [], false))
    else Success(Progress(c, [], true))
  }

  /** The loop over a packet: each byte's step until the loop is ended early, events appended in order. */
  function Run(rev: Revision, c: Core, bytes: seq<UInt8>, sysEx: SysExDecoder): Result<Progress, Trap>
  {
    if bytes == [] then Success(Progress(c, [], false))
    else
      match Run(rev, c, bytes[..|bytes| - 1], sysEx)
      case Failure(e) => Failure(e)
      case Success(p) =>
        if p.halted then Success(p)
        else
          match Step(rev, p.core, bytes[|bytes| - 1], |bytes| == 1, sysEx)
          case Failure(e) => Failure(e)
          case Success(s) => Success(Progress(s.core, p.events + s.events, s.halted))
  }

  /** The events of a packet and the running status handed back. */
  datatype Parsed = Parsed(events: seq<Event>, runningStatus: Option<UInt8>)

  /** `static parsedEvents(in:runningStatus:)`: the loop, then the final flush. */
  function ParsedEvents(rev: Revision, data: seq<UInt8>, runningStatus: Option<UInt8>, sysEx: SysExDecoder): (r: Result<Parsed, Trap>)
    ensures data == [] ==> r == Success(Parsed([], runningStatus))
    ensures r.Success? && r.value.runningStatus.Some? ==>
              r.value.runningStatus == runningStatus ||
              (var s := r.value.runningStatus.value; s in data && (s / 16 == 0x8 || s / 16 == 0x9 || s / 16 == 0xB))
  {
    if data == [] then Success(Parsed([], runningStatus))
    else
      match Run(rev, InitialCore(runningStatus), data, sysEx)
      case Failure(e) => Failure(e)
      case Success(p) =>
        RunningStatusOrigin(rev, InitialCore(runningStatus), data, sysEx);
        match FlushEvents(p.core, sysEx)
        case Failure(e) => Failure(e)
        case Success(es) => Success(Parsed(p.events + es, p.core.runningStatus))
  }

  // ---------------------------------------------------------------------
  // Properties of one step
  // ---------------------------------------------------------------------

  /** `parseCurrentMessage()` reports the message's events first and the queued real-time events after them. */
  lemma FlushOrder(c: Core, sysEx: SysExDecoder)
    ensures FlushEvents(c, sysEx).Failure? <==> ParseUniform(c.current, sysEx).Failure?
    ensures FlushEvents(c, sysEx).Success? ==> FlushEvents(c, sysEx).value == ParseUniform(c.current, sysEx).value + c.queued
  {
    if c.current == [] {
      assert ParseUniform(c.current, sysEx) == Success([]);
      assert [] + c.queued == c.queued;
    }
  }

  /**
   * A channel status byte ends the message in progress (except as the
   * packet's first byte) and starts a new one; only note-off, note-on and
   * control-change statuses become the running status, the others clear it.
   */
  lemma ChannelStatusStep(rev: Revision, c: Core, b: UInt8, sysEx: SysExDecoder)
    requires 0x80 <= b <= 0xEF
    ensures var r := Step(rev, c, b, false, sysEx);
      var status := if b / 16 == 0x8 || b / 16 == 0x9 || b / 16 == 0xB then Some(b) else None;
      (r.Failure? <==> FlushEvents(c, sysEx).Failure?) &&
      (r.Success? ==> r.value == Progress(Core(status, [b], []), FlushEvents(c, sysEx).value, false))
    ensures var r := Step(rev, InitialCore(None), b, true, sysEx);
      r.Success? && r.value.core.current == [b] &&
      (r.value.core.runningStatus.Some? <==> b / 16 == 0x8 || b / 16 == 0x9 || b / 16 == 0xB)
  {
  }

  /**
   * A real-time byte leaves the message in progress alone and queues its
   * event; Timing Clock, Active Sensing and System Reset clear the running
   * status, the others keep it.
   */
  lemma RealTimeStep(rev: Revision, c: Core, b: UInt8, atStart: bool, sysEx: SysExDecoder)
    requires b >= 0xF8
    ensures Step(rev, c, b, atStart, sysEx) == Success(Progress(
      Core(if b == 0xF8 || b == 0xFE || b == 0xFF then None else c.runningStatus, c.current, c.queued + SystemOnly(b % 16)),
      [], false))
    ensures b != 0xF9 && b != 0xFD ==> |SystemOnly(b % 16)| == 1
  {
    assert b / 16 == 0xF;
    assert !StartsOwnMessage(c, b);
    if b == 0xF8 {
      assert SystemOnly(b % 16) == [TimingClock];
    }
  }

  /**
   * A data byte joins the message in progress; with none in progress it
   * starts one after the running status, and with no running status either
   * it ends the loop over the packet.
   */
  lemma DataByteStep(rev: Revision, c: Core, b: UInt8, atStart: bool, sysEx: SysExDecoder)
    requires b < 0x80
    ensures var r := Step(rev, c, b, atStart, sysEx);
      r.Success? && r.value.events == [] &&
      (c.current != [] ==> r.value == Progress(c.(current := c.current + [b]), [], false)) &&
      (c.current == [] && c.runningStatus.Some? ==>
        r.value == Progress(c.(current := [c.runningStatus.value, b]), [], false)) &&
      (c.current == [] && c.runningStatus.None? <==> r.value.halted)
  {
  }

  // ---------------------------------------------------------------------
  // Properties of whole packets
  // ---------------------------------------------------------------------

  /** One more byte of the loop. */
  lemma RunAppend(rev: Revision, c: Core, bytes: seq<UInt8>, b: UInt8, sysEx: SysExDecoder)
    ensures Run(rev, c, bytes + [b], sysEx) ==
      match Run(rev, c, bytes, sysEx)
      case Failure(e) => Failure(e)
      case Success(p) =>
        if p.halted then Success(p)
        else
          match Step(rev, p.core, b, bytes == [], sysEx)
          case Failure(e) => Failure(e)
          case Success(s) => Success(Progress(s.core, p.events + s.events, s.halted))
  {
    assert (bytes + [b])[..|bytes|] == bytes;
  }

  /** Once the loop traps or is ended early, the rest of the packet changes nothing. */
  lemma {:induction false} StoppedRunStays(rev: Revision, c: Core, bytes: seq<UInt8>, more: seq<UInt8>, sysEx: SysExDecoder)
    requires Run(rev, c, bytes, sysEx).Failure? || Run(rev, c, bytes, sysEx).value.halted
    ensures Run(rev, c, bytes + more, sysEx) == Run(rev, c, bytes, sysEx)
    decreases |more|
  {
    if more == [] {
      assert bytes + more == bytes;
    } else {
      var init := more[..|more| - 1];
      StoppedRunStays(rev, c, bytes, init, sysEx);
      RunAppend(rev, c, bytes + init, more[|more| - 1], sysEx);
      assert bytes + more == (bytes + init) + [more[|more| - 1]];
    }
  }

  /** Once a prefix of the data stops the loop, the whole data gives the same run. */
  lemma StoppedPrefixDecides(rev: Revision, c: Core, data: seq<UInt8>, k: nat, sysEx: SysExDecoder)
    requires k <= |data|
    requires Run(rev, c, data[..k], sysEx).Failure? || Run(rev, c, data[..k], sysEx).value.halted
    ensures Run(rev, c, data, sysEx) == Run(rev, c, data[..k], sysEx)
  {
    StoppedRunStays(rev, c, data[..k], data[k..], sysEx);
    assert data[..k] + data[k..] == data;
  }

  /**
   * A data byte with no message in progress and no running status ends the
   * parsing of the packet: the bytes after it are never looked at.
   */
  lemma StrayDataByteEndsPacket(rev: Revision, c: Core, bytes: seq<UInt8>, b: UInt8, more: seq<UInt8>, sysEx: SysExDecoder)
    requires b < 0x80
    requires var p := Run(rev, c, bytes, sysEx);
      p.Success? && !p.value.halted && p.value.core.current == [] && p.value.core.runningStatus.None?
    ensures Run(rev, c, bytes + [b] + more, sysEx) == Success(Run(rev, c, bytes, sysEx).value.(halted := true))
  {
    var p := Run(rev, c, bytes, sysEx).value;
    RunAppend(rev, c, bytes, b, sysEx);
    DataByteStep(rev, p.core, b, bytes == [], sysEx);
    assert p.events + [] == p.events;
    StoppedRunStays(rev, c, bytes + [b], more, sysEx);
  }

  /**
   * The running status the loop ends with is the one it started with, or
   * none, or a note-off, note-on or control-change status byte of the packet.
   */
  lemma {:induction false} RunningStatusOrigin(rev: Revision, c: Core, bytes: seq<UInt8>, sysEx: SysExDecoder)
    requires Run(rev, c, bytes, sysEx).Success?
    ensures var status := Run(rev, c, bytes, sysEx).value.core.runningStatus;
      status.Some? ==> (status == c.runningStatus ||
        (status.value in bytes && (status.value / 16 == 0x8 || status.value / 16 == 0x9 || status.value / 16 == 0xB)))
  {
    if bytes != [] {
      var init := bytes[..|bytes| - 1];
      var b := bytes[|bytes| - 1];
      assert bytes == init + [b];
      RunAppend(rev, c, init, b, sysEx);
      RunningStatusOrigin(rev, c, init, sysEx);
      var p := Run(rev, c, init, sysEx).value;
      if !p.halted {
        var s := Step(rev, p.core, b, init == [], sysEx);
        if s.value.core.runningStatus.Some? && s.value.core.runningStatus != p.core.runningStatus {
          assert s.value.core.runningStatus == Some(b);
        }
      }
    }
  }

  /** An empty packet reports nothing and hands the running status back unchanged. */
  lemma EmptyPacket(rev: Revision, runningStatus: Option<UInt8>, sysEx: SysExDecoder)
    ensures ParsedEvents(rev, [], runningStatus, sysEx) == Success(Parsed([], runningStatus))
  {
  }

  /** The four bytes of `RealTimeInsideMessage` leave the message and the real-time event pending. */
  lemma RealTimeInsideRun(rev: Revision, status: UInt8, a: UInt7, rt: UInt8, b: UInt7, sysEx: SysExDecoder)
    requires 0x80 <= status <= 0xBF && 0xFA <= rt <= 0xFC
    ensures var rs := if status / 16 == 0xA then None else Some(status);
      Run(rev, InitialCore(None), [status, a as UInt8, rt, b as UInt8], sysEx) ==
      Success(Progress(Core(rs, [status, a as UInt8, b as UInt8], SystemOnly(rt % 16)), [], false))
  {
    var c := InitialCore(None);
    var rs := if status / 16 == 0xA then None else Some(status);
    RunAppend(rev, c, [], status, sysEx);
    assert [] + [status] == [status];
    assert Step(rev, c, status, true, sysEx) == Success(Progress(Core(rs, [status], []), [], false));
    assert Run(rev, c, [], sysEx) == Success(Progress(c, [], false));
    var none: seq<Event> := [];
    assert none + none == none;
    assert Run(rev, c, [status], sysEx) == Success(Progress(Core(rs, [status], []), [], false));
    RunAppend(rev, c, [status], a as UInt8, sysEx);
    DataByteStep(rev, Core(rs, [status], []), a as UInt8, false, sysEx);
    assert [status] + [a as UInt8] == [status, a as UInt8];
    assert Run(rev, c, [status, a as UInt8], sysEx) == Success(Progress(Core(rs, [status, a as UInt8], []), [], false));
    RunAppend(rev, c, [status, a as UInt8], rt, sysEx);
    RealTimeStep(rev, Core(rs, [status, a as UInt8], []), rt, false, sysEx);
    assert rt != 0xF8 && rt != 0xFE && rt != 0xFF;
    assert [] + SystemOnly(rt % 16) == SystemOnly(rt % 16);
    assert [status, a as UInt8] + [rt] == [status, a as UInt8, rt];
    assert Run(rev, c, [status, a as UInt8, rt], sysEx) ==
      Success(Progress(Core(rs, [status, a as UInt8], SystemOnly(rt % 16)), [], false));
    RunAppend(rev, c, [status, a as UInt8, rt], b as UInt8, sysEx);
    DataByteStep(rev, Core(rs, [status, a as UInt8], SystemOnly(rt % 16)), b as UInt8, false, sysEx);
    assert [status, a as UInt8] + [b as UInt8] == [status, a as UInt8, b as UInt8];
    assert [status, a as UInt8, rt] + [b as UInt8] == [status, a as UInt8, rt, b as UInt8];
  }

  /**
   * A real-time byte between the data bytes of a message is reported after
   * that message, and Start, Continue and Stop leave the running status.
   */
  lemma RealTimeInsideMessage(rev: Revision, status: UInt8, a: UInt7, rt: UInt8, b: UInt7, sysEx: SysExDecoder)
    requires 0x80 <= status <= 0xBF && 0xFA <= rt <= 0xFC
    ensures ParsedEvents(rev, [status, a as UInt8, rt, b as UInt8], None, sysEx) ==
      Success(Parsed([ChannelPair(status / 16, a, b, status % 16)] + SystemOnly(rt % 16),
        if status / 16 == 0xA then None else Some(status)))
  {
    var rs := if status / 16 == 0xA then None else Some(status);
    var none: seq<Event> := [];
    RealTimeInsideRun(rev, status, a, rt, b, sysEx);
    var message := [status, a as UInt8, b as UInt8];
    assert message == [status] + PairBytes([(a, b)]);
    UniformRunningStatus(status, [(a, b)], sysEx);
    assert PairEvents(status / 16, status % 16, [(a, b)]) == [ChannelPair(status / 16, a, b, status % 16)];
    FlushOrder(Core(rs, message, SystemOnly(rt % 16)), sysEx);
    var events := [ChannelPair(status / 16, a, b, status % 16)] + SystemOnly(rt % 16);
    assert FlushEvents(Core(rs, message, SystemOnly(rt % 16)), sysEx) == Success(events);
    assert none + events == events;
  }

  // ---------------------------------------------------------------------
  // The system-common finding
  // ---------------------------------------------------------------------

  /** A complete Note On from the start of a packet, under either loop. */
  lemma NoteOnRun(rev: Revision, sysEx: SysExDecoder)
    ensures Run(rev, InitialCore(None), [0x90, 0x40, 0x40], sysEx) ==
      Success(Progress(Core(Some(0x90), [0x90, 0x40, 0x40], []), [], false))
  {
    var c := InitialCore(None);
    var none: seq<Event> := [];
    RunAppend(rev, c, [], 0x90, sysEx);
    assert [] + [0x90 as UInt8] == [0x90];
    assert Run(rev, c, [], sysEx) == Success(Progress(c, [], false));
    assert none + none == none;
    assert Run(rev, c, [0x90], sysEx) == Success(Progress(Core(Some(0x90), [0x90], []), [], false));
    RunAppend(rev, c, [0x90], 0x40, sysEx);
    assert [0x90 as UInt8] + [0x40 as UInt8] == [0x90, 0x40];
    RunAppend(rev, c, [0x90, 0x40], 0x40, sysEx);
    assert [0x90 as UInt8, 0x40] + [0x40 as UInt8] == [0x90, 0x40, 0x40];
  }

  /**
   * As written, a system-common status byte is added to the message in
   * progress: after a complete Note On, a Tune Request reaches the splitter
   * as the next data byte and traps.
   */
  lemma SystemCommonTrapsAsWritten(sysEx: SysExDecoder)
    ensures ParsedEvents(AsWritten, [0x90, 0x40, 0x40, 0xF6], None, sysEx) == Failure(UInt7Overflow)
  {
    var c := InitialCore(None);
    var note: seq<UInt8> := [0x90, 0x40, 0x40];
    var none: seq<Event> := [];
    NoteOnRun(AsWritten, sysEx);
    RunAppend(AsWritten, c, note, 0xF6, sysEx);
    var message: seq<UInt8> := [0x90, 0x40, 0x40, 0xF6];
    assert note + [0xF6] == message;
    assert none + none == none;
    assert Run(AsWritten, c, message, sysEx) == Success(Progress(Core(Some(0x90), message, []), [], false));
    assert SplitStep(message, 0, sysEx) == Success(Emit([NoteOn(0x40, 0x40, 0)], 3));
    assert SplitStep(message, 3, sysEx) == Failure(UInt7Overflow);
  }

  /** Flushing the complete Note On reports it. */
  lemma NoteOnFlush(sysEx: SysExDecoder)
    ensures FlushEvents(Core(Some(0x90), [0x90, 0x40, 0x40], []), sysEx) == Success([NoteOn(0x40, 0x40, 0)])
  {
    var none: seq<Event> := [];
    var note: seq<UInt8> := [0x90, 0x40, 0x40];
    UniformRunningStatus(0x90, [(0x40, 0x40)], sysEx);
    assert note == [0x90 as UInt8] + PairBytes([(0x40, 0x40)]);
    assert PairEvents(0x9, 0, [(0x40, 0x40)]) == [NoteOn(0x40, 0x40, 0)];
    FlushOrder(Core(Some(0x90), note, []), sysEx);
    assert [NoteOn(0x40, 0x40, 0)] + none == [NoteOn(0x40, 0x40, 0)];
  }

  /** Flushing a lone Tune Request reports it. */
  lemma TuneRequestFlush(sysEx: SysExDecoder)
    ensures FlushEvents(Core(Some(0x90), [0xF6], []), sysEx) == Success([TuneRequest])
  {
    var none: seq<Event> := [];
    assert SplitStep([0xF6], 0, sysEx) == Success(Emit([TuneRequest], 1));
    assert [TuneRequest] + none == [TuneRequest];
    assert ParseUniform([0xF6], sysEx) == Success([TuneRequest]);
    FlushOrder(Core(Some(0x90), [0xF6], []), sysEx);
  }

  /** The corrected loop reports the Note On and then the Tune Request. */
  lemma SystemCommonCorrected(sysEx: SysExDecoder)
    ensures ParsedEvents(Corrected, [0x90, 0x40, 0x40, 0xF6], None, sysEx) ==
      Success(Parsed([NoteOn(0x40, 0x40, 0), TuneRequest], Some(0x90)))
  {
    var c := InitialCore(None);
    var none: seq<Event> := [];
    var note: seq<UInt8> := [0x90, 0x40, 0x40];
    var noteCore := Core(Some(0x90), note, []);
    NoteOnRun(Corrected, sysEx);
    RunAppend(Corrected, c, note, 0xF6, sysEx);
    NoteOnFlush(sysEx);
    assert StartsOwnMessage(noteCore, 0xF6);
    assert [] + [0xF6 as UInt8] == [0xF6];
    assert SystemStatus(Flushed(noteCore), 0xF6) == Core(Some(0x90), [0xF6], []);
    assert Step(Corrected, noteCore, 0xF6, false, sysEx) ==
      Success(Progress(Core(Some(0x90), [0xF6], []), [NoteOn(0x40, 0x40, 0)], false));
    assert none + [NoteOn(0x40, 0x40, 0)] == [NoteOn(0x40, 0x40, 0)];
    assert note + [0xF6] == [0x90, 0x40, 0x40, 0xF6];
    assert Run(Corrected, c, [0x90, 0x40, 0x40, 0xF6], sysEx) ==
      Success(Progress(Core(Some(0x90), [0xF6], []), [NoteOn(0x40, 0x40, 0)], false));
    TuneRequestFlush(sysEx);
    assert [NoteOn(0x40, 0x40, 0)] + [TuneRequest] == [NoteOn(0x40, 0x40, 0), TuneRequest];
  }

  /** A data byte, or an End-of-Exclusive inside a SysEx, keeps a message well formed. */
  lemma AppendWellFormed(buffer: seq<UInt8>, b: UInt8)
    requires WellFormed(buffer) && buffer != []
    requires b < 0x80 || (buffer[0] == 0xF0 && b == 0xF7)
    ensures WellFormed(buffer + [b])
  {
    var grown := buffer + [b];
    assert forall i :: 1 <= i < |buffer| ==> grown[i] == buffer[i];
  }

  /** A corrected step keeps the message in progress well formed and never traps. */
  lemma CorrectedStepWellFormed(c: Core, b: UInt8, atStart: bool, sysEx: SysExDecoder)
    requires WellFormed(c.current) && (atStart ==> c.current == [])
    ensures var r := Step(Corrected, c, b, atStart, sysEx);
      r.Success? && WellFormed(r.value.core.current)
  {
    WellFormedSplitNeverTraps(c.current, 0, sysEx);
    var high := b / 16;
    if 0x8 <= high <= 0xE {
      assert [] + [b] == [b];
    } else if high == 0xF {
      if StartsOwnMessage(c, b) {
        assert [] + [b] == [b];
      } else if b == 0xF7 {
        AppendWellFormed(c.current, b);
      }
    } else if c.current != [] {
      AppendWellFormed(c.current, b);
    }
  }

  /** From a state with no message in progress, the corrected loop never traps and leaves a well-formed message. */
  lemma {:induction false} CorrectedRunWellFormed(c: Core, bytes: seq<UInt8>, sysEx: SysExDecoder)
    requires c.current == []
    ensures var r := Run(Corrected, c, bytes, sysEx);
      r.Success? && WellFormed(r.value.core.current)
  {
    if bytes != [] {
      var init := bytes[..|bytes| - 1];
      var b := bytes[|bytes| - 1];
      assert bytes == init + [b];
      RunAppend(Corrected, c, init, b, sysEx);
      CorrectedRunWellFormed(c, init, sysEx);
      var p := Run(Corrected, c, init, sysEx).value;
      if !p.halted {
        if init == [] {
          assert p.core == c;
        }
        CorrectedStepWellFormed(p.core, b, init == [], sysEx);
      }
    }
  }

  /** The corrected parser never traps, whatever the packet and the running status. */
  lemma CorrectedNeverTraps(data: seq<UInt8>, runningStatus: Option<UInt8>, sysEx: SysExDecoder)
    ensures ParsedEvents(Corrected, data, runningStatus, sysEx).Success?
  {
    if data != [] {
      CorrectedRunWellFormed(InitialCore(runningStatus), data, sysEx);
      var p := Run(Corrected, InitialCore(runningStatus), data, sysEx).value;
      WellFormedSplitNeverTraps(p.core.current, 0, sysEx);
    }
  }

  // ---------------------------------------------------------------------
  // The imperative parser
  // ---------------------------------------------------------------------

  /** `parseCurrentMessage()` over the loop's local state. */
  method FlushMessage(c: Core, sysEx: SysExDecoder) returns (r: Result<seq<Event>, Trap>)
    ensures r == FlushEvents(c, sysEx)
  {
    if c.current == [] && c.queued == [] {
      return Success([]);
    }
    var split := SplitMessages(c.current, sysEx);
    if split.Failure? {
      return Failure(split.error);
    }
    return Success(split.value + c.queued);
  }

  /**
   * The body of the packet loop, corrected: the switch on the byte's high
   * nibble, then on the low nibble of a system status byte.
   */
  method StepByte(c: Core, b: UInt8, atStart: bool, sysEx: SysExDecoder) returns (r: Result<Progress, Trap>)
    ensures r == Step(Corrected, c, b, atStart, sysEx)
  {
    var runningStatus, current, queued := c.runningStatus, c.current, c.queued;
    var events: seq<Event> := [];
    var high := b / 16;
    if 0x8 <= high <= 0xE {
      if !atStart {
        var flushed := FlushMessage(c, sysEx);
        if flushed.Failure? {
          return Failure(flushed.error);
        }
        events, current, queued := flushed.value, [], [];
      }
      if high == 0x8 || high == 0x9 || high == 0xB {
        runningStatus := Some(b);
      } else {
        runningStatus := None;
      }
      current := current + [b];
    } else if high == 0xF {
      if StartsOwnMessage(c, b) {
        var flushed := FlushMessage(c, sysEx);
        if flushed.Failure? {
          return Failure(flushed.error);
        }
        events, current, queued := flushed.value, [], [];
      }
      var low := b % 16;
      if low <= 0x3 || low == 0x6 {
        current := current + [b];
      } else if low == 0x4 || low == 0x5 {
        runningStatus := None;
      } else if low == 0x7 {
        runningStatus := None;
        current := current + [b];
      } else if low == 0x8 {
        runningStatus := None;
        queued := queued + [TimingClock];
      } else if low == 0xE || low == 0xF {
        runningStatus := None;
        queued := queued + SystemOnly(low);
      } else {
        queued := queued + SystemOnly(low);
      }
    } else if current == [] {
      if runningStatus.Some? {
        current := [runningStatus.value, b];
      } else {
        return Success(Progress(c, [], true));
      }
    } else {
      current := current + [b];
    }
    return Success(Progress(Core(runningStatus, current, queued), events, false));
  }

  /**
   * `static parsedEvents(in:runningStatus:)`, corrected: the byte loop over
   * local state, then the final flush.
   */
  method ParseBytes(data: seq<UInt8>, runningStatus: Option<UInt8>, sysEx: SysExDecoder) returns (r: Result<Parsed, Trap>)
    ensures r == ParsedEvents(Corrected, data, runningStatus, sysEx)
  {
    if data == [] {
      return Success(Parsed([], runningStatus));
    }
    var start := InitialCore(runningStatus);
    var core := start;
    var events: seq<Event> := [];
    var halted := false;
    var pos := 0;
    ghost var consumed := 0;
    assert data[..0] == [];
    while pos < |data|
      invariant 0 <= consumed <= pos <= |data|
      invariant !halted ==> consumed == pos
      invariant halted ==> pos == |data|
      invariant Run(Corrected, start, data[..consumed], sysEx) == Success(Progress(core, events, halted))
      decreases |data| - pos
    {
      var step := StepByte(core, data[pos], pos == 0, sysEx);
      RunAppend(Corrected, start, data[..pos], data[pos], sysEx);
      assert data[..pos + 1] == data[..pos] + [data[pos]];
      if step.Failure? {
        StoppedPrefixDecides(Corrected, start, data, pos + 1, sysEx);
        return Failure(step.error);
      }
      core, events := step.value.core, events + step.value.events;
      if step.value.halted {
        halted, consumed, pos := true, pos + 1, |data|;
      } else {
        pos := pos + 1;
        consumed := pos;
      }
    }
    if halted {
      StoppedPrefixDecides(Corrected, start, data, consumed, sysEx);
    } else {
      assert data[..consumed] == data;
    }
    var flushed := FlushMessage(core, sysEx);
    if flushed.Failure? {
      return Failure(flushed.error);
    }
    return Success(Parsed(events + flushed.value, core.runningStatus));
  }

  /** `MIDI.MIDI1Parser`: one parser per endpoint, keeping the running status between packets. */
  class Parser {
    var runningStatus: Option<UInt8>

    /** A parser with no running status. */
    constructor()
      ensures runningStatus == None
    {
      runningStatus := None;
    }

    /**
     * `parsedEvents(in:)`: the packet's events, the running status handed
     * back kept for the next packet.
     */
    method ParsedEventsIn(data: seq<UInt8>, sysEx: SysExDecoder) returns (r: Result<seq<Event>, Trap>)
      modifies this
      ensures var expected := ParsedEvents(Corrected, data, old(runningStatus), sysEx);
        (r.Failure? <==> expected.Failure?) &&
        (r.Success? ==> r.value == expected.value.events && runningStatus == expected.value.runningStatus)
      ensures r.Failure? ==> runningStatus == old(runningStatus)
    {
      var result := ParseBytes(data, runningStatus, sysEx);
      if result.Failure? {
        return Failure(result.error);
      }
      runningStatus := result.value.runningStatus;
      return Success(result.value.events);
    }
  }
}
