/**
 * Properties of the stateful MIDI 2.0 packet parser: reference encoders of
 * the UMP words and the round trips through the sub-parsers and the packet
 * parser, the Jitter-Reduction prefix, the packet-length checks, and the
 * reassembly of SysEx7 and SysEx8 messages sent in several packets.
 */
module Midi2ParserProperties {
  import opened Wrappers
  import opened MidiTypes
  import opened UmpFields
  import opened Midi2Parsers

  // ---------------------------------------------------------------------
  // Reference encoders (the UMP layout of each message)
  // ---------------------------------------------------------------------

  /** The events of a System Real Time / System Common UMP. */
  predicate IsSystemEvent(e: Event)
  {
    e.TimecodeQuarterFrame? || e.SongPositionPointer? || e.SongSelect? || e.TuneRequest?
    || e.TimingClock? || e.Start? || e.Continue? || e.Stop? || e.ActiveSensing? || e.SystemReset?
  }

  function Bytes3(a: UInt8, b: UInt8, c: UInt8): (r: seq<UInt8>)
    ensures |r| == 3 && r[0] == a && r[1] == b && r[2] == c
  {
    [a, b, c]
  }

  /** Bytes 1 ... 3 of the UMP of a system event: status, then data bytes or zero. */
  function SystemBytes(e: Event): (r: seq<UInt8>)
    requires IsSystemEvent(e)
    ensures |r| == 3
  {
    match e
    case TimecodeQuarterFrame(d, _) => Bytes3(0xF1, d, 0)
    case SongPositionPointer(v, _) => Bytes3(0xF2, Split14(v).1, Split14(v).0)
    case SongSelect(n, _) => Bytes3(0xF3, n, 0)
    case TuneRequest(_) => Bytes3(0xF6, 0, 0)
    case TimingClock(_) => Bytes3(0xF8, 0, 0)
    case Start(_) => Bytes3(0xFA, 0, 0)
    case Continue(_) => Bytes3(0xFB, 0, 0)
    case Stop(_) => Bytes3(0xFC, 0, 0)
    case ActiveSensing(_) => Bytes3(0xFE, 0, 0)
    case SystemReset(_) => Bytes3(0xFF, 0, 0)
  }

  /** Bytes 1 ... 3 of a MIDI 1.0 channel-voice UMP: status with channel, then data bytes or zero. */
  function Midi1Bytes(e: Event): (r: seq<UInt8>)
    requires IsMidi1Voice(e)
    ensures |r| == 3 && Low(r[0]) == e.channel
  {
    match e
    case NoteOff(n, v, _, ch, _) => [Nibbles(0x8, ch), n, v.v7]
    case NoteOn(n, v, _, ch, _) => [Nibbles(0x9, ch), n, v.v7]
    case NotePressure(n, a, ch, _) => [Nibbles(0xA, ch), n, a.a7]
    case CC(c, a, ch, _) => [Nibbles(0xB, ch), c, a.a7]
    case ProgramChange(p, _, ch, _) => [Nibbles(0xC, ch), p, 0]
    case Pressure(a, ch, _) => [Nibbles(0xD, ch), a.a7, 0]
    case PitchBend(b, ch, _) => [Nibbles(0xE, ch), Split14(b.b14).1, Split14(b.b14).0]
  }

  /** The events a MIDI 2.0 channel-voice UMP carries, other than RPN / NRPN. */
  predicate IsMidi2Voice(e: Event)
  {
    match e
    case NoteOff(_, v, a, _, _) => v.Velocity16? && a.Attribute?
    case NoteOn(_, v, a, _, _) => v.Velocity16? && a.Attribute?
    case NotePressure(_, a, _, _) => a.Amount32?
    case CC(_, a, _, _) => a.Amount32?
    case ProgramChange(_, _, _, _) => true
    case Pressure(a, _, _) => a.Amount32?
    case PitchBend(b, _, _) => b.Bend32?
    case NoteCC(_, _, _, _, _) => true
    case NotePitchBend(_, _, _, _) => true
    case NoteManagement(_, _, _, _) => true
    case _ => false
  }

  /** Bytes 1 ... 7 of a MIDI 2.0 channel-voice UMP. */
  function Midi2Bytes(e: Event): (r: seq<UInt8>)
    requires IsMidi2Voice(e)
    ensures |r| == 7 && Low(r[0]) == e.channel
  {
    match e
    case NoteCC(n, Registered(i), w, ch, _) => [Nibbles(0x0, ch), n, i] + Split32(w)
    case NoteCC(n, Assignable(i), w, ch, _) => [Nibbles(0x1, ch), n, i] + Split32(w)
    case NotePitchBend(n, w, ch, _) => [Nibbles(0x6, ch), n, 0] + Split32(w)
    case NoteOff(n, v, a, ch, _) =>
      [Nibbles(0x8, ch), n, a.kind, Split16(v.v16).0, Split16(v.v16).1, Split16(a.data).0, Split16(a.data).1]
    case NoteOn(n, v, a, ch, _) =>
      [Nibbles(0x9, ch), n, a.kind, Split16(v.v16).0, Split16(v.v16).1, Split16(a.data).0, Split16(a.data).1]
    case NotePressure(n, a, ch, _) => [Nibbles(0xA, ch), n, 0] + Split32(a.a32)
    case CC(c, a, ch, _) => [Nibbles(0xB, ch), c, 0] + Split32(a.a32)
    case ProgramChange(p, NoBankSelect, ch, _) => [Nibbles(0xC, ch), 0, 0, p, 0, 0, 0]
    case ProgramChange(p, BankSelect(b), ch, _) => [Nibbles(0xC, ch), 0, 1, p, 0, Split14(b).0, Split14(b).1]
    case Pressure(a, ch, _) => [Nibbles(0xD, ch), 0, 0] + Split32(a.a32)
    case PitchBend(b, ch, _) => [Nibbles(0xE, ch), 0, 0] + Split32(b.b32)
    case NoteManagement(n, f, ch, _) => [Nibbles(0xF, ch), n, f, 0, 0, 0, 0]
  }

  // ---------------------------------------------------------------------
  // Sub-parser round trips
  // ---------------------------------------------------------------------

  /** Every system event is read back from its UMP bytes. */
  lemma SystemRoundTrip(e: Event)
    requires IsSystemEvent(e)
    ensures ParseSystemRealTimeAndCommon(SystemBytes(e), e.group) == Some(e)
  {
    if e.SongPositionPointer? {
      Split14Join(e.midiBeat);
    }
  }

  /** A parsed system event encodes back to the status and data bytes it was read from. */
  lemma SystemCanonical(bytes: seq<UInt8>, group: UInt4)
    requires ParseSystemRealTimeAndCommon(bytes, group).Some?
    ensures var e := ParseSystemRealTimeAndCommon(bytes, group).value;
      IsSystemEvent(e) && SystemBytes(e)[..1 + SystemDataCount(bytes[0])] == bytes[..1 + SystemDataCount(bytes[0])]
  {
    var e := ParseSystemRealTimeAndCommon(bytes, group).value;
    if bytes[0] == 0xF2 {
      Join14Split(bytes[2], bytes[1]);
    }
  }

  /** Every event of the MIDI 1.0 channel-voice sub-parser is read back from its UMP bytes. */
  lemma Midi1RoundTrip(e: Event)
    requires IsMidi1Voice(e)
    ensures ParseMidi1ChannelVoice(Midi1Bytes(e), e.channel, e.group) == Some(e)
  {
    if e.PitchBend? {
      Split14Join(e.bend.b14);
    }
  }

  /**
   * A parsed MIDI 1.0 channel-voice event encodes back to the bytes it was
   * read from, up to the unused second data byte of program change and
   * channel pressure.  Pitch bend keeps msb = third byte, lsb = second byte.
   */
  lemma Midi1Canonical(bytes: seq<UInt8>, group: UInt4)
    requires |bytes| > 0 && ParseMidi1ChannelVoice(bytes, Low(bytes[0]), group).Some?
    ensures var e := ParseMidi1ChannelVoice(bytes, Low(bytes[0]), group).value;
      var k := 1 + Midi1DataCount(High(bytes[0]));
      Midi1Bytes(e)[..k] == bytes[..k]
  {
    var e := ParseMidi1ChannelVoice(bytes, Low(bytes[0]), group).value;
    NibblesOfByte(bytes[0]);
    if High(bytes[0]) == 0xE {
      Join14Split(bytes[2], bytes[1]);
    }
  }

  /** The pitch bend of a MIDI 1.0 UMP takes its most significant bits from the third byte. */
  lemma Midi1PitchBendOrder(status: UInt8, lsb: UInt7, msb: UInt7, group: UInt4)
    requires High(status) == 0xE
    ensures ParseMidi1ChannelVoice([status, lsb, msb], Low(status), group)
            == Some(PitchBend(Bend14(msb * 0x80 + lsb), Low(status), group))
  {
  }

  lemma Midi2WordRoundTrip(w: UInt32, prefix: seq<UInt8>)
    requires |prefix| == 3
    ensures var b := prefix + Split32(w); Word32(b[3], b[4], b[5], b[6]) == w
  {
    Split32Word(w);
  }

  /** Every MIDI 2.0 channel-voice event other than RPN / NRPN is read back from its UMP bytes, in both editions. */
  lemma Midi2RoundTrip(ed: Edition, e: Event, midi1Value: UInt32 -> UInt14)
    requires IsMidi2Voice(e)
    ensures ParseMidi2ChannelVoice(ed, Midi2Bytes(e), e.channel, e.group, midi1Value) == Some(e)
  {
    var b := Midi2Bytes(e);
    match e
    case NoteCC(n, c, w, ch, g) =>
      Midi2WordRoundTrip(w, b[..3]);
      assert b == b[..3] + Split32(w);
    case NotePitchBend(n, w, ch, g) =>
      Midi2WordRoundTrip(w, b[..3]);
      assert b == b[..3] + Split32(w);
    case NoteOff(n, v, a, ch, g) =>
      Split16Word(v.v16);
      Split16Word(a.data);
    case NoteOn(n, v, a, ch, g) =>
      Split16Word(v.v16);
      Split16Word(a.data);
    case NotePressure(n, a, ch, g) =>
      Midi2WordRoundTrip(a.a32, b[..3]);
      assert b == b[..3] + Split32(a.a32);
    case CC(c, a, ch, g) =>
      Midi2WordRoundTrip(a.a32, b[..3]);
      assert b == b[..3] + Split32(a.a32);
    case ProgramChange(p, bank, ch, g) =>
      if bank.BankSelect? {
        Split14Join(bank.bank);
      }
    case Pressure(a, ch, g) =>
      Midi2WordRoundTrip(a.a32, b[..3]);
      assert b == b[..3] + Split32(a.a32);
    case PitchBend(v, ch, g) =>
      Midi2WordRoundTrip(v.b32, b[..3]);
      assert b == b[..3] + Split32(v.b32);
    case NoteManagement(n, f, ch, g) =>
  }

  /** The two editions read every MIDI 2.0 channel-voice UMP alike, except status nibbles 0x2 ... 0x5. */
  lemma EditionsAgree(bytes: seq<UInt8>, channel: UInt4, group: UInt4, midi1Value: UInt32 -> UInt14)
    requires |bytes| == 7 ==> !(0x2 <= High(bytes[0]) <= 0x5)
    ensures ParseMidi2ChannelVoice(Earlier, bytes, channel, group, midi1Value)
         == ParseMidi2ChannelVoice(Current, bytes, channel, group, midi1Value)
  {
  }

  /**
   * In the current edition, status nibbles 0x2 / 0x4 give an RPN and 0x3 / 0x5
   * an NRPN (absolute for 0x2 / 0x3, relative for 0x4 / 0x5), whose parameter
   * is the second and third byte and whose data is the downscaled data word.
   */
  lemma ParameterNumberMessage(bytes: seq<UInt8>, channel: UInt4, group: UInt4, midi1Value: UInt32 -> UInt14)
    requires |bytes| == 7 && 0x2 <= High(bytes[0]) <= 0x5 && bytes[1] < 0x80 && bytes[2] < 0x80
    ensures var r := ParseMidi2ChannelVoice(Current, bytes, channel, group, midi1Value);
      var data := midi1Value(Word32(bytes[3], bytes[4], bytes[5], bytes[6]));
      && r.Some?
      && (r.value.Rpn? <==> High(bytes[0]) % 2 == 0)
      && (r.value.Rpn? || r.value.Nrpn?)
      && r.value.change == (if High(bytes[0]) <= 0x3 then Absolute else Relative)
      && r.value.parameterMsb == bytes[1] && r.value.parameterLsb == bytes[2]
      && Join14(r.value.dataMsb, r.value.dataLsb) == data
  {
    var data := midi1Value(Word32(bytes[3], bytes[4], bytes[5], bytes[6]));
    Split14Join(data);
  }

  // ---------------------------------------------------------------------
  // Whole packets
  // ---------------------------------------------------------------------

  lemma PacketTail(head: UInt8, body: seq<UInt8>)
    ensures ([head] + body)[1..] == body
    ensures ([head] + body)[0] == head
  {
  }

  /** A System Real Time / Common UMP gives its one event and keeps the buffers. */
  lemma SystemPacketRoundTrip(ed: Edition, st: Buffers, e: Event, dec: Decoders)
    requires IsSystemEvent(e)
    ensures Parse(ed, st, [Nibbles(0x1, e.group)] + SystemBytes(e), dec) == Parsed(st, [e])
  {
    PacketTail(Nibbles(0x1, e.group), SystemBytes(e));
    SystemRoundTrip(e);
  }

  /** A MIDI 1.0 channel-voice UMP gives its one event, on the channel of its status byte. */
  lemma Midi1PacketRoundTrip(ed: Edition, st: Buffers, e: Event, dec: Decoders)
    requires IsMidi1Voice(e)
    ensures Parse(ed, st, [Nibbles(0x2, e.group)] + Midi1Bytes(e), dec) == Parsed(st, [e])
  {
    PacketTail(Nibbles(0x2, e.group), Midi1Bytes(e));
    Midi1RoundTrip(e);
  }

  /** A MIDI 2.0 channel-voice UMP gives its one event, on the channel of its status byte. */
  lemma Midi2PacketRoundTrip(ed: Edition, st: Buffers, e: Event, dec: Decoders)
    requires IsMidi2Voice(e)
    ensures Parse(ed, st, [Nibbles(0x4, e.group)] + Midi2Bytes(e), dec) == Parsed(st, [e])
  {
    PacketTail(Nibbles(0x4, e.group), Midi2Bytes(e));
    Midi2RoundTrip(ed, e, dec.midi1Value);
  }

  /** A message type above 0x5 gives nothing and keeps the buffers. */
  lemma UnknownMessageType(ed: Edition, st: Buffers, bytes: seq<UInt8>, dec: Decoders)
    requires |bytes| > 0 && High(bytes[0]) > 0x5
    ensures Parse(ed, st, bytes, dec) == Parsed(st, [])
  {
  }

  /** The UMP size of each message type other than utility, in bytes. */
  function PacketSize(t: MessageType): nat
  {
    match t
    case Utility => 4
    case SystemRealTimeAndCommon => 4
    case Midi1ChannelVoice => 4
    case Data64Bit => 8
    case Midi2ChannelVoice => 8
    case Data128Bit => 16
  }

  /** A packet longer or shorter than its message type's UMP gives nothing and keeps the buffers. */
  lemma WrongPacketSize(ed: Edition, st: Buffers, bytes: seq<UInt8>, dec: Decoders)
    requires |bytes| > 0 && High(bytes[0]) <= 0x5
    requires MessageTypeFromRaw(High(bytes[0])).value != Utility
    requires |bytes| != PacketSize(MessageTypeFromRaw(High(bytes[0])).value)
    ensures Parse(ed, st, bytes, dec) == Parsed(st, [])
  {
  }

  /** Only the SysEx message types change the buffers, each only its own. */
  lemma BuffersOnlyForSysEx(ed: Edition, st: Buffers, bytes: seq<UInt8>, dec: Decoders)
    requires |bytes| > 0 && (High(bytes[0]) == 0x1 || High(bytes[0]) == 0x2 || High(bytes[0]) == 0x4)
    ensures Parse(ed, st, bytes, dec).buffers == st
  {
  }

  /** The word of a JR Clock (status 0x1) or JR Timestamp (status 0x2) message. */
  function JrWord(group: UInt4, status: UInt4, time: UInt16): (r: seq<UInt8>)
    requires status == 0x1 || status == 0x2
    ensures |r| == 4
  {
    [Nibbles(0x0, group), Nibbles(status, 0), Split16(time).0, Split16(time).1]
  }

  lemma WordAligned(n: nat)
    requires n % 4 == 0
    ensures (4 + n) % 4 == 0
  {
  }

  /** A utility UMP yields its event, then the events of the bytes after its word, if any. */
  lemma UtilityPacket(ed: Edition, st: Buffers, bytes: seq<UInt8>, dec: Decoders, e: Event, following: seq<UInt8>)
    requires |bytes| >= 4 && |bytes| % 4 == 0 && High(bytes[0]) == 0x0
    requires ParseUtility(bytes[1..], Low(bytes[0])) == Some((e, following))
    ensures |following| < |bytes|
    ensures var tail := Parse(ed, st, following, dec);
      Parse(ed, st, bytes, dec) == (if |following| == 0 then Parsed(st, [e]) else Parsed(tail.buffers, [e] + tail.events))
  {
    assert MessageTypeFromRaw(High(bytes[0])) == Some(Utility);
  }

  /** The utility sub-parser reads a JR Clock / Timestamp word and hands back the bytes after it. */
  lemma JrUtility(group: UInt4, status: UInt4, time: UInt16, rest: seq<UInt8>)
    requires status == 0x1 || status == 0x2
    ensures var jr := if status == 0x1 then Event.JrClock(time, group) else Event.JrTimestamp(time, group);
      ParseUtility((JrWord(group, status, time) + rest)[1..], group) == Some((jr, rest))
  {
    var body := (JrWord(group, status, time) + rest)[1..];
    assert body == [Nibbles(status, 0), Split16(time).0, Split16(time).1] + rest;
    Split16Word(time);
    assert body[3..] == rest;
  }

  /**
   * A JR Clock / Timestamp word yields its event, followed by the events of
   * the bytes after it, parsed as a packet of their own.
   */
  lemma JrPrefix(ed: Edition, st: Buffers, group: UInt4, status: UInt4, time: UInt16,
                 rest: seq<UInt8>, dec: Decoders)
    requires status == 0x1 || status == 0x2
    requires |rest| % 4 == 0
    ensures var jr := if status == 0x1 then Event.JrClock(time, group) else Event.JrTimestamp(time, group);
      var tail := Parse(ed, st, rest, dec);
      Parse(ed, st, JrWord(group, status, time) + rest, dec) == Parsed(tail.buffers, [jr] + tail.events)
  {
    var jr := if status == 0x1 then Event.JrClock(time, group) else Event.JrTimestamp(time, group);
    var bytes := JrWord(group, status, time) + rest;
    JrUtility(group, status, time, rest);
    assert bytes[0] == Nibbles(0x0, group) && |bytes| == 4 + |rest|;
    WordAligned(|rest|);
    UtilityThenTail(ed, st, bytes, dec, jr, rest);
  }

  /** A utility word followed by whole words: its event, then the events of those words. */
  lemma UtilityThenTail(ed: Edition, st: Buffers, bytes: seq<UInt8>, dec: Decoders, e: Event, following: seq<UInt8>)
    requires |bytes| >= 4 && |bytes| % 4 == 0 && High(bytes[0]) == 0x0
    requires ParseUtility(bytes[1..], Low(bytes[0])) == Some((e, following))
    ensures var tail := Parse(ed, st, following, dec);
      Parse(ed, st, bytes, dec) == Parsed(tail.buffers, [e] + tail.events)
  {
    UtilityPacket(ed, st, bytes, dec, e, following);
    if |following| == 0 {
      assert [e] + [] == [e];
    }
  }

  /** A NOOP word yields one NOOP event, and whatever follows it in the packet is dropped. */
  lemma NoOpHasNoFollowers(ed: Edition, st: Buffers, group: UInt4, low: UInt4, b2: UInt8, b3: UInt8,
                           rest: seq<UInt8>, dec: Decoders)
    requires |rest| % 4 == 0
    ensures Parse(ed, st, [Nibbles(0x0, group), Nibbles(0x0, low), b2, b3] + rest, dec)
            == Parsed(st, [Event.NoOp(group)])
  {
    var bytes := [Nibbles(0x0, group), Nibbles(0x0, low), b2, b3] + rest;
    assert bytes[0] == Nibbles(0x0, group) && |bytes| == 4 + |rest|;
    WordAligned(|rest|);
    assert bytes[1..][0] == Nibbles(0x0, low);
    assert ParseUtility(bytes[1..], Low(bytes[0])) == Some((Event.NoOp(group), []));
    UtilityPacket(ed, st, bytes, dec, Event.NoOp(group), []);
  }

  // ---------------------------------------------------------------------
  // A run of packets through one parser
  // ---------------------------------------------------------------------

  /** Packets fed in turn to a step on the buffers: the final buffers and all events in order. */
  function Run(step: (Buffers, seq<UInt8>) -> Parsed, st: Buffers, packets: seq<seq<UInt8>>): (r: Parsed)
    decreases |packets|
  {
    if |packets| == 0 then Parsed(st, [])
    else
      var first := step(st, packets[0]);
      var later := Run(step, first.buffers, packets[1..]);
      Parsed(later.buffers, first.events + later.events)
  }

  /** Running two lists of packets one after the other is running their concatenation. */
  lemma {:induction false} RunAppend(step: (Buffers, seq<UInt8>) -> Parsed, st: Buffers,
                                     a: seq<seq<UInt8>>, b: seq<seq<UInt8>>)
    decreases |a|
    ensures var x := Run(step, st, a);
      var y := Run(step, x.buffers, b);
      Run(step, st, a + b) == Parsed(y.buffers, x.events + y.events)
  {
    if |a| == 0 {
      assert a + b == b;
    } else {
      var first := step(st, a[0]);
      assert (a + b)[0] == a[0];
      assert (a + b)[1..] == a[1..] + b;
      RunAppend(step, first.buffers, a[1..], b);
      var x := Run(step, first.buffers, a[1..]);
      var y := Run(step, x.buffers, b);
      assert first.events + (x.events + y.events) == (first.events + x.events) + y.events;
    }
  }

  lemma RunOne(step: (Buffers, seq<UInt8>) -> Parsed, st: Buffers, packet: seq<UInt8>)
    ensures Run(step, st, [packet]) == step(st, packet)
  {
    var first := step(st, packet);
    assert [packet][1..] == [];
    assert first.events + [] == first.events;
  }

  /** The packet parser as a step on the buffers. */
  function Stepper(ed: Edition, dec: Decoders): (Buffers, seq<UInt8>) -> Parsed
  {
    (st: Buffers, bytes: seq<UInt8>) => Parse(ed, st, bytes, dec)
  }

  /** The packets fed to one parser in turn: the final buffers and all events in order. */
  function ParseAll(ed: Edition, st: Buffers, packets: seq<seq<UInt8>>, dec: Decoders): Parsed
  {
    Run(Stepper(ed, dec), st, packets)
  }

  /** The bytes of a concatenation of chunks. */
  function Concat(chunks: seq<seq<UInt8>>): seq<UInt8>
  {
    if |chunks| == 0 then [] else chunks[0] + Concat(chunks[1..])
  }

  // ---------------------------------------------------------------------
  // SysEx7 in several packets
  // ---------------------------------------------------------------------

  /** A SysEx7 UMP carrying up to six payload bytes. */
  function SysEx7Packet(status: SysExStatus, group: UInt4, chunk: seq<UInt8>): (r: seq<UInt8>)
    requires |chunk| <= 6
    ensures |r| == 8
  {
    [Nibbles(0x3, group), Nibbles(SysExStatusRaw(status), |chunk|)] + chunk + Zeros(6 - |chunk|)
  }

  predicate SmallChunks(chunks: seq<seq<UInt8>>, limit: nat)
  {
    forall i :: 0 <= i < |chunks| ==> |chunks[i]| <= limit
  }

  function SysEx7Continues(group: UInt4, chunks: seq<seq<UInt8>>): (r: seq<seq<UInt8>>)
    requires SmallChunks(chunks, 6)
    ensures |r| == |chunks|
  {
    if |chunks| == 0 then []
    else [SysEx7Packet(SysExStatus.Continue, group, chunks[0])] + SysEx7Continues(group, chunks[1..])
  }

  /** What the SysEx7 sub-parser sees of a SysEx7 UMP. */
  lemma SysEx7PacketFields(status: SysExStatus, group: UInt4, chunk: seq<UInt8>)
    requires |chunk| <= 6
    ensures var bytes := SysEx7Packet(status, group, chunk);
      && High(bytes[0]) == 0x3 && Low(bytes[0]) == group
      && ValidSysEx7(bytes[1..]) && High(bytes[1]) == SysExStatusRaw(status) && Low(bytes[1]) == |chunk|
      && bytes[1..][1..1 + |chunk|] == chunk
  {
    var bytes := SysEx7Packet(status, group, chunk);
    var body := [Nibbles(SysExStatusRaw(status), |chunk|)] + chunk + Zeros(6 - |chunk|);
    assert bytes == [Nibbles(0x3, group)] + body;
    assert bytes[1..] == body;
    assert body[1..1 + |chunk|] == chunk;
  }

  /** A data-64 UMP goes to the SysEx7 step, with the group of its first byte. */
  lemma Data64Packet(ed: Edition, st: Buffers, bytes: seq<UInt8>, dec: Decoders)
    requires |bytes| == 8 && High(bytes[0]) == 0x3
    ensures var o := Data64(st.sysEx7, bytes[1..], Low(bytes[0]), dec.sysEx7);
      Parse(ed, st, bytes, dec) == Parsed(st.(sysEx7 := o.state), OptionSeq(o.event))
  {
    assert MessageTypeFromRaw(High(bytes[0])) == Some(Data64Bit);
  }

  /** One SysEx7 UMP through the packet parser: the SysEx7 step on the buffer. */
  lemma SysEx7PacketStep(ed: Edition, st: Buffers, status: SysExStatus, group: UInt4, chunk: seq<UInt8>,
                         dec: Decoders)
    requires |chunk| <= 6
    ensures var bytes := SysEx7Packet(status, group, chunk);
      var o := Data64(st.sysEx7, bytes[1..], group, dec.sysEx7);
      Parse(ed, st, bytes, dec) == Parsed(st.(sysEx7 := o.state), OptionSeq(o.event))
  {
    SysEx7PacketFields(status, group, chunk);
    Data64Packet(ed, st, SysEx7Packet(status, group, chunk), dec);
  }

  /** A Continue packet appends its chunk to a non-empty SysEx7 buffer and yields nothing. */
  lemma SysEx7ContinueStep(ed: Edition, st: Buffers, group: UInt4, chunk: seq<UInt8>, dec: Decoders)
    requires |chunk| <= 6 && |st.sysEx7| > 0
    ensures Parse(ed, st, SysEx7Packet(SysExStatus.Continue, group, chunk), dec)
            == Parsed(st.(sysEx7 := st.sysEx7 + chunk), [])
  {
    SysEx7PacketStep(ed, st, SysExStatus.Continue, group, chunk, dec);
    SysEx7PacketFields(SysExStatus.Continue, group, chunk);
    FieldRoundTrips(Data64Bit, SysExStatus.Continue, UtilityStatus.NoOp);
  }

  /** The first of several Continue packets, then the others. */
  lemma SysEx7ContinuesCons(ed: Edition, st: Buffers, group: UInt4, chunks: seq<seq<UInt8>>, dec: Decoders)
    requires SmallChunks(chunks, 6) && |chunks| > 0 && |st.sysEx7| > 0
    ensures ParseAll(ed, st, SysEx7Continues(group, chunks), dec)
            == ParseAll(ed, st.(sysEx7 := st.sysEx7 + chunks[0]), SysEx7Continues(group, chunks[1..]), dec)
  {
    var packets := SysEx7Continues(group, chunks);
    SysEx7ContinueStep(ed, st, group, chunks[0], dec);
    assert packets[1..] == SysEx7Continues(group, chunks[1..]);
    var later := ParseAll(ed, st.(sysEx7 := st.sysEx7 + chunks[0]), packets[1..], dec);
    assert [] + later.events == later.events;
  }

  /** Continue packets append their chunks to a non-empty SysEx7 buffer and yield nothing. */
  lemma {:induction false} SysEx7ContinuesAppend(ed: Edition, st: Buffers, group: UInt4,
                                                 chunks: seq<seq<UInt8>>, dec: Decoders)
    requires SmallChunks(chunks, 6) && |st.sysEx7| > 0
    decreases |chunks|
    ensures ParseAll(ed, st, SysEx7Continues(group, chunks), dec)
            == Parsed(st.(sysEx7 := st.sysEx7 + Concat(chunks)), [])
  {
    if |chunks| == 0 {
      assert st.sysEx7 + [] == st.sysEx7;
    } else {
      var st1 := st.(sysEx7 := st.sysEx7 + chunks[0]);
      assert st1.sysEx7 + Concat(chunks[1..]) == st.sysEx7 + Concat(chunks);
      SysEx7ContinuesCons(ed, st, group, chunks, dec);
      SysEx7ContinuesAppend(ed, st1, group, chunks[1..], dec);
    }
  }

  /** A Start packet puts its chunk in the SysEx7 buffer, whatever was there, and yields nothing. */
  lemma SysEx7StartStep(ed: Edition, st: Buffers, group: UInt4, chunk: seq<UInt8>, dec: Decoders)
    requires |chunk| <= 6
    ensures Parse(ed, st, SysEx7Packet(SysExStatus.Start, group, chunk), dec) == Parsed(st.(sysEx7 := chunk), [])
  {
    SysEx7PacketStep(ed, st, SysExStatus.Start, group, chunk, dec);
    SysEx7PacketFields(SysExStatus.Start, group, chunk);
    FieldRoundTrips(Data64Bit, SysExStatus.Start, UtilityStatus.NoOp);
  }

  /**
   * An End packet on a non-empty SysEx7 buffer yields the decoder's reading
   * of the buffer and its chunk between 0xF0 and 0xF7, and empties the buffer;
   * on an empty buffer it is ignored.
   */
  lemma SysEx7EndStep(ed: Edition, st: Buffers, group: UInt4, chunk: seq<UInt8>, dec: Decoders)
    requires |chunk| <= 6
    ensures var r := Parse(ed, st, SysEx7Packet(End, group, chunk), dec);
      && (|st.sysEx7| == 0 ==> r == Parsed(st, []))
      && (|st.sysEx7| > 0 ==>
            r == Parsed(st.(sysEx7 := []), OptionSeq(dec.sysEx7([0xF0] + (st.sysEx7 + chunk) + [0xF7], group))))
  {
    SysEx7PacketStep(ed, st, End, group, chunk, dec);
    SysEx7PacketFields(End, group, chunk);
    FieldRoundTrips(Data64Bit, End, UtilityStatus.NoOp);
  }

  /**
   * A SysEx7 message sent as Start, any number of Continue packets and End
   * is emitted once, at End, as the decoder's reading of all payload bytes
   * in order between 0xF0 and 0xF7; the buffer is left empty.  The Start
   * packet must carry at least one byte (an empty Start leaves the buffer
   * empty, so the rest is ignored; see `EmptyStartDropsMessage`).
   */
  lemma SysEx7MultiPart(ed: Edition, st: Buffers, group: UInt4, first: seq<UInt8>,
                        middle: seq<seq<UInt8>>, last: seq<UInt8>, dec: Decoders)
    requires 1 <= |first| <= 6 && |last| <= 6 && SmallChunks(middle, 6)
    ensures var packets := [SysEx7Packet(SysExStatus.Start, group, first)] + SysEx7Continues(group, middle)
                           + [SysEx7Packet(End, group, last)];
      var message := [0xF0] + (first + Concat(middle) + last) + [0xF7];
      ParseAll(ed, st, packets, dec) == Parsed(st.(sysEx7 := []), OptionSeq(dec.sysEx7(message, group)))
  {
    var step := Stepper(ed, dec);
    var start := [SysEx7Packet(SysExStatus.Start, group, first)];
    var mids := SysEx7Continues(group, middle);
    var end := [SysEx7Packet(End, group, last)];
    // Start
    SysEx7StartStep(ed, st, group, first, dec);
    var st1 := st.(sysEx7 := first);
    RunOne(step, st, start[0]);
    assert Run(step, st, start) == Parsed(st1, []);
    // Continue ...
    SysEx7ContinuesAppend(ed, st1, group, middle, dec);
    var st2 := st1.(sysEx7 := first + Concat(middle));
    RunAppend(step, st, start, mids);
    assert Run(step, st, start + mids) == Parsed(st2, []);
    // End
    SysEx7EndStep(ed, st2, group, last, dec);
    var message := [0xF0] + (first + Concat(middle) + last) + [0xF7];
    var events := OptionSeq(dec.sysEx7(message, group));
    RunOne(step, st2, end[0]);
    assert Run(step, st2, end) == Parsed(st.(sysEx7 := []), events);
    RunAppend(step, st, start + mids, end);
    assert [] + events == events;
  }

  /** A complete SysEx7 UMP is emitted at once, between 0xF0 and 0xF7, and leaves the buffers alone. */
  lemma SysEx7Complete(ed: Edition, st: Buffers, group: UInt4, chunk: seq<UInt8>, dec: Decoders)
    requires |chunk| <= 6
    ensures Parse(ed, st, SysEx7Packet(Complete, group, chunk), dec)
            == Parsed(st, OptionSeq(dec.sysEx7([0xF0] + chunk + [0xF7], group)))
  {
    var bytes := SysEx7Packet(Complete, group, chunk);
    SysEx7PacketStep(ed, st, Complete, group, chunk, dec);
    SysEx7PacketFields(Complete, group, chunk);
    FieldRoundTrips(Data64Bit, Complete, UtilityStatus.NoOp);
    var o := Data64(st.sysEx7, bytes[1..], group, dec.sysEx7);
    assert o == Outcome(st.sysEx7, dec.sysEx7([0xF0] + chunk + [0xF7], group));
    assert st.(sysEx7 := o.state) == st;
  }

  /** A Start packet with no payload bytes leaves the buffer empty, so the End packet after it is ignored. */
  lemma EmptyStartDropsMessage(ed: Edition, st: Buffers, group: UInt4, last: seq<UInt8>, dec: Decoders)
    requires |last| <= 6
    ensures ParseAll(ed, st, [SysEx7Packet(SysExStatus.Start, group, []), SysEx7Packet(End, group, last)], dec)
            == Parsed(st.(sysEx7 := []), [])
  {
    var step := Stepper(ed, dec);
    var none: seq<UInt8> := [];
    var start := [SysEx7Packet(SysExStatus.Start, group, none)];
    var end := [SysEx7Packet(End, group, last)];
    var st1 := st.(sysEx7 := none);
    SysEx7StartStep(ed, st, group, none, dec);
    RunOne(step, st, start[0]);
    SysEx7EndStep(ed, st1, group, last, dec);
    RunOne(step, st1, end[0]);
    RunAppend(step, st, start, end);
    assert start + end == [SysEx7Packet(SysExStatus.Start, group, none), SysEx7Packet(End, group, last)];
  }

  // ---------------------------------------------------------------------
  // SysEx8 in several packets
  // ---------------------------------------------------------------------

  /** A SysEx8 UMP of one stream carrying up to thirteen payload bytes after the stream ID. */
  function SysEx8Packet(status: SysExStatus, group: UInt4, id: UInt8, chunk: seq<UInt8>): (r: seq<UInt8>)
    requires |chunk| <= 13
    ensures |r| == 16
  {
    [Nibbles(0x5, group), Nibbles(SysExStatusRaw(status), 1 + |chunk|), id] + chunk + Zeros(13 - |chunk|)
  }

  function SysEx8Continues(group: UInt4, id: UInt8, chunks: seq<seq<UInt8>>): (r: seq<seq<UInt8>>)
    requires SmallChunks(chunks, 13)
    ensures |r| == |chunks|
  {
    if |chunks| == 0 then []
    else [SysEx8Packet(SysExStatus.Continue, group, id, chunks[0])] + SysEx8Continues(group, id, chunks[1..])
  }

  /** What the SysEx8 sub-parser sees of a SysEx8 UMP. */
  lemma SysEx8PacketFields(status: SysExStatus, group: UInt4, id: UInt8, chunk: seq<UInt8>)
    requires |chunk| <= 13
    ensures var bytes := SysEx8Packet(status, group, id, chunk);
      && High(bytes[0]) == 0x5 && Low(bytes[0]) == group
      && ValidSysEx8(bytes[1..]) && High(bytes[1]) == SysExStatusRaw(status) && Low(bytes[1]) == 1 + |chunk|
      && bytes[1..][1] == id
      && bytes[1..][1..2 + |chunk|] == [id] + chunk
      && bytes[1..][2..2 + |chunk|] == chunk
  {
    var bytes := SysEx8Packet(status, group, id, chunk);
    var payload := [id] + chunk;
    var body := [Nibbles(SysExStatusRaw(status), 1 + |chunk|)] + payload + Zeros(13 - |chunk|);
    assert bytes == [Nibbles(0x5, group)] + body;
    assert bytes[1..] == body;
    assert body[1..2 + |chunk|] == payload;
    assert payload[1..] == chunk;
  }

  /** A data-128 UMP goes to the SysEx8 step, with the group of its first byte. */
  lemma Data128Packet(ed: Edition, st: Buffers, bytes: seq<UInt8>, dec: Decoders)
    requires |bytes| == 16 && High(bytes[0]) == 0x5
    ensures var o := Data128(st.sysEx8, bytes[1..], Low(bytes[0]), dec.sysEx8);
      Parse(ed, st, bytes, dec) == Parsed(st.(sysEx8 := o.state), OptionSeq(o.event))
  {
    assert MessageTypeFromRaw(High(bytes[0])) == Some(Data128Bit);
  }

  /** One SysEx8 UMP through the packet parser: the SysEx8 step on the buffers. */
  lemma SysEx8PacketStep(ed: Edition, st: Buffers, status: SysExStatus, group: UInt4, id: UInt8,
                         chunk: seq<UInt8>, dec: Decoders)
    requires |chunk| <= 13
    ensures var bytes := SysEx8Packet(status, group, id, chunk);
      var o := Data128(st.sysEx8, bytes[1..], group, dec.sysEx8);
      Parse(ed, st, bytes, dec) == Parsed(st.(sysEx8 := o.state), OptionSeq(o.event))
  {
    SysEx8PacketFields(status, group, id, chunk);
    Data128Packet(ed, st, SysEx8Packet(status, group, id, chunk), dec);
  }

  /** A Continue packet of a stream appends its chunk to that stream's non-empty buffer and yields nothing. */
  lemma SysEx8ContinueStep(ed: Edition, st: Buffers, group: UInt4, id: UInt8, chunk: seq<UInt8>, dec: Decoders)
    requires |chunk| <= 13 && id in st.sysEx8 && |st.sysEx8[id]| > 0
    ensures Parse(ed, st, SysEx8Packet(SysExStatus.Continue, group, id, chunk), dec)
            == Parsed(st.(sysEx8 := st.sysEx8[id := st.sysEx8[id] + chunk]), [])
  {
    SysEx8PacketStep(ed, st, SysExStatus.Continue, group, id, chunk, dec);
    SysEx8PacketFields(SysExStatus.Continue, group, id, chunk);
    FieldRoundTrips(Data128Bit, SysExStatus.Continue, UtilityStatus.NoOp);
  }

  /** The first of several Continue packets of a stream, then the others. */
  lemma SysEx8ContinuesCons(ed: Edition, st: Buffers, group: UInt4, id: UInt8, chunks: seq<seq<UInt8>>,
                            dec: Decoders)
    requires SmallChunks(chunks, 13) && |chunks| > 0 && id in st.sysEx8 && |st.sysEx8[id]| > 0
    ensures ParseAll(ed, st, SysEx8Continues(group, id, chunks), dec)
            == ParseAll(ed, st.(sysEx8 := st.sysEx8[id := st.sysEx8[id] + chunks[0]]),
                        SysEx8Continues(group, id, chunks[1..]), dec)
  {
    var packets := SysEx8Continues(group, id, chunks);
    SysEx8ContinueStep(ed, st, group, id, chunks[0], dec);
    assert packets[1..] == SysEx8Continues(group, id, chunks[1..]);
    var later := ParseAll(ed, st.(sysEx8 := st.sysEx8[id := st.sysEx8[id] + chunks[0]]), packets[1..], dec);
    assert [] + later.events == later.events;
  }

  /** Continue packets of one stream append to that stream's non-empty buffer and yield nothing. */
  lemma {:induction false} SysEx8ContinuesAppend(ed: Edition, st: Buffers, group: UInt4, id: UInt8,
                                                 chunks: seq<seq<UInt8>>, dec: Decoders)
    requires SmallChunks(chunks, 13) && id in st.sysEx8 && |st.sysEx8[id]| > 0
    decreases |chunks|
    ensures ParseAll(ed, st, SysEx8Continues(group, id, chunks), dec)
            == Parsed(st.(sysEx8 := st.sysEx8[id := st.sysEx8[id] + Concat(chunks)]), [])
  {
    if |chunks| == 0 {
      assert st.sysEx8[id] + [] == st.sysEx8[id];
      assert st.sysEx8[id := st.sysEx8[id]] == st.sysEx8;
    } else {
      var st1 := st.(sysEx8 := st.sysEx8[id := st.sysEx8[id] + chunks[0]]);
      assert st1.(sysEx8 := st1.sysEx8[id := st1.sysEx8[id] + Concat(chunks[1..])])
             == st.(sysEx8 := st.sysEx8[id := st.sysEx8[id] + Concat(chunks)]) by {
        assert st1.sysEx8[id] + Concat(chunks[1..]) == st.sysEx8[id] + Concat(chunks);
      }
      SysEx8ContinuesCons(ed, st, group, id, chunks, dec);
      SysEx8ContinuesAppend(ed, st1, group, id, chunks[1..], dec);
    }
  }

  /** A Start packet sets its stream's buffer to the stream ID and its chunk, and yields nothing. */
  lemma SysEx8StartStep(ed: Edition, st: Buffers, group: UInt4, id: UInt8, chunk: seq<UInt8>, dec: Decoders)
    requires |chunk| <= 13
    ensures Parse(ed, st, SysEx8Packet(SysExStatus.Start, group, id, chunk), dec)
            == Parsed(st.(sysEx8 := st.sysEx8[id := [id] + chunk]), [])
  {
    SysEx8PacketStep(ed, st, SysExStatus.Start, group, id, chunk, dec);
    SysEx8PacketFields(SysExStatus.Start, group, id, chunk);
    FieldRoundTrips(Data128Bit, SysExStatus.Start, UtilityStatus.NoOp);
  }

  /**
   * An End packet of a stream with a non-empty buffer yields the decoder's
   * reading of the buffer and its chunk, and removes the stream's buffer.
   */
  lemma SysEx8EndStep(ed: Edition, st: Buffers, group: UInt4, id: UInt8, chunk: seq<UInt8>, dec: Decoders)
    requires |chunk| <= 13 && id in st.sysEx8 && |st.sysEx8[id]| > 0
    ensures Parse(ed, st, SysEx8Packet(End, group, id, chunk), dec)
            == Parsed(st.(sysEx8 := st.sysEx8 - {id}), OptionSeq(dec.sysEx8(st.sysEx8[id] + chunk, group)))
  {
    SysEx8PacketStep(ed, st, End, group, id, chunk, dec);
    SysEx8PacketFields(End, group, id, chunk);
    FieldRoundTrips(Data128Bit, End, UtilityStatus.NoOp);
  }

  /**
   * A SysEx8 message of one stream sent as Start, Continue packets and End
   * is emitted once, at End, as the decoder's reading of the stream ID and
   * all payload bytes in order; the stream's buffer is removed and every
   * other stream's buffer is left as it was.
   */
  lemma SysEx8MultiPart(ed: Edition, st: Buffers, group: UInt4, id: UInt8, first: seq<UInt8>,
                        middle: seq<seq<UInt8>>, last: seq<UInt8>, dec: Decoders)
    requires |first| <= 13 && |last| <= 13 && SmallChunks(middle, 13)
    ensures var packets := [SysEx8Packet(SysExStatus.Start, group, id, first)] + SysEx8Continues(group, id, middle)
                           + [SysEx8Packet(End, group, id, last)];
      var message := [id] + first + Concat(middle) + last;
      ParseAll(ed, st, packets, dec) == Parsed(st.(sysEx8 := st.sysEx8 - {id}), OptionSeq(dec.sysEx8(message, group)))
  {
    var step := Stepper(ed, dec);
    var start := [SysEx8Packet(SysExStatus.Start, group, id, first)];
    var mids := SysEx8Continues(group, id, middle);
    var end := [SysEx8Packet(End, group, id, last)];
    // Start
    SysEx8StartStep(ed, st, group, id, first, dec);
    var st1 := st.(sysEx8 := st.sysEx8[id := [id] + first]);
    RunOne(step, st, start[0]);
    assert Run(step, st, start) == Parsed(st1, []);
    // Continue ...
    SysEx8ContinuesAppend(ed, st1, group, id, middle, dec);
    var st2 := st1.(sysEx8 := st1.sysEx8[id := [id] + first + Concat(middle)]);
    assert st1.sysEx8[id] + Concat(middle) == [id] + first + Concat(middle);
    RunAppend(step, st, start, mids);
    assert Run(step, st, start + mids) == Parsed(st2, []);
    // End
    SysEx8EndStep(ed, st2, group, id, last, dec);
    var message := [id] + first + Concat(middle) + last;
    var events := OptionSeq(dec.sysEx8(message, group));
    assert st2.sysEx8 - {id} == st.sysEx8 - {id};
    assert st2.sysEx8[id] + last == message;
    RunOne(step, st2, end[0]);
    assert Run(step, st2, end) == Parsed(st.(sysEx8 := st.sysEx8 - {id}), events);
    RunAppend(step, st, start + mids, end);
    assert [] + events == events;
  }

  /** A Continue or End packet of a stream with no buffer is ignored. */
  lemma SysEx8UnknownStreamIgnored(ed: Edition, st: Buffers, status: SysExStatus, group: UInt4, id: UInt8,
                                   chunk: seq<UInt8>, dec: Decoders)
    requires status == SysExStatus.Continue || status == End
    requires |chunk| <= 13 && id !in st.sysEx8
    ensures Parse(ed, st, SysEx8Packet(status, group, id, chunk), dec) == Parsed(st, [])
  {
    SysEx8PacketStep(ed, st, status, group, id, chunk, dec);
    SysEx8PacketFields(status, group, id, chunk);
    FieldRoundTrips(Data128Bit, status, UtilityStatus.NoOp);
  }

  /** Data-128 packets with a mixed-data-set status (0x8, 0x9) give nothing and keep the buffers. */
  lemma MixedDataSetIgnored(ed: Edition, st: Buffers, bytes: seq<UInt8>, dec: Decoders)
    requires |bytes| == 16 && High(bytes[0]) == 0x5
    requires MixedDataSetStatusFromRaw(High(bytes[1])).Some?
    ensures Parse(ed, st, bytes, dec) == Parsed(st, [])
  {
    assert bytes[1..][0] == bytes[1];
  }
}
