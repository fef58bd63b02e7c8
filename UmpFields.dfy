/**
 * The fields of a Universal MIDI Packet (UMP) that the MIDI 2.0 parsers
 * read: the two nibbles of a byte, the message-type, SysEx-status,
 * mixed-data-set-status and utility-status fields, and the integers built
 * from several bytes of a packet.
 *
 * The raw values of the field enums are those of the UMP format (M2-104-UM,
 * "Universal MIDI Packet (UMP) Format and MIDI 2.0 Protocol"): message types
 * 0x0 ... 0x5, SysEx status 0x0 ... 0x3, mixed-data-set status 0x8 and 0x9,
 * utility status 0x0 ... 0x2.
 */
module UmpFields {
  import opened Wrappers
  import opened MidiTypes
  import MidiUnsignedInteger

  type UInt16 = x: int | 0 <= x < 0x1_0000
  type UInt32 = x: int | 0 <= x < 0x1_0000_0000

  // ---------------------------------------------------------------------
  // Nibbles
  // ---------------------------------------------------------------------

  /** `byte.nibbles.high`. */
  function High(b: UInt8): (r: UInt4)
    ensures r * 16 <= b < r * 16 + 16
  {
    b / 16
  }

  /** `byte.nibbles.low`. */
  function Low(b: UInt8): (r: UInt4)
    ensures (b - r) % 16 == 0
  {
    b % 16
  }

  /** The byte with the given nibbles. */
  function Nibbles(high: UInt4, low: UInt4): (r: UInt8)
    ensures High(r) == high && Low(r) == low
  {
    high * 16 + low
  }

  /** A byte is given back by its two nibbles. */
  lemma NibblesOfByte(b: UInt8)
    ensures Nibbles(High(b), Low(b)) == b
  {
  }

  // ---------------------------------------------------------------------
  // Field enums
  // ---------------------------------------------------------------------

  /** `MIDIUMPMessageType` (`UniversalPacketData.MessageType` in the older namespaces). */
  datatype MessageType =
    | Utility
    | SystemRealTimeAndCommon
    | Midi1ChannelVoice
    | Data64Bit
    | Midi2ChannelVoice
    | Data128Bit

  function MessageTypeRaw(t: MessageType): (r: UInt4)
    ensures r <= 5
  {
    match t
    case Utility => 0x0
    case SystemRealTimeAndCommon => 0x1
    case Midi1ChannelVoice => 0x2
    case Data64Bit => 0x3
    case Midi2ChannelVoice => 0x4
    case Data128Bit => 0x5
  }

  /** `MessageType(rawValue:)`: no value for a nibble above 0x5. */
  function MessageTypeFromRaw(n: UInt4): (r: Option<MessageType>)
    ensures r.Some? <==> n <= 5
    ensures r.Some? ==> MessageTypeRaw(r.value) == n
  {
    if n == 0x0 then Some(Utility)
    else if n == 0x1 then Some(SystemRealTimeAndCommon)
    else if n == 0x2 then Some(Midi1ChannelVoice)
    else if n == 0x3 then Some(Data64Bit)
    else if n == 0x4 then Some(Midi2ChannelVoice)
    else if n == 0x5 then Some(Data128Bit)
    else None
  }

  /** `MIDIUMPSysExStatusField`, shared by SysEx7 and SysEx8 packets. */
  datatype SysExStatus = Complete | Start | Continue | End

  function SysExStatusRaw(s: SysExStatus): (r: UInt4)
    ensures r <= 3
  {
    match s
    case Complete => 0x0
    case Start => 0x1
    case Continue => 0x2
    case End => 0x3
  }

  /** `MIDIUMPSysExStatusField(rawValue:)`: no value for a nibble above 0x3. */
  function SysExStatusFromRaw(n: UInt4): (r: Option<SysExStatus>)
    ensures r.Some? <==> n <= 3
    ensures r.Some? ==> SysExStatusRaw(r.value) == n
  {
    if n == 0x0 then Some(Complete)
    else if n == 0x1 then Some(Start)
    else if n == 0x2 then Some(Continue)
    else if n == 0x3 then Some(End)
    else None
  }

  /** `MIDIUMPMixedDataSetStatusField`. */
  datatype MixedDataSetStatus = Header | Payload

  /** `MIDIUMPMixedDataSetStatusField(rawValue:)`. */
  function MixedDataSetStatusFromRaw(n: UInt4): (r: Option<MixedDataSetStatus>)
    ensures r.Some? <==> n == 0x8 || n == 0x9
    ensures r.Some? ==> SysExStatusFromRaw(n).None?
  {
    if n == 0x8 then Some(Header)
    else if n == 0x9 then Some(Payload)
    else None
  }

  /** `MIDIUMPUtilityStatusField`. */
  datatype UtilityStatus = NoOp | JrClock | JrTimestamp

  function UtilityStatusRaw(s: UtilityStatus): (r: UInt4)
    ensures r <= 2
  {
    match s
    case NoOp => 0x0
    case JrClock => 0x1
    case JrTimestamp => 0x2
  }

  /** `MIDIUMPUtilityStatusField(rawValue:)`: no value for a nibble above 0x2. */
  function UtilityStatusFromRaw(n: UInt4): (r: Option<UtilityStatus>)
    ensures r.Some? <==> n <= 2
    ensures r.Some? ==> UtilityStatusRaw(r.value) == n
  {
    if n == 0x0 then Some(NoOp)
    else if n == 0x1 then Some(JrClock)
    else if n == 0x2 then Some(JrTimestamp)
    else None
  }

  /** Every field enum value is read back from its raw nibble. */
  lemma FieldRoundTrips(t: MessageType, s: SysExStatus, u: UtilityStatus)
    ensures MessageTypeFromRaw(MessageTypeRaw(t)) == Some(t)
    ensures SysExStatusFromRaw(SysExStatusRaw(s)) == Some(s)
    ensures UtilityStatusFromRaw(UtilityStatusRaw(u)) == Some(u)
  {
  }

  // ---------------------------------------------------------------------
  // Integers built from bytes
  // ---------------------------------------------------------------------

  /** `byte.toUInt7Exactly` (`toMIDIUInt7Exactly`): the byte itself when it fits seven bits. */
  function UInt7Exactly(b: UInt8): (r: Option<UInt7>)
    ensures r.Some? <==> b < 0x80
    ensures r.Some? ==> r.value == b
  {
    if b < 0x80 then Some(b) else None
  }

  /** `UInt14(uInt7Pair:)`: the most significant seven bits, then the least. */
  function Join14(msb: UInt7, lsb: UInt7): (v: UInt14)
    ensures v / 0x80 == msb && v % 0x80 == lsb
  {
    msb * 0x80 + lsb
  }

  /** `UInt14.midiUInt7Pair`: the two seven-bit halves. */
  function Split14(v: UInt14): (r: (UInt7, UInt7))
    ensures r.0 * 0x80 + r.1 == v
  {
    (v / 0x80, v % 0x80)
  }

  lemma Join14Split(msb: UInt7, lsb: UInt7)
    ensures Split14(Join14(msb, lsb)) == (msb, lsb)
  {
  }

  lemma Split14Join(v: UInt14)
    ensures Join14(Split14(v).0, Split14(v).1) == v
  {
  }

  /** The parser's 14-bit join and split are `UInt14`'s own `init(uInt7Pair:)` and `midiUInt7Pair`. */
  lemma Join14IsUInt7Pair(msb: UInt7, lsb: UInt7, v: UInt14)
    ensures MidiUnsignedInteger.InRange(MidiUnsignedInteger.UInt7Width, msb)
    ensures MidiUnsignedInteger.InRange(MidiUnsignedInteger.UInt7Width, lsb)
    ensures MidiUnsignedInteger.InRange(MidiUnsignedInteger.UInt14Width, v)
    ensures Join14(msb, lsb) == MidiUnsignedInteger.UInt14FromUInt7Pair(msb, lsb)
    ensures Split14(v) == MidiUnsignedInteger.UInt14UInt7Pair(v)
  {
    MidiUnsignedInteger.WidthConstants();
  }

  /** `UInt16(bytePair:)` and `(UInt16(a) << 8) + UInt16(b)`: big-endian. */
  function Word16(msb: UInt8, lsb: UInt8): (w: UInt16)
    ensures w / 0x100 == msb && w % 0x100 == lsb
  {
    msb * 0x100 + lsb
  }

  function Split16(v: UInt16): (r: (UInt8, UInt8))
    ensures r.0 * 0x100 + r.1 == v
  {
    (v / 0x100, v % 0x100)
  }

  lemma Word16Split(msb: UInt8, lsb: UInt8)
    ensures Split16(Word16(msb, lsb)) == (msb, lsb)
  {
  }

  lemma Split16Word(v: UInt16)
    ensures Word16(Split16(v).0, Split16(v).1) == v
  {
  }

  /** The zero bytes that fill a packet after its payload. */
  function Zeros(n: nat): (r: seq<UInt8>)
    ensures |r| == n && forall i :: 0 <= i < n ==> r[i] == 0
  {
    if n == 0 then [] else [0] + Zeros(n - 1)
  }

  /** `UMPWord(_:_:_:_:)`: four bytes, most significant first. */
  function Word32(b0: UInt8, b1: UInt8, b2: UInt8, b3: UInt8): (r: UInt32)
    ensures r / 0x1_0000 == Word16(b0, b1) && r % 0x1_0000 == Word16(b2, b3)
  {
    Word16(b0, b1) * 0x1_0000 + Word16(b2, b3)
  }

  /** The four bytes of a word, most significant first. */
  function Split32(w: UInt32): (r: seq<UInt8>)
    ensures |r| == 4
  {
    var hi := Split16(w / 0x1_0000);
    var lo := Split16(w % 0x1_0000);
    [hi.0, hi.1, lo.0, lo.1]
  }

  lemma Word32Split(b0: UInt8, b1: UInt8, b2: UInt8, b3: UInt8)
    ensures Split32(Word32(b0, b1, b2, b3)) == [b0, b1, b2, b3]
  {
    var hi := Word16(b0, b1);
    var lo := Word16(b2, b3);
    assert Word32(b0, b1, b2, b3) / 0x1_0000 == hi;
    assert Word32(b0, b1, b2, b3) % 0x1_0000 == lo;
    Word16Split(b0, b1);
    Word16Split(b2, b3);
  }

  lemma Split32Word(w: UInt32)
    ensures var s := Split32(w); Word32(s[0], s[1], s[2], s[3]) == w
  {
    var s := Split32(w);
    Split16Word(w / 0x1_0000);
    Split16Word(w % 0x1_0000);
    assert Word16(s[0], s[1]) == w / 0x1_0000;
    assert Word16(s[2], s[3]) == w % 0x1_0000;
  }
}
