/**
 * What the three HUI decoders share: the MIDI events they receive, the
 * protocol constants they compare against, the delta encoding of V-Pot and
 * jog-wheel turns, and the events the two parsers emit.
 */
module HuiWire {
  import opened Wrappers
  import opened MidiTypes
  import opened HuiLookups
  import opened Bits
  import HuiTables

  /**
   * The MIDI events a decoder receives.  Velocities and values are their
   * MIDI 1.0 7-bit form, except the note-off velocity, which the decoders
   * compare in its MIDI 2.0 16-bit form.
   */
  datatype MidiEvent =
    | NoteOn(channel: UInt4, note: UInt7, velocity: UInt7)
    | NoteOff(channel: UInt4, note: UInt7, velocity16: nat)
    | CC(channel: UInt4, controller: UInt7, value: UInt7)
    | NotePressure(channel: UInt4, note: UInt7, amount: UInt7)
    | SysEx7(manufacturer: seq<UInt8>, data: seq<UInt8>)
    | SystemReset
    | OtherEvent

  /** `midi1RawBytes()` of the events the parsers inspect byte by byte. */
  function Midi1RawBytes(e: MidiEvent): (bytes: seq<UInt8>)
    ensures e.CC? ==> bytes == [0xB0 + e.channel, e.controller, e.value]
    ensures e.NotePressure? ==> bytes == [0xA0 + e.channel, e.note, e.amount]
  {
    match e
    case CC(ch, c, v) => [0xB0 + ch, c, v]
    case NotePressure(ch, n, a) => [0xA0 + ch, n, a]
    case NoteOn(ch, n, v) => [0x90 + ch, n, v]
    case _ => []
  }

  /**
   * The constants of the control-surfaces library's `HUIConstants`, which is
   * not part of this model, as a parameter: the SysEx manufacturer and
   * sub-IDs, the control data bytes of the two switch messages in each
   * direction, the ping events, the number of V-Pot ids and the number of
   * character codes each display knows, and the surface layout the switch
   * lookup uses.
   */
  datatype HuiConstants = HuiConstants(
    manufacturer: seq<UInt8>,
    subId1: UInt8,
    subId2: UInt8,
    zoneSelectByte: UInt8,
    portOnOffByte: UInt8,
    zoneSelectByteToHost: UInt8,
    zoneSelectByteToSurface: UInt8,
    portOnOffByteToHost: UInt8,
    portOnOffByteToSurface: UInt8,
    pingReplyToHostMessage: MidiEvent,
    pingToSurfaceMessage: MidiEvent,
    vPotCount: nat,
    smallCharCount: nat,
    largeCharCount: nat,
    timeCharCount: nat,
    layout: Layout)

  /** `HUIRole`: which end of the connection the decoder sits at. */
  datatype HuiRole = Host | Surface

  /** `StereoLevelMeter.Side`. */
  datatype Side = Left | Right

  // ---------------------------------------------------------------------
  // V-Pot and jog-wheel deltas
  // ---------------------------------------------------------------------

  /** `decodeHUIDelta(from:)`: bit 6 clear is a turn to the left by the low six bits, bit 6 set a turn to the right. */
  function DecodeDelta(b: UInt7): (delta: int)
    ensures -63 <= delta <= 63
    ensures delta < 0 ==> b < 64
    ensures delta > 0 ==> b >= 64
    ensures (if b < 64 then -delta else delta) == b % 64
  {
    if b / 64 == 0 then -(b % 64) else b % 64
  }

  /** `encodeHUIDelta(from:)`: a negative delta is its magnitude, a non-negative one has bit 6 set; magnitudes keep six bits. */
  function EncodeDelta(delta: int): (b: UInt7)
    requires -64 <= delta <= 63
    ensures b % 64 == (if delta < 0 then -delta else delta) % 64
    ensures b >= 64 <==> delta >= 0
  {
    if delta < 0 then (-delta) % 64 else delta % 64 + 64
  }

  /** Every delta in -63 ... 63 survives encoding and decoding; -64 loses its magnitude bit and reads back as 0. */
  lemma DeltaRoundTrip(delta: int)
    requires -64 <= delta <= 63
    ensures -63 <= delta ==> DecodeDelta(EncodeDelta(delta)) == delta
    ensures delta == -64 ==> DecodeDelta(EncodeDelta(delta)) == 0
  {
  }

  /** Every byte except 0 is re-encoded as itself; 0 (a turn of "minus zero") is re-encoded as 64. */
  lemma DeltaByteRoundTrip(b: UInt7)
    ensures b != 0 ==> EncodeDelta(DecodeDelta(b)) == b
    ensures EncodeDelta(DecodeDelta(0)) == 64
  {
  }

  // ---------------------------------------------------------------------
  // Events of the two parsers (`HUIParser` and the legacy `Parser`)
  // ---------------------------------------------------------------------

  /** The events `HUIParser` and the legacy `Parser` hand to their handler. */
  datatype ParserEvent =
    | PingReceived
    | ChannelText(channel: nat, text: string)
    | SelectAssignText(text: string)
    | LargeDisplayText(components: seq<string>)
    | TimeDisplayText(components: seq<string>)
    | FaderLevel(channel: nat, level: nat)
    | VPot(number: nat, value: nat)
    | Switch(zone: UInt8, port: UInt4, state: bool)
    | LevelMeters(channel: nat, side: Side, level: nat)

  /** A Swift runtime trap (an index out of range, an invalid range), which ends the program. */
  datatype Trap = IndexOutOfRange | InvalidRange

  /** `for c in codes { s += table[c] }`: the concatenated strings, or a trap on a code past the table. */
  function Render(table: seq<string>, codes: seq<UInt8>): (r: Option<string>)
    ensures r.Some? <==> forall i :: 0 <= i < |codes| ==> codes[i] < |table|
  {
    if codes == [] then Some("")
    else
      match Render(table, codes[..|codes| - 1])
      case None => None
      case Some(s) =>
        if codes[|codes| - 1] < |table| then Some(s + table[codes[|codes| - 1]]) else None
  }

  /** The loop of the parsers that renders display codes through a character table. */
  method RenderCodes(table: seq<string>, codes: seq<UInt8>) returns (r: Option<string>)
    ensures r == Render(table, codes)
  {
    var s := "";
    var i := 0;
    while i < |codes|
      invariant 0 <= i <= |codes|
      invariant Render(table, codes[..i]) == Some(s)
    {
      assert codes[..i + 1][..i] == codes[..i];
      if codes[i] >= |table| {
        return None;
      }
      s := s + table[codes[i]];
      i := i + 1;
    }
    assert codes[..i] == codes;
    return Some(s);
  }

  // ---------------------------------------------------------------------
  // Slicing
  // ---------------------------------------------------------------------

  /** `split(every:)`: consecutive slices of `n` bytes (a shorter tail, which the callers rule out, is dropped). */
  function SplitEvery(d: seq<UInt8>, n: nat): (slices: seq<seq<UInt8>>)
    requires n > 0
    ensures forall j :: 0 <= j < |slices| ==> |slices[j]| == n
    decreases |d|
  {
    if |d| < n then [] else [d[..n]] + SplitEvery(d[n..], n)
  }

  function Flatten(slices: seq<seq<UInt8>>): seq<UInt8>
  {
    if slices == [] then [] else slices[0] + Flatten(slices[1..])
  }

  lemma ModStep(a: int, n: int)
    requires n > 0 && a >= n && a % n == 0
    ensures (a - n) % n == 0
  {
    var q := a / n;
    assert a == q * n;
    MulDistribute(q, -1, n);
    DivModUnique(a - n, n, q - 1, 0);
  }

  /** Splitting a payload whose length is a multiple of `n` loses nothing: the slices put back together are the payload, and there are |d| / n of them. */
  lemma {:induction false} SplitEveryFlattens(d: seq<UInt8>, n: nat)
    requires n > 0 && |d| % n == 0
    ensures Flatten(SplitEvery(d, n)) == d
    ensures |SplitEvery(d, n)| * n == |d|
    decreases |d|
  {
    if |d| < n {
      ModOfSmall(|d|, n);
    } else {
      ModStep(|d|, n);
      SplitEveryFlattens(d[n..], n);
      assert d[..n] + d[n..] == d;
    }
  }

  // ---------------------------------------------------------------------
  // Encoders (the partners of the decoders)
  // ---------------------------------------------------------------------

  /** `encodeHUIFader(level:channel:)`: the two control changes of a fader move, MSB then LSB. */
  function EncodeFader(level: UInt14, channel: UInt4): (events: seq<MidiEvent>)
    ensures |events| == 2 && events[0].CC? && events[1].CC?
  {
    [CC(0, channel, level / 128), CC(0, 0x20 + channel, level % 128)]
  }

  /** `encodeHUISwitch(zone:port:state:to:)`: zone select, then the port with bit 6 set for "on". */
  function EncodeSwitch(zone: UInt7, port: UInt4, state: bool, role: HuiRole, k: HuiConstants): (events: seq<MidiEvent>)
    requires k.zoneSelectByteToHost < 128 && k.zoneSelectByteToSurface < 128
    requires k.portOnOffByteToHost < 128 && k.portOnOffByteToSurface < 128
    ensures |events| == 2 && events[0].CC? && events[1].CC?
  {
    var zoneByte := if role == Host then k.zoneSelectByteToHost else k.zoneSelectByteToSurface;
    var portByte := if role == Host then k.portOnOffByteToHost else k.portOnOffByteToSurface;
    [CC(0, zoneByte, zone), CC(0, portByte, if state then port + 0x40 else port)]
  }

  /** `huiSysExTemplate(body:)`: the HUI SysEx message carrying `body` after the manufacturer and the two sub-IDs. */
  function HuiSysEx(body: seq<UInt8>, k: HuiConstants): (e: MidiEvent)
    ensures e.SysEx7? && e.manufacturer == k.manufacturer
    ensures |e.data| == 2 + |body| && e.data[..2] == [k.subId1, k.subId2] && e.data[2..] == body
  {
    SysEx7(k.manufacturer, [k.subId1, k.subId2] + body)
  }

  /** `encodeHUISmallDisplay(for:text:)`: the display (0-7 a channel strip, 8 select-assign) and its four character codes. */
  function EncodeSmallDisplay(display: UInt4, codes: seq<UInt7>, k: HuiConstants): (e: MidiEvent)
    ensures e.SysEx7? && e.manufacturer == k.manufacturer && |e.data| == 4 + |codes|
    ensures e.data[2] == HuiTables.SmallDisplayByte && e.data[3] == display && e.data[4..] == codes
  {
    HuiSysEx([HuiTables.SmallDisplayByte, display] + codes, k)
  }

  /** `encodeHUILargeDisplay(sliceIndex:text:)`: one slice index and its character codes. */
  function EncodeLargeDisplaySlice(sliceIndex: UInt4, codes: seq<UInt7>, k: HuiConstants): (e: MidiEvent)
    ensures e.SysEx7? && e.manufacturer == k.manufacturer && |e.data| == 4 + |codes|
    ensures e.data[2] == HuiTables.LargeDisplayByte && e.data[3] == sliceIndex && e.data[4..] == codes
  {
    HuiSysEx([HuiTables.LargeDisplayByte, sliceIndex] + codes, k)
  }

  /** `encodeHUITimeDisplay(charsRightToLeft:)`: at most eight codes, rightmost digit first. */
  function EncodeTimeDisplay(charsRightToLeft: seq<UInt7>, k: HuiConstants): (e: MidiEvent)
    ensures e.SysEx7? && e.manufacturer == k.manufacturer && |e.data| >= 3 && e.data[2] == HuiTables.TimeDisplayByte
    ensures |charsRightToLeft| <= 8 ==> e.data[3..] == charsRightToLeft
    ensures |charsRightToLeft| > 8 ==> e.data[3..] == charsRightToLeft[..8]
  {
    HuiSysEx([HuiTables.TimeDisplayByte] + (if |charsRightToLeft| <= 8 then charsRightToLeft else charsRightToLeft[..8]), k)
  }
}
