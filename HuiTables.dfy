/**
 * The HUI protocol constants and the zone/port layout of the HUI control
 * surface (`MIDI.HUI.kMIDI`, `kCharTables`, `kHUIZoneAndPortPairs` and
 * `ChannelStripElement`).
 *
 * Every switch, LED and internal function of a HUI surface is addressed by a
 * (zone, port) pair.  Zones 0x00-0x07 are the eight channel strips, whose
 * eight ports are the strip elements; zones 0x08-0x1D hold the sections of
 * the surface.  A section element is identified here by its position in the
 * section's list of cases, in the order every `allCases` list of the library
 * uses; element names are not modelled.
 */
module HuiTables {
  import opened Wrappers

  // ---------------------------------------------------------------------
  // kMIDI: message constants
  // ---------------------------------------------------------------------

  const PingFromHostMessage: seq<int> := [0x90, 0x00, 0x00]
  const PingReplyToHostMessage: seq<int> := [0x90, 0x00, 0x7F]
  const SystemResetMessage: seq<int> := [0xFF]
  const SysExHeader: seq<int> := [0xF0, 0x00, 0x00, 0x66, 0x05, 0x00]

  /** `kDisplayType`: the byte after the SysEx header that selects the display. */
  const SmallDisplayByte := 0x10
  const TimeDisplayByte := 0x11
  const LargeDisplayByte := 0x12

  const LevelMetersStatus := 0xA0
  const ControlStatus := 0xB0
  const ZoneSelectByte := 0x0C
  const PortOnOffByte := 0x2C
  const VPotData1UpperNibble := 0x10
  const SysExStartByte := 0xF0
  const SysExEndByte := 0xF7

  /** The host's ping and the surface's reply are the same note message except for the last byte. */
  lemma PingAndReplyDifferInLastByte()
    ensures |PingFromHostMessage| == |PingReplyToHostMessage| == 3
    ensures PingFromHostMessage[..2] == PingReplyToHostMessage[..2]
    ensures PingFromHostMessage[2] != PingReplyToHostMessage[2]
    ensures PingFromHostMessage[0] == 0x90 && PingReplyToHostMessage[2] == 0x7F
  {
  }

  // ---------------------------------------------------------------------
  // kCharTables
  // ---------------------------------------------------------------------

  /** Characters of the time display, codes 0x00-0x30. */
  const TimeDisplayChars: seq<string> := [
    "0", "1", "2", "3", "4", "5", "6", "7",
    "8", "9", "A", "B", "C", "D", "E", "F",
    "0.", "1.", "2.", "3.", "4.", "5.", "6.", "7.",
    "8.", "9.", "A.", "B.", "C.", "D.", "E.", "F.",
    " ",
    "?", "?", "?", "?", "?", "?", "?", "?",
    "?", "?", "?", "?", "?", "?", "?",
    " ."]

  /** Characters of the 40x2 large display, codes 0x00-0x7F. */
  const LargeDisplayChars: seq<string> := [
    "", "", "", "", "", "", "", "", "", "", "", "", "", "", "", "",
    "11", "12", "13", "14", "full", "r4", "r3", "r2",
    "r1", "♪", "°C", "°F", "▼", "▶︎", "◀︎", "▲",
    " ", "!", "\"", "#", "$", "%", "&", "'", "(", ")", "*", "+", ",", "-", ".", "/",
    "0", "1", "2", "3", "4", "5", "6", "7", "8", "9", ":", ";", "<", "=", ">", "?",
    "@", "A", "B", "C", "D", "E", "F", "G", "H", "I", "J", "K", "L", "M", "N", "O",
    "P", "Q", "R", "S", "T", "U", "V", "W", "X", "Y", "Z", "[", "\\", "]", "^", "_",
    "`", "a", "b", "c", "d", "e", "f", "g", "h", "i", "j", "k", "l", "m", "n", "o",
    "p", "q", "r", "s", "t", "u", "v", "w", "x", "y", "z", "{", "|", "}", "→", "←"]

  /** Characters of the four-character channel and select-assign displays, codes 0x00-0x7F. */
  const SmallDisplayChars: seq<string> := [
    "ì", "↑", "→", "↓", "←", "¿", "à", "Ø", "ø", "ò", "ù", "Ň", "Ç", "ê", "É", "é",
    "è", "Æ", "æ", "Å", "å", "Ä", "ä", "Ö", "ö", "Ü", "ü", "°C", "°F", "ß", "£", "¥",
    " ", "!", "\"", "#", "$", "%", "&", "'", "(", ")", "*", "+", ",", "-", ".", "/",
    "0", "1", "2", "3", "4", "5", "6", "7", "8", "9", ":", ";", "<", "=", ">", "?",
    "@", "A", "B", "C", "D", "E", "F", "G", "H", "I", "J", "K", "L", "M", "N", "O",
    "P", "Q", "R", "S", "T", "U", "V", "W", "X", "Y", "Z", "[", "\\", "]", "^", "_",
    "`", "a", "b", "c", "d", "e", "f", "g", "h", "i", "j", "k", "l", "m", "n", "o",
    "p", "q", "r", "s", "t", "u", "v", "w", "x", "y", "z", "{", "|", "}", "~", "░"]

  /** The small and large tables cover every 7-bit code; the time table covers 0x00-0x30. */
  lemma CharTableSizes()
    ensures |SmallDisplayChars| == 128 && |LargeDisplayChars| == 128
    ensures |TimeDisplayChars| == 0x31
  {
  }

  // ---------------------------------------------------------------------
  // Zones, ports and the controls they address
  // ---------------------------------------------------------------------

  datatype ZoneAndPort = ZoneAndPort(zone: int, port: int)

  /** The eight elements of a channel strip, in `ChannelStripElement` order. */
  datatype ChannelElement = Fader | Select | Mute | Solo | Auto | VSel | Insert | RecordReady

  /** `ChannelStripElement.rawValue`: the element's port within its strip's zone. */
  function RawValue(e: ChannelElement): (raw: nat)
    ensures raw < 8
  {
    match e
    case Fader => 0
    case Select => 1
    case Mute => 2
    case Solo => 3
    case Auto => 4
    case VSel => 5
    case Insert => 6
    case RecordReady => 7
  }

  /** `ChannelStripElement(rawValue:)`. */
  function ElementOfRaw(raw: int): (r: Option<ChannelElement>)
    ensures r.Some? <==> 0 <= raw < 8
  {
    if raw == 0 then Some(Fader)
    else if raw == 1 then Some(Select)
    else if raw == 2 then Some(Mute)
    else if raw == 3 then Some(Solo)
    else if raw == 4 then Some(Auto)
    else if raw == 5 then Some(VSel)
    else if raw == 6 then Some(Insert)
    else if raw == 7 then Some(RecordReady)
    else None
  }

  lemma ElementRawRoundTrip(e: ChannelElement, raw: int)
    ensures ElementOfRaw(RawValue(e)) == Some(e)
    ensures ElementOfRaw(raw).Some? ==> RawValue(ElementOfRaw(raw).value) == raw
  {
  }

  /** The sections of the surface outside the channel strips, in `allCases` order. */
  datatype Section =
    | HotKey | Window | BankMove | Assign | Cursor | Transport | ControlRoom | NumPad
    | TimeDisplay | AutoEnable | AutoMode | StatusAndGroup | Edit | FunctionKey
    | ParamEdit | FootswitchesAndSounds

  const Sections: seq<Section> := [
    HotKey, Window, BankMove, Assign, Cursor, Transport, ControlRoom, NumPad,
    TimeDisplay, AutoEnable, AutoMode, StatusAndGroup, Edit, FunctionKey,
    ParamEdit, FootswitchesAndSounds]

  /** The number of elements of each section. */
  function SectionSize(s: Section): nat
  {
    match s
    case HotKey => 8
    case Window => 6
    case BankMove => 4
    case Assign => 15
    case Cursor => 7
    case Transport => 16
    case ControlRoom => 10
    case NumPad => 18
    case TimeDisplay => 4
    case AutoEnable => 6
    case AutoMode => 6
    case StatusAndGroup => 6
    case Edit => 6
    case FunctionKey => 8
    case ParamEdit => 8
    case FootswitchesAndSounds => 4
  }

  /**
   * One HUI control: a channel-strip element, or the element at `index` of a
   * section.  The channel is an unbounded integer because one of the enums
   * (`HUIParameter`) stores it as `Int`.
   */
  datatype Control = Strip(channel: int, element: ChannelElement) | Key(section: Section, index: nat)

  /** The controls that exist on the surface. */
  predicate IsControl(c: Control)
  {
    match c
    case Strip(ch, _) => 0 <= ch < 8
    case Key(s, i) => i < SectionSize(s)
  }

  /** The strip controls in `allCases` order: strips 0-7, each with its elements in raw-value order. */
  function StripControls(): seq<Control>
  {
    seq(64, k => Strip(k / 8, ElementOfRaw(k % 8).value))
  }

  /** The elements of one section, in order. */
  function SectionKeys(s: Section): seq<Control>
  {
    seq(SectionSize(s), i requires 0 <= i => Key(s, i))
  }

  /** The section controls in `allCases` order. */
  function SectionControls(): seq<Control>
  {
    SectionKeys(HotKey) + SectionKeys(Window) + SectionKeys(BankMove) + SectionKeys(Assign)
    + SectionKeys(Cursor) + SectionKeys(Transport) + SectionKeys(ControlRoom) + SectionKeys(NumPad)
    + SectionKeys(TimeDisplay) + SectionKeys(AutoEnable) + SectionKeys(AutoMode)
    + SectionKeys(StatusAndGroup) + SectionKeys(Edit) + SectionKeys(FunctionKey)
    + SectionKeys(ParamEdit) + SectionKeys(FootswitchesAndSounds)
  }

  /**
   * The `allCases` order shared by `HUISwitch`, `HUIParameter` and the legacy
   * `MIDI.HUI.Parameter` enum, which is also the order of the entries of
   * `kHUIZoneAndPortPairs`: strips 0-7 with their eight elements, then every
   * section.
   */
  function AllControls(): seq<Control>
  {
    StripControls() + SectionControls()
  }

  /** There are 196 controls; the first 64 are the strips 0-7, eight elements each in raw-value order, and the rest are section elements. */
  lemma AllControlsShape()
    ensures |AllControls()| == 196
    ensures AllControls()[..64] == StripControls()
    ensures forall k :: 0 <= k < 64 ==>
      StripControls()[k].Strip? && StripControls()[k].channel == k / 8 && RawValue(StripControls()[k].element) == k % 8
    ensures forall c :: c in AllControls()[64..] ==> c.Key?
  {
    assert AllControls()[64..] == SectionControls();
    forall k | 0 <= k < 64
      ensures RawValue(StripControls()[k].element) == k % 8
    {
      ElementRawRoundTrip(Fader, k % 8);
    }
  }

  lemma SectionKeysMembers(s: Section, c: Control)
    ensures c in SectionKeys(s) <==> c.Key? && c.section == s && c.index < SectionSize(s)
  {
    if c.Key? && c.section == s && c.index < SectionSize(s) {
      assert SectionKeys(s)[c.index] == c;
    }
  }

  /** Exactly the controls of the surface appear in `allCases`. */
  lemma AllControlsMembers(c: Control)
    ensures c in AllControls() <==> IsControl(c)
  {
    if c.Strip? {
      assert c !in SectionControls() by {
        forall s: Section
          ensures c !in SectionKeys(s)
        {
          SectionKeysMembers(s, c);
        }
      }
      if 0 <= c.channel < 8 {
        var k := c.channel * 8 + RawValue(c.element);
        ElementRawRoundTrip(c.element, 0);
        assert StripControls()[k] == c;
      }
      if c in StripControls() {
        var k :| 0 <= k < 64 && StripControls()[k] == c;
        assert 0 <= k / 8 < 8;
      }
    } else {
      assert c !in StripControls();
      SectionKeysMembers(c.section, c);
      if c in SectionControls() {
        forall s: Section
          ensures c in SectionKeys(s) ==> s == c.section && c.index < SectionSize(s)
        {
          SectionKeysMembers(s, c);
        }
      }
    }
  }

  // ---------------------------------------------------------------------
  // kHUIZoneAndPortPairs
  // ---------------------------------------------------------------------

  /** A run of consecutive elements of one section that share a zone, from port 0 up. */
  datatype Block = Block(section: Section, first: nat, count: nat)

  /** The blocks of zones 0x08 to 0x1D, in zone order. */
  const Blocks: seq<Block> := [
    Block(HotKey, 0, 8),           // 0x08
    Block(Window, 0, 6),           // 0x09
    Block(BankMove, 0, 4),         // 0x0A
    Block(Assign, 0, 8),           // 0x0B
    Block(Assign, 8, 7),           // 0x0C
    Block(Cursor, 0, 7),           // 0x0D
    Block(Transport, 0, 6),        // 0x0E
    Block(Transport, 6, 5),        // 0x0F
    Block(Transport, 11, 5),       // 0x10
    Block(ControlRoom, 0, 5),      // 0x11
    Block(ControlRoom, 5, 5),      // 0x12
    Block(NumPad, 0, 8),           // 0x13
    Block(NumPad, 8, 2),           // 0x14
    Block(NumPad, 10, 8),          // 0x15
    Block(TimeDisplay, 0, 4),      // 0x16
    Block(AutoEnable, 0, 6),       // 0x17
    Block(AutoMode, 0, 6),         // 0x18
    Block(StatusAndGroup, 0, 6),   // 0x19
    Block(Edit, 0, 6),             // 0x1A
    Block(FunctionKey, 0, 8),      // 0x1B
    Block(ParamEdit, 0, 8),        // 0x1C
    Block(FootswitchesAndSounds, 0, 4)]  // 0x1D

  /** The table's pair for the element `i` of section `s`. */
  function KeyPair(s: Section, i: nat): ZoneAndPort
  {
    match s
    case HotKey => ZoneAndPort(0x08, i)
    case Window => ZoneAndPort(0x09, i)
    case BankMove => ZoneAndPort(0x0A, i)
    case Assign => if i < 8 then ZoneAndPort(0x0B, i) else ZoneAndPort(0x0C, i - 8)
    case Cursor => ZoneAndPort(0x0D, i)
    case Transport =>
      if i < 6 then ZoneAndPort(0x0E, i)
      else if i < 11 then ZoneAndPort(0x0F, i - 6)
      else ZoneAndPort(0x10, i - 11)
    case ControlRoom => if i < 5 then ZoneAndPort(0x11, i) else ZoneAndPort(0x12, i - 5)
    case NumPad =>
      if i < 8 then ZoneAndPort(0x13, i)
      else if i < 10 then ZoneAndPort(0x14, i - 8)
      else ZoneAndPort(0x15, i - 10)
    case TimeDisplay => ZoneAndPort(0x16, i)
    case AutoEnable => ZoneAndPort(0x17, i)
    case AutoMode => ZoneAndPort(0x18, i)
    case StatusAndGroup => ZoneAndPort(0x19, i)
    case Edit => ZoneAndPort(0x1A, i)
    case FunctionKey => ZoneAndPort(0x1B, i)
    case ParamEdit => ZoneAndPort(0x1C, i)
    case FootswitchesAndSounds => ZoneAndPort(0x1D, i)
  }

  /** The table's pair for a control: a strip element sits at zone = strip, port = raw value. */
  function PairOf(c: Control): ZoneAndPort
  {
    match c
    case Strip(ch, e) => ZoneAndPort(ch, RawValue(e))
    case Key(s, i) => KeyPair(s, i)
  }

  /** `kHUIZoneAndPortPairs`: a dictionary from every control to its pair. */
  function ZoneAndPortPairs(): map<Control, ZoneAndPort>
  {
    map c | c in AllControls() :: PairOf(c)
  }

  /** The control the table has at a pair, read off the zone's block. */
  function ControlAt(zp: ZoneAndPort): Option<Control>
  {
    var ZoneAndPort(zone, port) := zp;
    if zone < 0 || port < 0 then None
    else if zone < 8 then
      (if port < 8 then Some(Strip(zone, ElementOfRaw(port).value)) else None)
    else if zone < 8 + |Blocks| && port < Blocks[zone - 8].count then
      Some(Key(Blocks[zone - 8].section, Blocks[zone - 8].first + port))
    else None
  }

  /** Every control of the surface has its pair in the table, and nothing else is at that pair. */
  lemma PairOfRoundTrip(c: Control)
    requires IsControl(c)
    ensures ControlAt(PairOf(c)) == Some(c)
  {
    if c.Strip? {
      ElementRawRoundTrip(c.element, 0);
    }
  }

  /** Every pair that holds a control is that control's pair, and holds a control of the surface. */
  lemma ControlAtRoundTrip(zp: ZoneAndPort)
    requires ControlAt(zp).Some?
    ensures IsControl(ControlAt(zp).value) && PairOf(ControlAt(zp).value) == zp
  {
    if zp.zone < 8 {
      ElementRawRoundTrip(Fader, zp.port);
    }
  }

  /** No two controls of the table share a pair. */
  lemma PairsUnique(c1: Control, c2: Control)
    requires c1 in ZoneAndPortPairs() && c2 in ZoneAndPortPairs()
    requires ZoneAndPortPairs()[c1] == ZoneAndPortPairs()[c2]
    ensures c1 == c2
  {
    AllControlsMembers(c1);
    AllControlsMembers(c2);
    PairOfRoundTrip(c1);
    PairOfRoundTrip(c2);
  }

  /** Every zone of the table is in 0x00-0x1D and every port in 0-7. */
  lemma PairsInRange(c: Control)
    requires c in ZoneAndPortPairs()
    ensures 0 <= ZoneAndPortPairs()[c].zone <= 0x1D
    ensures 0 <= ZoneAndPortPairs()[c].port <= 7
  {
    AllControlsMembers(c);
    assert ZoneAndPortPairs()[c] == PairOf(c);
    if c.Key? {
      KeyPairInRange(c.section, c.index);
    }
  }

  lemma KeyPairInRange(s: Section, i: nat)
    requires i < SectionSize(s)
    ensures 8 <= KeyPair(s, i).zone <= 0x1D && 0 <= KeyPair(s, i).port <= 7
  {
    match s
    case Assign =>
    case Transport =>
    case ControlRoom =>
    case NumPad =>
    case _ =>
  }

  /** The `channelN_x` entries: strip N's element x is at zone N, port = x's raw value, for N in 0-7. */
  lemma StripEntries(channel: int, e: ChannelElement)
    ensures Strip(channel, e) in ZoneAndPortPairs() <==> 0 <= channel < 8
    ensures 0 <= channel < 8 ==> ZoneAndPortPairs()[Strip(channel, e)] == ZoneAndPort(channel, RawValue(e))
  {
    AllControlsMembers(Strip(channel, e));
  }
}
