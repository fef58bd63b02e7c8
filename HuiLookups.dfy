/**
 * The zone/port lookups of the HUI control enums: `HUISwitch` and
 * `HUIParameter` of the control-surfaces library, the legacy
 * `MIDI.HUI.Parameter` enum, and the legacy flat `MIDI.HUI.Parameter`
 * whose pairs live in the `kHUIZoneAndPortPairs` dictionary.
 *
 * The three enums share one `allCases` order (`HuiTables.AllControls`) and
 * one `zoneAndPort` shape: a strip element is at (strip, element port), a
 * section element at its section's pair.  The per-section pairs and the strip
 * element ports of those enums are defined in files that are not part of this
 * model, so they are the `Layout` parameter; the lemmas that need concrete
 * pairs use the legacy table's layout.
 */
module HuiLookups {
  import opened Wrappers
  import opened MidiTypes
  import opened HuiTables

  /** Where the enums put a strip element's port and a section element's pair. */
  datatype Layout = Layout(elementPort: ChannelElement -> int, keyPair: (Section, nat) -> ZoneAndPort)

  /** The layout of the legacy `kHUIZoneAndPortPairs` table. */
  function TableLayout(): Layout
  {
    Layout(e => RawValue(e), (s: Section, i: nat) => KeyPair(s, i))
  }

  /** `UInt8(exactly: channel) ?? 0`: the zone of a strip; a channel outside 0-255 falls back to zone 0. */
  function StripZone(channel: int): (zone: UInt8)
    ensures 0 <= channel < 256 ==> zone == channel
    ensures !(0 <= channel < 256) ==> zone == 0
  {
    if 0 <= channel < 256 then channel else 0
  }

  /** `zoneAndPort` of `HUISwitch`, `HUIParameter` and the legacy `Parameter` enum. */
  function ZoneAndPortOf(c: Control, layout: Layout): ZoneAndPort
  {
    match c
    case Strip(ch, e) => ZoneAndPort(StripZone(ch), layout.elementPort(e))
    case Key(s, i) => layout.keyPair(s, i)
  }

  /** With the table's layout, every control of the surface has its table pair. */
  lemma TableLayoutAgrees(c: Control)
    requires IsControl(c)
    ensures c in ZoneAndPortPairs()
    ensures ZoneAndPortOf(c, TableLayout()) == PairOf(c) == ZoneAndPortPairs()[c]
  {
    AllControlsMembers(c);
  }

  /** `allCases.first(where:)` on the pair: the index of the first case with pair `zp`, if any. */
  function FirstMatch(cases: seq<Control>, layout: Layout, zp: ZoneAndPort): (r: Option<nat>)
    ensures r.Some? ==> r.value < |cases| && ZoneAndPortOf(cases[r.value], layout) == zp
    ensures r.Some? ==> forall j :: 0 <= j < r.value ==> ZoneAndPortOf(cases[j], layout) != zp
    ensures r.None? <==> forall j :: 0 <= j < |cases| ==> ZoneAndPortOf(cases[j], layout) != zp
  {
    if cases == [] then None
    else if ZoneAndPortOf(cases[0], layout) == zp then Some(0)
    else match FirstMatch(cases[1..], layout, zp)
      case None => None
      case Some(i) => Some(i + 1)
  }

  // ---------------------------------------------------------------------
  // HUIParameter.init?(zone:port:) and the legacy Parameter enum's init?(zone:port:)
  // ---------------------------------------------------------------------

  /** The first case of `allCases` whose pair is (zone, port), or nothing. */
  function ParameterInit(zone: int, port: int, layout: Layout): (r: Option<Control>)
    ensures r.Some? ==> r.value in AllControls() && ZoneAndPortOf(r.value, layout) == ZoneAndPort(zone, port)
    ensures r.None? <==> forall c :: c in AllControls() ==> ZoneAndPortOf(c, layout) != ZoneAndPort(zone, port)
  {
    match FirstMatch(AllControls(), layout, ZoneAndPort(zone, port))
    case None => None
    case Some(i) => Some(AllControls()[i])
  }

  /** When two cases share a pair, the one earlier in `allCases` wins. */
  lemma ParameterInitPicksFirst(zone: int, port: int, layout: Layout, i: nat)
    requires i < |AllControls()| && ZoneAndPortOf(AllControls()[i], layout) == ZoneAndPort(zone, port)
    ensures ParameterInit(zone, port, layout).Some?
    ensures forall j :: 0 <= j < |AllControls()| && AllControls()[j] == ParameterInit(zone, port, layout).value ==>
      ZoneAndPortOf(AllControls()[j], layout) == ZoneAndPort(zone, port)
    ensures exists j :: 0 <= j <= i && AllControls()[j] == ParameterInit(zone, port, layout).value
  {
    var r := FirstMatch(AllControls(), layout, ZoneAndPort(zone, port));
    assert r.Some? && r.value <= i;
  }

  /** With the table's layout the lookup is the table's inverse: it finds the control at the pair. */
  lemma ParameterInitIsControlAt(zone: int, port: int)
    ensures ParameterInit(zone, port, TableLayout()) == ControlAt(ZoneAndPort(zone, port))
  {
    var zp := ZoneAndPort(zone, port);
    var r := ParameterInit(zone, port, TableLayout());
    if ControlAt(zp).Some? {
      var c := ControlAt(zp).value;
      ControlAtRoundTrip(zp);
      AllControlsMembers(c);
      TableLayoutAgrees(c);
      assert c in AllControls() && ZoneAndPortOf(c, TableLayout()) == zp;
    }
    if r.Some? {
      AllControlsMembers(r.value);
      TableLayoutAgrees(r.value);
      PairOfRoundTrip(r.value);
    }
  }

  /** Every control of the surface is found again from its own pair. */
  lemma ParameterInitRoundTrip(c: Control)
    requires IsControl(c)
    ensures ParameterInit(ZoneAndPortOf(c, TableLayout()).zone, ZoneAndPortOf(c, TableLayout()).port, TableLayout()) == Some(c)
  {
    TableLayoutAgrees(c);
    ParameterInitIsControlAt(PairOf(c).zone, PairOf(c).port);
    PairOfRoundTrip(c);
  }

  /**
   * `HUIParameter.channelStrip` takes any `Int`: strip 256 does not fit a
   * byte, falls back to zone 0 and is read back as strip 0.
   */
  lemma OversizedStripReadsAsStripZero(e: ChannelElement, layout: Layout)
    ensures ZoneAndPortOf(Strip(256, e), layout) == ZoneAndPortOf(Strip(0, e), layout)
    ensures ParameterInit(ZoneAndPortOf(Strip(256, e), TableLayout()).zone,
                          ZoneAndPortOf(Strip(256, e), TableLayout()).port, TableLayout()) == Some(Strip(0, e))
  {
    ParameterInitRoundTrip(Strip(0, e));
  }

  /** `init(channelStrip:component:)` of the legacy enum: the strip case, at (strip, element port). */
  function InitChannelStrip(strip: UInt4, component: ChannelElement, layout: Layout): (r: Control)
    ensures r.Strip? && r.channel == strip && r.element == component
    ensures ZoneAndPortOf(r, layout) == ZoneAndPort(strip, layout.elementPort(component))
  {
    Strip(strip, component)
  }

  // ---------------------------------------------------------------------
  // HUISwitch
  // ---------------------------------------------------------------------

  /** `HUISwitch`: a control of the surface, or `.undefined(zone:port:)` for any other pair. */
  datatype HuiSwitch = Defined(control: Control) | Undefined(zone: UInt8, port: UInt4)

  /** `HUISwitch.zoneAndPort`. */
  function SwitchZoneAndPort(s: HuiSwitch, layout: Layout): ZoneAndPort
  {
    match s
    case Defined(c) => ZoneAndPortOf(c, layout)
    case Undefined(zone, port) => ZoneAndPort(zone, port)
  }

  /** `HUISwitch.init(zone:port:)`: the first case with that pair, else `.undefined`; it never fails. */
  function SwitchInit(zone: UInt8, port: UInt4, layout: Layout): (r: HuiSwitch)
    ensures SwitchZoneAndPort(r, layout) == ZoneAndPort(zone, port)
    ensures r.Undefined? <==> ParameterInit(zone, port, layout).None?
    ensures r.Defined? ==> r.control == ParameterInit(zone, port, layout).value
  {
    match ParameterInit(zone, port, layout)
    case None => Undefined(zone, port)
    case Some(c) => Defined(c)
  }

  /** `.undefined(zone, port)` reports its own pair. */
  lemma UndefinedZoneAndPort(zone: UInt8, port: UInt4, layout: Layout)
    ensures SwitchZoneAndPort(Undefined(zone, port), layout) == ZoneAndPort(zone, port)
  {
  }

  /** A strip switch reports its strip as the zone whenever the strip fits a byte. */
  lemma StripSwitchZone(ch: int, e: ChannelElement, layout: Layout)
    ensures 0 <= ch < 256 ==> SwitchZoneAndPort(Defined(Strip(ch, e)), layout).zone == ch
  {
  }

  /** With the table's layout, every control is rebuilt from its pair, and exactly the table's pairs are defined. */
  lemma SwitchInitRoundTrip(c: Control, zone: UInt8, port: UInt4)
    requires IsControl(c)
    ensures SwitchInit(ZoneAndPortOf(c, TableLayout()).zone as UInt8, ZoneAndPortOf(c, TableLayout()).port as UInt4, TableLayout()) == Defined(c)
    ensures SwitchInit(zone, port, TableLayout()).Undefined? <==> ControlAt(ZoneAndPort(zone, port)).None?
  {
    TableLayoutAgrees(c);
    AllControlsMembers(c);
    PairsInRange(c);
    ParameterInitRoundTrip(c);
    ParameterInitIsControlAt(zone, port);
  }

  // ---------------------------------------------------------------------
  // The legacy flat Parameter over the kHUIZoneAndPortPairs dictionary
  // ---------------------------------------------------------------------

  /** An iteration order of the dictionary: every key, in some order. */
  ghost predicate EnumeratesTable(order: seq<Control>)
  {
    forall c :: c in order <==> c in ZoneAndPortPairs()
  }

  /** The first key of `order` whose dictionary pair is `zp`. */
  function FirstKey(order: seq<Control>, zp: ZoneAndPort): (r: Option<Control>)
    requires forall c :: c in order ==> c in ZoneAndPortPairs()
    ensures r.Some? ==> r.value in order && ZoneAndPortPairs()[r.value] == zp
    ensures r.None? ==> forall c :: c in order ==> ZoneAndPortPairs()[c] != zp
  {
    if order == [] then None
    else if ZoneAndPortPairs()[order[0]] == zp then Some(order[0])
    else FirstKey(order[1..], zp)
  }

  /**
   * `Parameter.init?(zone:port:)`: the key of the first dictionary entry with
   * that pair.  Because pairs are unique, the result is the same for every
   * iteration order: the table's control at the pair.
   */
  function LegacyFromZoneAndPort(order: seq<Control>, zone: int, port: int): (r: Option<Control>)
    requires EnumeratesTable(order)
    ensures r == ControlAt(ZoneAndPort(zone, port))
  {
    var r := FirstKey(order, ZoneAndPort(zone, port));
    LegacyLookupAgrees(order, ZoneAndPort(zone, port));
    r
  }

  lemma LegacyLookupAgrees(order: seq<Control>, zp: ZoneAndPort)
    requires EnumeratesTable(order)
    ensures FirstKey(order, zp) == ControlAt(zp)
  {
    var r := FirstKey(order, zp);
    if ControlAt(zp).Some? {
      var c := ControlAt(zp).value;
      ControlAtRoundTrip(zp);
      AllControlsMembers(c);
      assert c in order && ZoneAndPortPairs()[c] == zp;
    }
    if r.Some? {
      AllControlsMembers(r.value);
      PairOfRoundTrip(r.value);
    }
  }

  /**
   * `Parameter.init?(channelStrip:channelElement:)`: the dictionary lookup of
   * (strip, raw value).  It gives the strip's element for strips 0-7; strip 8
   * lands in zone 0x08, the hot keys, and strips past zone 0x1D give nothing.
   */
  function LegacyFromChannelStrip(order: seq<Control>, strip: int, element: ChannelElement): (r: Option<Control>)
    requires EnumeratesTable(order)
    ensures 0 <= strip < 8 ==> r == Some(Strip(strip, element))
    ensures strip == 8 ==> r == Some(Key(HotKey, RawValue(element)))
    ensures (strip < 0 || strip > 0x1D) ==> r.None?
  {
    StripLookup(strip, element);
    LegacyFromZoneAndPort(order, strip, RawValue(element))
  }

  lemma StripLookup(strip: int, element: ChannelElement)
    ensures 0 <= strip < 8 ==> ControlAt(ZoneAndPort(strip, RawValue(element))) == Some(Strip(strip, element))
    ensures strip == 8 ==> ControlAt(ZoneAndPort(strip, RawValue(element))) == Some(Key(HotKey, RawValue(element)))
    ensures (strip < 0 || strip > 0x1D) ==> ControlAt(ZoneAndPort(strip, RawValue(element))).None?
  {
    if 0 <= strip < 8 {
      PairOfRoundTrip(Strip(strip, element));
    } else if strip == 8 {
      assert Blocks[0] == Block(HotKey, 0, 8);
    } else {
      assert |Blocks| == 22;
    }
  }

  /** The strip lookup is the pair lookup at (strip, raw value): the two initializers agree. */
  lemma ChannelStripIsZoneAndPort(order: seq<Control>, strip: int, element: ChannelElement)
    requires EnumeratesTable(order)
    ensures LegacyFromChannelStrip(order, strip, element) == LegacyFromZoneAndPort(order, strip, RawValue(element))
    ensures 0 <= strip < 8 ==> ZoneAndPortPairs()[LegacyFromChannelStrip(order, strip, element).value] == ZoneAndPort(strip, RawValue(element))
  {
    if 0 <= strip < 8 {
      StripEntries(strip, element);
    }
  }
}
