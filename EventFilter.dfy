/**
 * Filtering of MIDI event lists by category, by kind and by kind pattern.
 *
 * An event is described by what the filters look at: its category, its kind
 * and, for a controller change, the controller change itself.  Kind equality
 * (`equals` between the event-kind and message-kind enums) is modelled as
 * equality of kinds.  `filterChannelVoiceAndConsolidate`, which
 * turns an event pattern into a channel voice pattern, is not part of this
 * model and is a parameter.
 */
module EventFilters {
  import opened Wrappers
  import opened MidiTypes
  import opened ControllerChanges

  /** An event kind (`MIDIEvent.Kind` and the per-category kind enums), identified by a number. */
  type Kind = nat

  datatype Category = ChannelVoice | SystemCommon | SystemRealTime | SystemExclusive | RawData

  datatype Event = Event(category: Category, kind: Kind, cc: Option<ControllerChange>)

  /** `ControllerChange.Kind`: only `.controller(n)` is looked at by the pattern filter. */
  datatype CcKind = ControllerNumber(number: UInt7) | OtherCcKind

  /** `ChannelVoiceMessage.KindPattern`: a plain kind, or controller changes restricted by a pattern. */
  datatype CvPattern = KindIs(kind: Kind) | ControllerChangePattern(ccPattern: Option<seq<CcKind>>)

  /** `MIDIEvent.KindPattern`. */
  datatype KindPattern =
    | ChanVoiceKinds(cvPattern: Option<seq<CvPattern>>)
    | CategoryKinds(category: Category, kinds: Option<seq<Kind>>)   // system common, real time, exclusive
    | RawKinds

  /** The elements of `s` that satisfy `p`, in order: `compactMap` / `filter`. */
  function Kept<T(!new)>(s: seq<T>, p: T -> bool): (r: seq<T>)
    ensures |r| <= |s|
  {
    if |s| == 0 then []
    else if p(s[0]) then [s[0]] + Kept(s[1..], p)
    else Kept(s[1..], p)
  }

  /** `Kept` keeps exactly the elements that satisfy the predicate. */
  lemma {:induction false} KeptMembers<T(!new)>(s: seq<T>, p: T -> bool)
    ensures forall x :: x in Kept(s, p) <==> x in s && p(x)
  {
    if |s| > 0 {
      KeptMembers(s[1..], p);
      assert forall x :: x in s <==> x == s[0] || x in s[1..];
    }
  }

  /** `Kept` commutes with concatenation, so it keeps the input's order. */
  lemma {:induction false} KeptAppend<T(!new)>(s: seq<T>, t: seq<T>, p: T -> bool)
    ensures Kept(s + t, p) == Kept(s, p) + Kept(t, p)
  {
    if |s| > 0 {
      assert (s + t)[1..] == s[1..] + t;
      KeptAppend(s[1..], t, p);
    } else {
      assert s + t == t;
    }
  }

  /** A predicate and its complement split a list: together they keep every element once. */
  lemma {:induction false} KeptPartition<T(!new)>(s: seq<T>, p: T -> bool, q: T -> bool)
    requires forall x :: x in s ==> q(x) == !p(x)
    ensures multiset(Kept(s, p)) + multiset(Kept(s, q)) == multiset(s)
  {
    if |s| > 0 {
      var rest := s[1..];
      KeptPartition(rest, p, q);
      assert s == [s[0]] + rest;
      assert multiset(s) == multiset{s[0]} + multiset(rest);
      if p(s[0]) {
        assert Kept(s, p) == [s[0]] + Kept(rest, p);
        assert Kept(s, q) == Kept(rest, q);
      } else {
        assert Kept(s, p) == Kept(rest, p);
        assert Kept(s, q) == [s[0]] + Kept(rest, q);
      }
    }
  }

  /** Keeping by a predicate that no element satisfies keeps nothing. */
  lemma {:induction false} KeptNone<T(!new)>(s: seq<T>, p: T -> bool)
    requires forall x :: x in s ==> !p(x)
    ensures Kept(s, p) == []
  {
    if |s| > 0 {
      KeptNone(s[1..], p);
    }
  }

  /** Keeping by a predicate that every element satisfies changes nothing. */
  lemma {:induction false} KeptAll<T(!new)>(s: seq<T>, p: T -> bool)
    requires forall x :: x in s ==> p(x)
    ensures Kept(s, p) == s
  {
    if |s| > 0 {
      KeptAll(s[1..], p);
    }
  }

  // ---- category filters ----

  /** `filterChannelVoice()`, `filterSystemCommon()`, `filterRealTime()`, `filterSystemExclusive()`. */
  function FilterCategory(events: seq<Event>, c: Category): (r: seq<Event>)
    ensures forall e :: e in r <==> e in events && e.category == c
  {
    KeptMembers(events, InCategory(c));
    Kept(events, InCategory(c))
  }

  function InCategory(c: Category): Event -> bool
  {
    (e: Event) => e.category == c
  }

  // ---- kinds ----

  /** Public `filter(_ kinds:)`: nothing for no kinds, else the events of a listed kind. */
  function FilterKinds(events: seq<Event>, kinds: seq<Kind>): (r: seq<Event>)
    ensures kinds == [] ==> r == []
    ensures forall e :: e in r <==> e in events && e.kind in kinds
  {
    if kinds == [] then [] else KeptMembers(events, Listed(kinds)); Kept(events, Listed(kinds))
  }

  function Listed(kinds: seq<Kind>): Event -> bool
  {
    (e: Event) => e.kind in kinds
  }

  function Unlisted(kinds: seq<Kind>): Event -> bool
  {
    (e: Event) => e.kind !in kinds
  }

  /** Public `drop(_ kinds:)`: everything for no kinds, else the events of no listed kind. */
  function DropKinds(events: seq<Event>, kinds: seq<Kind>): (r: seq<Event>)
    ensures kinds == [] ==> r == events
    ensures forall e :: e in r <==> e in events && e.kind !in kinds
  {
    if kinds == [] then
      events
    else
      KeptMembers(events, Unlisted(kinds)); Kept(events, Unlisted(kinds))
  }

  /** For a non-empty kind list, filtering and dropping split the events between them. */
  lemma FilterDropPartition(events: seq<Event>, kinds: seq<Kind>)
    requires kinds != []
    ensures multiset(FilterKinds(events, kinds)) + multiset(DropKinds(events, kinds)) == multiset(events)
  {
    KeptPartition(events, Listed(kinds), Unlisted(kinds));
  }

  /** Internal `filter(_ kinds:)`: the events whose kind is listed; no empty-list guard. */
  function FilterKindsInternal(events: seq<Event>, kinds: seq<Kind>): (r: seq<Event>)
    ensures kinds == [] ==> r == []
    ensures forall e :: e in r <==> e in events && e.kind in kinds
  {
    KeptMembers(events, Listed(kinds));
    if kinds == [] then
      KeptNone(events, Listed(kinds));
      Kept(events, Listed(kinds))
    else
      Kept(events, Listed(kinds))
  }

  /** The internal kind filter and the public one agree, the empty kind list included. */
  lemma InternalFilterAgrees(events: seq<Event>, kinds: seq<Kind>)
    ensures FilterKindsInternal(events, kinds) == FilterKinds(events, kinds)
  {
  }

  /** Internal `drop(_ kinds:)` as written: an event stays when SOME listed kind differs from its own. */
  function DropKindsInternalAsWritten(events: seq<Event>, kinds: seq<Kind>): (r: seq<Event>)
    ensures forall e :: e in r <==> e in events && exists k :: k in kinds && k != e.kind
  {
    KeptMembers(events, AnyOtherListed(kinds));
    Kept(events, AnyOtherListed(kinds))
  }

  function AnyOtherListed(kinds: seq<Kind>): Event -> bool
  {
    (e: Event) => exists k :: k in kinds && k != e.kind
  }

  /** Dropping two different kinds as written keeps an event of the first kind, and no kinds drops everything. */
  lemma DropInternalAsWrittenKeepsListedKind(e: Event, other: Kind)
    requires other != e.kind
    ensures DropKindsInternalAsWritten([e], [e.kind, other]) == [e]
    ensures DropKindsInternalAsWritten([e], []) == []
  {
    assert other in [e.kind, other];
    assert AnyOtherListed([e.kind, other])(e);
    KeptNone([e], AnyOtherListed([]));
  }

  /** Internal `drop(_ kinds:)` as intended: the events of no listed kind. */
  function DropKindsInternal(events: seq<Event>, kinds: seq<Kind>): (r: seq<Event>)
    ensures kinds == [] ==> r == events
    ensures forall e :: e in r <==> e in events && e.kind !in kinds
  {
    KeptMembers(events, Unlisted(kinds));
    if kinds == [] then
      KeptAll(events, Unlisted(kinds));
      Kept(events, Unlisted(kinds))
    else
      Kept(events, Unlisted(kinds))
  }

  /** The intended internal drop is the complement of the internal filter. */
  lemma InternalFilterDropPartition(events: seq<Event>, kinds: seq<Kind>)
    ensures multiset(FilterKindsInternal(events, kinds)) + multiset(DropKindsInternal(events, kinds))
            == multiset(events)
  {
    KeptPartition(events, Listed(kinds), Unlisted(kinds));
  }

  // ---- patterns ----

  /** `[ControllerChange].filter(pattern:)`: the first pattern entry alone decides. */
  function FilterCcPattern(ccs: seq<ControllerChange>, pattern: Option<seq<CcKind>>): (r: seq<ControllerChange>)
    ensures pattern.None? || pattern.value == [] ==> r == []
    ensures pattern.Some? && pattern.value != [] && pattern.value[0].OtherCcKind? ==> r == []
    ensures pattern.Some? && pattern.value != [] && pattern.value[0].ControllerNumber? ==>
              forall cc :: cc in r <==> cc in ccs && Controller(cc) == pattern.value[0].number
  {
    match pattern
    case None => []
    case Some(entries) =>
      if entries == [] then []
      else match entries[0]
           case OtherCcKind => []
           case ControllerNumber(n) => KeptMembers(ccs, ControllerIs(n)); Kept(ccs, ControllerIs(n))
  }

  function ControllerIs(n: UInt7): ControllerChange -> bool
  {
    (cc: ControllerChange) => Controller(cc) == n
  }

  /** Whether the first channel voice pattern entry accepts a channel voice event. */
  predicate CvFirstEntryAccepts(entry: CvPattern, item: Event)
  {
    match entry
    case KindIs(k) => item.kind == k
    case ControllerChangePattern(ccp) => item.cc.Some? && FilterCcPattern([item.cc.value], ccp) != []
  }

  /** `[ChannelVoiceMessage].filter(pattern:)`: nothing for no pattern; else the first entry decides each event. */
  function FilterCvPattern(items: seq<Event>, pattern: Option<seq<CvPattern>>): (r: seq<Event>)
    ensures pattern.None? || pattern.value == [] ==> r == []
    ensures pattern.Some? && pattern.value != [] ==>
              forall e :: e in r <==> e in items && CvFirstEntryAccepts(pattern.value[0], e)
  {
    match pattern
    case None => []
    case Some(entries) =>
      if entries == [] then []
      else KeptMembers(items, AcceptedByCvEntry(entries[0])); Kept(items, AcceptedByCvEntry(entries[0]))
  }

  function AcceptedByCvEntry(entry: CvPattern): Event -> bool
  {
    (e: Event) => CvFirstEntryAccepts(entry, e)
  }

  /** `[ChannelVoiceMessage].drop(pattern:)`: unfinished in the library, it returns nothing. */
  function DropCvPattern(items: seq<Event>, pattern: seq<CvPattern>): (r: seq<Event>)
    ensures |r| == 0
  {
    []
  }

  /** The first entry of `pattern` of a system category, if any: the sub-pattern it carries. */
  function FirstForCategory(pattern: seq<KindPattern>, c: Category): (r: Option<Option<seq<Kind>>>)
    ensures r.Some? <==> exists i :: 0 <= i < |pattern| && pattern[i].CategoryKinds? && pattern[i].category == c
  {
    if |pattern| == 0 then None
    else if pattern[0].CategoryKinds? && pattern[0].category == c then Some(pattern[0].kinds)
    else
      var r := FirstForCategory(pattern[1..], c);
      assert forall i :: 1 <= i < |pattern| ==> pattern[i] == pattern[1..][i - 1];
      r
  }

  /**
   * The per-event decision of `filter(pattern:)` for a non-empty pattern:
   * channel voice events by the consolidated pattern, system events by the
   * first entry of their category (none: rejected; no sub-pattern: all of
   * the category), raw events by whether the first entry is `.raw`.
   */
  predicate PatternAccepts(pattern: seq<KindPattern>, consolidate: seq<KindPattern> -> Option<seq<CvPattern>>,
                              e: Event)
    requires pattern != []
  {
    match e.category
    case ChannelVoice => FilterCvPattern([e], consolidate(pattern)) != []
    case RawData => pattern[0].RawKinds?
    case _ =>
      match FirstForCategory(pattern, e.category)
      case None => false
      case Some(None) => true
      case Some(Some(kinds)) => e.kind in kinds
  }

  /** `filter(pattern:)`. */
  function FilterPattern(events: seq<Event>, pattern: seq<KindPattern>,
                            consolidate: seq<KindPattern> -> Option<seq<CvPattern>>): (r: seq<Event>)
    ensures pattern == [] ==> r == []
    ensures pattern != [] ==> forall e :: e in r <==> e in events && PatternAccepts(pattern, consolidate, e)
  {
    if pattern == [] then []
    else KeptMembers(events, AcceptedBy(pattern, consolidate)); Kept(events, AcceptedBy(pattern, consolidate))
  }

  function AcceptedBy(pattern: seq<KindPattern>, consolidate: seq<KindPattern> -> Option<seq<CvPattern>>): Event -> bool
    requires pattern != []
  {
    (e: Event) => PatternAccepts(pattern, consolidate, e)
  }

  function RejectedBy(pattern: seq<KindPattern>, consolidate: seq<KindPattern> -> Option<seq<CvPattern>>): Event -> bool
    requires pattern != []
  {
    (e: Event) => !PatternAccepts(pattern, consolidate, e)
  }

  /**
   * The per-event decision of `drop(pattern:)` as written: system and raw
   * events are decided as in `filter(pattern:)` with the outcome reversed,
   * but a channel voice event stays exactly when the consolidated pattern
   * accepts it, the same test `filter(pattern:)` makes.
   */
  predicate DropAsWrittenKeeps(pattern: seq<KindPattern>, consolidate: seq<KindPattern> -> Option<seq<CvPattern>>,
                                  e: Event)
    requires pattern != []
  {
    if e.category == ChannelVoice then FilterCvPattern([e], consolidate(pattern)) != []
    else !PatternAccepts(pattern, consolidate, e)
  }

  function KeptAsWrittenBy(pattern: seq<KindPattern>, consolidate: seq<KindPattern> -> Option<seq<CvPattern>>): Event -> bool
    requires pattern != []
  {
    (e: Event) => DropAsWrittenKeeps(pattern, consolidate, e)
  }

  /** `drop(pattern:)` as written: everything for an empty pattern, else the events `DropAsWrittenKeeps` keeps. */
  function DropPatternAsWritten(events: seq<Event>, pattern: seq<KindPattern>,
                                   consolidate: seq<KindPattern> -> Option<seq<CvPattern>>): (r: seq<Event>)
    ensures pattern == [] ==> r == events
    ensures pattern != [] ==> forall e :: e in r <==> e in events && DropAsWrittenKeeps(pattern, consolidate, e)
  {
    if pattern == [] then events
    else KeptMembers(events, KeptAsWrittenBy(pattern, consolidate)); Kept(events, KeptAsWrittenBy(pattern, consolidate))
  }

  /**
   * As written, a channel voice event the pattern accepts comes back from
   * both `filter(pattern:)` and `drop(pattern:)`, and one it rejects from
   * neither, so the two do not split the events.
   */
  lemma DropPatternAsWrittenKeepsAccepted(e: Event, pattern: seq<KindPattern>,
                                             consolidate: seq<KindPattern> -> Option<seq<CvPattern>>)
    requires pattern != [] && e.category == ChannelVoice
    ensures PatternAccepts(pattern, consolidate, e) ==>
              FilterPattern([e], pattern, consolidate) == [e] && DropPatternAsWritten([e], pattern, consolidate) == [e]
    ensures !PatternAccepts(pattern, consolidate, e) ==>
              FilterPattern([e], pattern, consolidate) == [] && DropPatternAsWritten([e], pattern, consolidate) == []
  {
    assert [e][1..] == [];
  }

  /** Away from channel voice events, `drop(pattern:)` as written is the corrected drop. */
  lemma {:induction false} DropPatternAsWrittenAgreesOffChannelVoice(events: seq<Event>, pattern: seq<KindPattern>,
                                                                        consolidate: seq<KindPattern> -> Option<seq<CvPattern>>)
    requires forall e :: e in events ==> e.category != ChannelVoice
    ensures DropPatternAsWritten(events, pattern, consolidate) == DropPattern(events, pattern, consolidate)
  {
    if pattern != [] && |events| > 0 {
      DropPatternAsWrittenAgreesOffChannelVoice(events[1..], pattern, consolidate);
    }
  }

  /**
   * `drop(pattern:)` as intended (the corrected half of the finding about
   * its channel voice branch): everything for an empty pattern; otherwise
   * each event is decided as in `filter(pattern:)` with the outcome
   * reversed, and a system event with no entry of its category stays.
   */
  function DropPattern(events: seq<Event>, pattern: seq<KindPattern>,
                          consolidate: seq<KindPattern> -> Option<seq<CvPattern>>): (r: seq<Event>)
    ensures pattern == [] ==> r == events
    ensures pattern != [] ==> forall e :: e in r <==> e in events && !PatternAccepts(pattern, consolidate, e)
  {
    if pattern == [] then events
    else KeptMembers(events, RejectedBy(pattern, consolidate)); Kept(events, RejectedBy(pattern, consolidate))
  }

  /** For a non-empty pattern, `filter(pattern:)` and `drop(pattern:)` split the events between them. */
  lemma FilterDropPatternPartition(events: seq<Event>, pattern: seq<KindPattern>,
                                      consolidate: seq<KindPattern> -> Option<seq<CvPattern>>)
    requires pattern != []
    ensures multiset(FilterPattern(events, pattern, consolidate)) + multiset(DropPattern(events, pattern, consolidate))
            == multiset(events)
  {
    KeptPartition(events, AcceptedBy(pattern, consolidate), RejectedBy(pattern, consolidate));
  }
}
