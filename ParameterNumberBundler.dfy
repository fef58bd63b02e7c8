/**
 * `ParameterNumberEventBundler`: the MIDI 2.0 RPN / NRPN bundling that
 * holds a parameter-number event whose data-entry LSB is 0, because the
 * next event may complete it (a controller sends a two-packet series whose
 * first packet has the LSB 0), and then drops, releases or keeps it.
 *
 * One holder per kind (RPN, NRPN) keeps at most one event.  `Process` runs
 * the per-event step over a batch of events in place: it replaces or removes
 * the events the step marks, then puts the released held events in front.
 */
module ParameterNumberBundling {
  import opened Wrappers
  import opened MidiTypes
  import opened Midi2Parsers

  /** `ProcessResult`: what happens to the event in the batch. */
  datatype ProcessResult = NoChange | Remove | Replace(event: Event)

  /** A parameter-number event: RPN or NRPN. */
  predicate IsParameterNumber(e: Event)
  {
    e.Rpn? || e.Nrpn?
  }

  /** `dataEntryBytes.lsb ?? 0 == 0`: the event could be the first half of a two-packet series. */
  predicate DataEntryLsbZero(e: Event)
    requires IsParameterNumber(e)
  {
    e.dataLsb == 0
  }

  /** Same parameter bytes and same data-entry MSB. */
  predicate Completes(held: Event, e: Event)
    requires IsParameterNumber(held) && IsParameterNumber(e)
  {
    held.parameterMsb == e.parameterMsb && held.parameterLsb == e.parameterLsb && held.dataMsb == e.dataMsb
  }

  /** The held events of the two holders. */
  datatype Holders = Holders(rpn: Option<Event>, nrpn: Option<Event>)

  /** Each holder keeps at most an event of its own kind, with data-entry LSB 0. */
  predicate HoldersValid(h: Holders)
  {
    && (h.rpn.Some? ==> h.rpn.value.Rpn? && h.rpn.value.dataLsb == 0)
    && (h.nrpn.Some? ==> h.nrpn.value.Nrpn? && h.nrpn.value.dataLsb == 0)
  }

  /** The events a holder would give back, RPN first. */
  function HeldEvents(h: Holders): (r: seq<Event>)
    ensures |r| <= 2
  {
    (if h.rpn.Some? then [h.rpn.value] else []) + (if h.nrpn.Some? then [h.nrpn.value] else [])
  }

  datatype HolderOutcome = HolderOutcome(held: Option<Event>, result: ProcessResult, released: seq<Event>)

  /**
   * `processPN(event:holder:)` for one holder and an event of its kind.
   * A held event is always let go; it is given back unless the new event
   * completes it.  With nothing held, an LSB-0 event is taken and removed
   * from the batch, any other passes through.
   */
  function HolderStep(held: Option<Event>, e: Event): (r: HolderOutcome)
    requires IsParameterNumber(e)
    requires held.Some? ==> IsParameterNumber(held.value)
    ensures held.Some? ==> r.held.None? && r.result == NoChange
    ensures held.Some? ==> (r.released == [] <==> !DataEntryLsbZero(e) && Completes(held.value, e))
    ensures held.Some? && r.released != [] ==> r.released == [held.value]
    ensures held.None? ==> r.released == [] && (r.held == Some(e) <==> DataEntryLsbZero(e))
    ensures held.None? ==> (r.result == Remove <==> DataEntryLsbZero(e)) && (r.result == Remove || r.result == NoChange)
    ensures r.held.None? || r.held == Some(e)
  {
    var lsb0 := DataEntryLsbZero(e);
    match held
    case Some(stored) =>
      if lsb0 then HolderOutcome(None, NoChange, [stored])
      else if Completes(stored, e) then HolderOutcome(None, NoChange, [])
      else HolderOutcome(None, NoChange, [stored])
    case None =>
      if lsb0 then HolderOutcome(Some(e), Remove, [])
      else HolderOutcome(None, NoChange, [])
  }

  datatype StepOutcome = StepOutcome(holders: Holders, result: ProcessResult, released: seq<Event>)

  /**
   * `processPN(in:)`: an RPN goes to the RPN holder, and any other event
   * makes the RPN holder give back what it holds; then likewise for NRPN.
   */
  function PnStep(h: Holders, e: Event): (r: StepOutcome)
    requires HoldersValid(h)
    ensures HoldersValid(r.holders)
    ensures r.result == NoChange || r.result == Remove
    ensures r.result == Remove ==> IsParameterNumber(e) && DataEntryLsbZero(e)
    ensures !e.Rpn? ==> r.holders.rpn.None?
    ensures !e.Nrpn? ==> r.holders.nrpn.None?
    ensures forall x :: x in r.released ==> x in HeldEvents(h)
  {
    var (rpn, result1, released1) :=
      if e.Rpn? then
        var o := HolderStep(h.rpn, e);
        (o.held, o.result, o.released)
      else (None, NoChange, if h.rpn.Some? then [h.rpn.value] else []);
    var (nrpn, result2, released2) :=
      if e.Nrpn? then
        var o := HolderStep(h.nrpn, e);
        (o.held, o.result, o.released)
      else (None, result1, if h.nrpn.Some? then [h.nrpn.value] else []);
    StepOutcome(Holders(rpn, nrpn), result2, released1 + released2)
  }

  // ---------------------------------------------------------------------
  // A batch of events
  // ---------------------------------------------------------------------

  datatype Marked = Marked(holders: Holders, results: seq<ProcessResult>, released: seq<Event>)

  /** The step over a batch, in order: the holders after it, each event's result, the released events. */
  function Marks(h: Holders, events: seq<Event>): (r: Marked)
    requires HoldersValid(h)
    decreases |events|
    ensures HoldersValid(r.holders)
    ensures |r.results| == |events|
    ensures forall j :: 0 <= j < |events| ==> r.results[j] == NoChange || r.results[j] == Remove
  {
    if |events| == 0 then Marked(h, [], [])
    else
      var m := Marks(h, events[..|events| - 1]);
      var s := PnStep(m.holders, events[|events| - 1]);
      Marked(s.holders, m.results + [s.result], m.released + s.released)
  }

  /** The event at one index after its replacement, if any. */
  function Replaced(e: Event, result: ProcessResult): Event
  {
    if result.Replace? then result.event else e
  }

  /** The indices marked for removal, in increasing order. */
  function RemoveIndices(results: seq<ProcessResult>): (r: seq<nat>)
    decreases |results|
    ensures forall k :: 0 <= k < |r| ==> r[k] < |results| && results[r[k]].Remove?
    ensures forall k1, k2 :: 0 <= k1 < k2 < |r| ==> r[k1] < r[k2]
    ensures forall j :: 0 <= j < |results| && results[j].Remove? ==> j in r
  {
    if |results| == 0 then []
    else
      var n := |results| - 1;
      var earlier := RemoveIndices(results[..n]);
      earlier + (if results[n].Remove? then [n] else [])
  }

  /** The events from index `p` on that are not removed, in order. */
  function KeptFrom(edited: seq<Event>, results: seq<ProcessResult>, p: nat): (r: seq<Event>)
    requires |edited| == |results| && p <= |edited|
    decreases |edited| - p
    ensures |r| <= |edited| - p
  {
    if p == |edited| then []
    else (if results[p].Remove? then [] else [edited[p]]) + KeptFrom(edited, results, p + 1)
  }

  /** `process(events:)`: the released events, then the batch with its removals and replacements applied. */
  function Bundle(h: Holders, events: seq<Event>): (r: (Holders, seq<Event>))
    requires HoldersValid(h)
    ensures HoldersValid(r.0)
  {
    var m := Marks(h, events);
    var edited := seq(|events|, j requires 0 <= j < |events| => Replaced(events[j], m.results[j]));
    (m.holders, m.released + KeptFrom(edited, m.results, 0))
  }

  // ---------------------------------------------------------------------
  // The bundler
  // ---------------------------------------------------------------------

  class Bundler {
    var rpnHolder: Option<Event>
    var nrpnHolder: Option<Event>

    function State(): Holders
      reads this
    {
      Holders(rpnHolder, nrpnHolder)
    }

    predicate Valid()
      reads this
    {
      HoldersValid(State())
    }

    /** `init(handleEvents:)`: both holders empty. */
    constructor()
      ensures Valid() && rpnHolder.None? && nrpnHolder.None?
    {
      rpnHolder := None;
      nrpnHolder := None;
    }

    /** `processPN(in:)`, updating the holders. */
    method ProcessPn(e: Event) returns (result: ProcessResult, newEvents: seq<Event>)
      requires Valid()
      modifies this
      ensures Valid()
      ensures StepOutcome(State(), result, newEvents) == PnStep(old(State()), e)
    {
      result := NoChange;
      newEvents := [];
      if e.Rpn? {
        var o := HolderStep(rpnHolder, e);
        rpnHolder := o.held;
        result := o.result;
        newEvents := newEvents + o.released;
      } else if rpnHolder.Some? {
        newEvents := newEvents + [rpnHolder.value];
        rpnHolder := None;
      }
      if e.Nrpn? {
        var o := HolderStep(nrpnHolder, e);
        nrpnHolder := o.held;
        result := o.result;
        newEvents := newEvents + o.released;
      } else if nrpnHolder.Some? {
        newEvents := newEvents + [nrpnHolder.value];
        nrpnHolder := None;
      }
    }

    /**
     * `process(events:)`: marks each event in turn, replacing marked events
     * in place, then removes the marked indices from the highest down and
     * inserts the released events at the front.
     */
    method Process(events: seq<Event>) returns (out: seq<Event>)
      requires Valid()
      modifies this
      ensures Valid()
      ensures (State(), out) == Bundle(old(State()), events)
    {
      ghost var h0 := State();
      var edited, newEvents, indicesToRemove := MarkAll(events);
      ghost var m := Marks(h0, events);
      RemovalOrder(edited, m.results, indicesToRemove);
      var kept := RemoveMarked(edited, m.results, indicesToRemove);
      out := newEvents + kept;
    }

    /** The marking half of `process(events:)`: one `processPN` step per event. */
    method MarkAll(events: seq<Event>) returns (edited: seq<Event>, newEvents: seq<Event>, indicesToRemove: seq<nat>)
      requires Valid()
      modifies this
      ensures Valid()
      ensures var m := Marks(old(State()), events);
        && State() == m.holders && newEvents == m.released
        && indicesToRemove == RemoveIndices(m.results)
        && edited == seq(|events|, j requires 0 <= j < |events| => Replaced(events[j], m.results[j]))
    {
      ghost var h0 := State();
      ghost var m := Marks(h0, events[..0]);
      edited := events;
      newEvents := [];
      indicesToRemove := [];
      for i := 0 to |events|
        invariant Valid()
        invariant MarkedPrefix(h0, events, i, m, edited, newEvents, indicesToRemove)
        invariant State() == m.holders
      {
        ghost var step := PnStep(m.holders, events[i]);
        ghost var edited0, newEvents0, indices0 := edited, newEvents, indicesToRemove;
        var result, released := ProcessPn(edited[i]);
        match result {
          case NoChange =>
          case Remove => indicesToRemove := indicesToRemove + [i];
          case Replace(e) => edited := edited[i := e];
        }
        newEvents := newEvents + released;
        MarkStep(h0, events, i, m, step, edited0, newEvents0, indices0, edited, newEvents, indicesToRemove);
        m := Marked(step.holders, m.results + [step.result], m.released + step.released);
      }
      MarkedAll(h0, events, m, edited, newEvents, indicesToRemove);
    }
  }

  /**
   * The removal half of `process(events:)`: deletes the marked indices one
   * at a time, from the highest down, so that earlier indices stay valid.
   */
  method RemoveMarked(edited: seq<Event>, ghost results: seq<ProcessResult>, indices: seq<nat>)
    returns (kept: seq<Event>)
    requires RemovalOk(edited, results, indices)
    requires var s := FilterFrom(indices, |indices|);
      s <= |edited| && edited == edited[..s] + KeptFrom(edited, results, s)
    ensures kept == KeptFrom(edited, results, 0)
  {
    kept := edited;
    var k := |indices|;
    while k > 0
      invariant 0 <= k <= |indices|
      invariant kept == edited[..FilterFrom(indices, k)] + KeptFrom(edited, results, FilterFrom(indices, k))
    {
      var q := indices[k - 1];
      RemoveOne(edited, results, indices, k);
      kept := kept[..q] + kept[q + 1..];
      k := k - 1;
    }
    assert edited[..0] == [];
  }

  /**
   * After `i` events of the batch: the holders, results and released events
   * are those of `Marks`, the events so far carry their replacements and the
   * rest are untouched.
   */
  ghost predicate MarkedPrefix(h0: Holders, events: seq<Event>, i: nat, m: Marked,
                               edited: seq<Event>, newEvents: seq<Event>, indices: seq<nat>)
    requires HoldersValid(h0)
  {
    && i <= |events| && |edited| == |events|
    && m == Marks(h0, events[..i])
    && newEvents == m.released
    && indices == RemoveIndices(m.results)
    && (forall j :: 0 <= j < i ==> edited[j] == Replaced(events[j], m.results[j]))
    && (forall j :: i <= j < |events| ==> edited[j] == events[j])
  }

  /** The loop of `process(events:)` keeps `MarkedPrefix` one event at a time. */
  lemma MarkStep(h0: Holders, events: seq<Event>, i: nat, m: Marked, step: StepOutcome,
                 edited: seq<Event>, newEvents: seq<Event>, indices: seq<nat>,
                 edited': seq<Event>, newEvents': seq<Event>, indices': seq<nat>)
    requires HoldersValid(h0) && i < |events|
    requires MarkedPrefix(h0, events, i, m, edited, newEvents, indices)
    requires step == PnStep(m.holders, events[i])
    requires edited' == if step.result.Replace? then edited[i := step.result.event] else edited
    requires newEvents' == newEvents + step.released
    requires indices' == indices + (if step.result.Remove? then [i] else [])
    ensures MarkedPrefix(h0, events, i + 1, Marked(step.holders, m.results + [step.result], m.released + step.released),
                         edited', newEvents', indices')
    ensures HoldersValid(step.holders)
  {
    MarksSnoc(h0, events, i);
  }

  /** Every event of the batch marked: the outcome of `Marks` over the whole batch. */
  lemma MarkedAll(h0: Holders, events: seq<Event>, m: Marked, edited: seq<Event>, newEvents: seq<Event>, indices: seq<nat>)
    requires HoldersValid(h0) && MarkedPrefix(h0, events, |events|, m, edited, newEvents, indices)
    ensures m == Marks(h0, events)
    ensures newEvents == m.released && indices == RemoveIndices(m.results)
    ensures edited == seq(|events|, j requires 0 <= j < |events| => Replaced(events[j], m.results[j]))
  {
    assert events[..|events|] == events;
  }

  /** One more event of the batch: the step on the holders the earlier events left. */
  lemma MarksSnoc(h: Holders, events: seq<Event>, i: nat)
    requires HoldersValid(h) && i < |events|
    ensures var m := Marks(h, events[..i]);
      var s := PnStep(m.holders, events[i]);
      var m' := Marks(h, events[..i + 1]);
      && m' == Marked(s.holders, m.results + [s.result], m.released + s.released)
      && m'.results[..i] == m.results
      && RemoveIndices(m'.results) == RemoveIndices(m.results) + (if s.result.Remove? then [i] else [])
  {
    assert events[..i + 1][..i] == events[..i];
    var m := Marks(h, events[..i]);
    var s := PnStep(m.holders, events[i]);
    assert (m.results + [s.result])[..i] == m.results;
  }

  // ---------------------------------------------------------------------
  // Removal from the highest index down
  // ---------------------------------------------------------------------

  /** Where the part still to be filtered begins once the `k` lowest indices remain to be removed. */
  function FilterFrom(indices: seq<nat>, k: nat): nat
    requires k <= |indices|
  {
    if k == 0 then 0 else indices[k - 1] + 1
  }

  predicate RemovalOk(edited: seq<Event>, results: seq<ProcessResult>, indices: seq<nat>)
  {
    && |edited| == |results|
    && (forall k :: 0 <= k < |indices| ==> indices[k] < |results| && results[indices[k]].Remove?)
    && (forall k1, k2 :: 0 <= k1 < k2 < |indices| ==> indices[k1] < indices[k2])
    && (forall j :: 0 <= j < |results| && results[j].Remove? ==> j in indices)
  }

  /** Before any removal, the whole batch is the kept part of itself after its last removed index. */
  lemma RemovalOrder(edited: seq<Event>, results: seq<ProcessResult>, indices: seq<nat>)
    requires |edited| == |results| && indices == RemoveIndices(results)
    ensures RemovalOk(edited, results, indices)
    ensures var s := FilterFrom(indices, |indices|);
      s <= |edited| && edited == edited[..s] + KeptFrom(edited, results, s)
  {
    var s := FilterFrom(indices, |indices|);
    NoRemovalsFrom(edited, results, s, |edited|, indices);
    assert edited[s..|edited|] + [] == edited[s..];
  }

  /** Between two indices with no removal in between, every event is kept. */
  lemma {:induction false} KeptRange(edited: seq<Event>, results: seq<ProcessResult>, a: nat, b: nat)
    requires |edited| == |results| && a <= b <= |edited|
    requires forall j :: a <= j < b ==> !results[j].Remove?
    decreases b - a
    ensures KeptFrom(edited, results, a) == edited[a..b] + KeptFrom(edited, results, b)
  {
    if a < b {
      var rest := KeptFrom(edited, results, a + 1);
      assert KeptFrom(edited, results, a) == [edited[a]] + rest by {
        assert !results[a].Remove?;
      }
      KeptRange(edited, results, a + 1, b);
      assert [edited[a]] + edited[a + 1..b] == edited[a..b];
      SeqAssoc([edited[a]], edited[a + 1..b], KeptFrom(edited, results, b));
    }
  }

  lemma SeqAssoc<T>(x: seq<T>, y: seq<T>, z: seq<T>)
    ensures x + (y + z) == (x + y) + z
  {
  }

  /** Cutting out the last element of a prefix. */
  lemma CutLast<T>(pre: seq<T>, post: seq<T>, q: nat)
    requires |pre| == q + 1
    ensures (pre + post)[..q] + (pre + post)[q + 1..] == pre[..q] + post
  {
    assert (pre + post)[..q] == pre[..q];
    assert (pre + post)[q + 1..] == post;
  }

  /** No index after the last removed one is marked for removal. */
  lemma NoRemovalsFrom(edited: seq<Event>, results: seq<ProcessResult>, s: nat, b: nat, indices: seq<nat>)
    requires |edited| == |results| && indices == RemoveIndices(results)
    requires s == FilterFrom(indices, |indices|) && b == |edited|
    ensures s <= b
    ensures KeptFrom(edited, results, s) == edited[s..b] + KeptFrom(edited, results, b)
  {
    forall j | s <= j < b
      ensures !results[j].Remove?
    {
    }
    KeptRange(edited, results, s, b);
  }

  /** No index between two consecutive removed indices is marked for removal. */
  lemma GapHasNoRemoval(results: seq<ProcessResult>, indices: seq<nat>, k: nat, j: nat)
    requires (forall k1, k2 :: 0 <= k1 < k2 < |indices| ==> indices[k1] < indices[k2])
    requires forall i :: 0 <= i < |results| && results[i].Remove? ==> i in indices
    requires 0 < k <= |indices| && FilterFrom(indices, k - 1) <= j < indices[k - 1] && j < |results|
    ensures !results[j].Remove?
  {
    forall k' | 0 <= k' < |indices|
      ensures indices[k'] != j
    {
      if k' < k - 1 {
        assert indices[k'] <= indices[k - 2];
      }
    }
    assert j !in indices;
  }

  /** Removing the highest index still to go keeps the invariant of the removal loop. */
  lemma RemoveOne(replaced: seq<Event>, results: seq<ProcessResult>, indices: seq<nat>, k: nat)
    requires RemovalOk(replaced, results, indices) && 0 < k <= |indices|
    ensures var q := indices[k - 1];
      var whole := replaced[..FilterFrom(indices, k)] + KeptFrom(replaced, results, FilterFrom(indices, k));
      && FilterFrom(indices, k - 1) <= q < |replaced|
      && whole[..q] + whole[q + 1..]
         == replaced[..FilterFrom(indices, k - 1)] + KeptFrom(replaced, results, FilterFrom(indices, k - 1))
  {
    var q := indices[k - 1];
    var s := FilterFrom(indices, k - 1);
    var t := FilterFrom(indices, k);
    assert t == q + 1 && q < |replaced|;
    assert s <= q by {
      if k >= 2 {
        assert indices[k - 2] < indices[k - 1];
      }
    }
    var kept := KeptFrom(replaced, results, t);
    CutLast(replaced[..t], kept, q);
    assert replaced[..t][..q] == replaced[..q];
    assert KeptFrom(replaced, results, q) == kept by {
      assert results[q].Remove?;
    }
    forall j | s <= j < q
      ensures !results[j].Remove?
    {
      GapHasNoRemoval(results, indices, k, j);
    }
    KeptRange(replaced, results, s, q);
    assert replaced[..q] == replaced[..s] + replaced[s..q];
    SeqAssoc(replaced[..s], replaced[s..q], kept);
  }

  // ---------------------------------------------------------------------
  // Properties
  // ---------------------------------------------------------------------

  /** With nothing held, an event with data-entry LSB 0 is held and removed from the batch. */
  lemma FirstHalfHeld(h: Holders, e: Event)
    requires HoldersValid(h) && IsParameterNumber(e) && DataEntryLsbZero(e)
    requires e.Rpn? ==> h.rpn.None?
    requires e.Nrpn? ==> h.nrpn.None?
    ensures var s := PnStep(h, e);
      && s.result == Remove
      && (e.Rpn? ==> s.holders.rpn == Some(e) && s.released == (if h.nrpn.Some? then [h.nrpn.value] else []))
      && (e.Nrpn? ==> s.holders.nrpn == Some(e) && s.released == (if h.rpn.Some? then [h.rpn.value] else []))
  {
  }

  /**
   * A held event followed by one of its kind with a non-zero data-entry LSB
   * that completes it: the held event is dropped, the new one passes
   * through, and only a held event of the other kind is given back.
   */
  lemma CompletionDropsHeld(h: Holders, e: Event)
    requires HoldersValid(h) && IsParameterNumber(e) && !DataEntryLsbZero(e)
    requires e.Rpn? ==> h.rpn.Some? && Completes(h.rpn.value, e)
    requires e.Nrpn? ==> h.nrpn.Some? && Completes(h.nrpn.value, e)
    ensures var s := PnStep(h, e);
      && s.result == NoChange && s.holders == Holders(None, None)
      && (e.Rpn? ==> s.released == (if h.nrpn.Some? then [h.nrpn.value] else []))
      && (e.Nrpn? ==> s.released == (if h.rpn.Some? then [h.rpn.value] else []))
  {
  }

  /** The marks of the two-event series: the first event is removed and held, the second completes it. */
  lemma TwoPacketSeriesMarks(first: Event, second: Event)
    requires (first.Rpn? && second.Rpn?) || (first.Nrpn? && second.Nrpn?)
    requires DataEntryLsbZero(first) && !DataEntryLsbZero(second) && Completes(first, second)
    ensures Marks(Holders(None, None), [first, second]) == Marked(Holders(None, None), [Remove, NoChange], [])
  {
    var h := Holders(None, None);
    var events := [first, second];
    FirstHalfHeld(h, first);
    var s1 := PnStep(h, first);
    assert s1.released == [] && s1.holders == (if first.Rpn? then Holders(Some(first), None) else Holders(None, Some(first)));
    CompletionDropsHeld(s1.holders, second);
    MarksSnoc(h, events, 0);
    MarksSnoc(h, events, 1);
    assert events[..0] == [] && events[..2] == events;
  }

  /**
   * A held RPN followed by an RPN with a non-zero data-entry LSB, the same
   * parameter and the same MSB: the held event is dropped and only the
   * completed event comes out.  Likewise for NRPN.
   */
  lemma TwoPacketSeriesBundled(first: Event, second: Event)
    requires (first.Rpn? && second.Rpn?) || (first.Nrpn? && second.Nrpn?)
    requires DataEntryLsbZero(first) && !DataEntryLsbZero(second) && Completes(first, second)
    ensures Bundle(Holders(None, None), [first, second]) == (Holders(None, None), [second])
  {
    var events := [first, second];
    TwoPacketSeriesMarks(first, second);
    var results := [Remove, NoChange];
    var edited := seq(|events|, j requires 0 <= j < |events| => Replaced(events[j], results[j]));
    assert edited == events;
    assert KeptFrom(events, results, 2) == [];
    assert KeptFrom(events, results, 1) == [second];
    assert KeptFrom(events, results, 0) == [second];
  }

  /**
   * A held event followed by another of its kind with data-entry LSB 0: the
   * held event is given back and the holder is empty; the new event passes
   * through without being held.
   */
  lemma ConsecutiveZeroLsbReleases(h: Holders, e: Event)
    requires HoldersValid(h) && IsParameterNumber(e) && DataEntryLsbZero(e)
    requires e.Rpn? ==> h.rpn.Some?
    requires e.Nrpn? ==> h.nrpn.Some?
    ensures var s := PnStep(h, e);
      && s.result == NoChange && s.holders == Holders(None, None)
      && s.released == HeldEvents(h)
  {
  }

  /**
   * A held event followed by another of its kind with a non-zero LSB that
   * does not complete it: the held event is given back, the new one passes through.
   */
  lemma UnrelatedCompleteReleases(h: Holders, e: Event)
    requires HoldersValid(h) && IsParameterNumber(e) && !DataEntryLsbZero(e)
    requires e.Rpn? ==> h.rpn.Some? && !Completes(h.rpn.value, e)
    requires e.Nrpn? ==> h.nrpn.Some? && !Completes(h.nrpn.value, e)
    ensures var s := PnStep(h, e);
      s.result == NoChange && s.holders == Holders(None, None) && s.released == HeldEvents(h)
  {
  }

  /** Any event other than an RPN / NRPN gives back both held events, RPN first, and passes through. */
  lemma OtherEventReleases(h: Holders, e: Event)
    requires HoldersValid(h) && !IsParameterNumber(e)
    ensures PnStep(h, e) == StepOutcome(Holders(None, None), NoChange, HeldEvents(h))
  {
  }

  /** A complete parameter-number event with nothing of its kind held passes through unchanged and nothing is held. */
  lemma CompleteEventPassesThrough(h: Holders, e: Event)
    requires HoldersValid(h) && IsParameterNumber(e) && !DataEntryLsbZero(e)
    requires e.Rpn? ==> h.rpn.None?
    requires e.Nrpn? ==> h.nrpn.None?
    ensures var s := PnStep(h, e);
      s.result == NoChange && s.holders == Holders(None, None) && s.released == HeldEvents(h)
  {
  }

  /** The kept part of a batch with no removal is the batch itself. */
  lemma {:induction false} KeptAll(edited: seq<Event>, results: seq<ProcessResult>, p: nat)
    requires |edited| == |results| && p <= |edited|
    requires forall j :: p <= j < |results| ==> !results[j].Remove?
    decreases |edited| - p
    ensures KeptFrom(edited, results, p) == edited[p..]
  {
    if p < |edited| {
      KeptAll(edited, results, p + 1);
      assert edited[p..] == [edited[p]] + edited[p + 1..];
    }
  }

  /** Over a batch of events none of which is an RPN / NRPN, both holders end empty and nothing is removed. */
  lemma {:induction false} NoParameterNumbersMarks(h: Holders, events: seq<Event>)
    requires HoldersValid(h) && |events| > 0
    requires forall j :: 0 <= j < |events| ==> !IsParameterNumber(events[j])
    decreases |events|
    ensures var m := Marks(h, events);
      && m.holders == Holders(None, None) && m.released == HeldEvents(h)
      && forall j :: 0 <= j < |events| ==> m.results[j] == NoChange
  {
    var n := |events| - 1;
    var prefix := events[..n];
    if n == 0 {
      assert prefix == [];
      OtherEventReleases(h, events[n]);
    } else {
      NoParameterNumbersMarks(h, prefix);
      OtherEventReleases(Marks(h, prefix).holders, events[n]);
      assert HeldEvents(Holders(None, None)) == [];
      assert HeldEvents(h) + [] == HeldEvents(h);
    }
  }

  /**
   * A batch with no RPN / NRPN comes out whole and in order, after the
   * events the holders gave back; the holders end empty.
   */
  lemma NoParameterNumbersPassThrough(h: Holders, events: seq<Event>)
    requires HoldersValid(h) && |events| > 0
    requires forall j :: 0 <= j < |events| ==> !IsParameterNumber(events[j])
    ensures Bundle(h, events) == (Holders(None, None), HeldEvents(h) + events)
  {
    NoParameterNumbersMarks(h, events);
    var m := Marks(h, events);
    var edited := seq(|events|, j requires 0 <= j < |events| => Replaced(events[j], m.results[j]));
    assert edited == events;
    KeptAll(edited, m.results, 0);
  }

  /** Every event a batch gives back was in the batch or held before it: nothing is invented. */
  lemma {:induction false} NothingInvented(h: Holders, events: seq<Event>)
    requires HoldersValid(h)
    decreases |events|
    ensures forall x :: x in Marks(h, events).released ==> x in events || x in HeldEvents(h)
    ensures var m := Marks(h, events);
      forall x :: x in HeldEvents(m.holders) ==> x in events || x in HeldEvents(h)
  {
    if |events| > 0 {
      var n := |events| - 1;
      var prefix := events[..n];
      NothingInvented(h, prefix);
      var m := Marks(h, prefix);
      var s := PnStep(m.holders, events[n]);
      assert forall x :: x in prefix ==> x in events;
      assert forall x :: x in HeldEvents(s.holders) ==> x == events[n] || x in HeldEvents(m.holders);
    }
  }

  /** The output of a batch is the events given back, then the kept events of the batch: each one an input. */
  lemma BundleOutputFromInputs(h: Holders, events: seq<Event>)
    requires HoldersValid(h)
    ensures forall x :: x in Bundle(h, events).1 ==> x in events || x in HeldEvents(h)
  {
    NothingInvented(h, events);
    var m := Marks(h, events);
    var edited := seq(|events|, j requires 0 <= j < |events| => Replaced(events[j], m.results[j]));
    assert edited == events;
    KeptSubset(edited, m.results, 0);
  }

  lemma {:induction false} KeptSubset(edited: seq<Event>, results: seq<ProcessResult>, p: nat)
    requires |edited| == |results| && p <= |edited|
    decreases |edited| - p
    ensures forall x :: x in KeptFrom(edited, results, p) ==> x in edited
  {
    if p < |edited| {
      KeptSubset(edited, results, p + 1);
    }
  }
}
