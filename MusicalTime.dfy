/**
 * Bar / beat / beat-division / tick positions of a Standard MIDI File
 * timeline, for a fixed time signature.  Every initialiser clamps the three
 * parameters (beats per bar at least 1, divisions per beat at least 0, PPQ
 * at least 1), so every value satisfies `ValidParameters`.  All divisions
 * here are on non-negative operands, where Swift's truncating `/` and `%`
 * agree with Dafny's.
 */
module MusicalTime {
  import opened Wrappers
  import opened Bits

  datatype MusicalTimeValue = MusicalTimeValue(
    bar: int, beat: int, beatDivision: int, ticks: int,
    beatsPerBar: int, divisionsPerBeat: int, ppq: int,
    isNegative: bool)

  /** Integer division by zero, which Swift traps on. */
  datatype Trap = DivisionByZero

  /** `clamped(to: lo...)`. */
  function AtLeast(x: int, lo: int): (r: int)
    ensures r >= lo
    ensures x >= lo ==> r == x
    ensures x < lo ==> r == lo
  {
    if x < lo then lo else x
  }

  predicate ValidParameters(v: MusicalTimeValue)
  {
    v.beatsPerBar >= 1 && v.divisionsPerBeat >= 0 && v.ppq >= 1
  }

  /** `init(bar:beat:beatDivision:ticks:...)`: components stored as given, parameters clamped. */
  function FromComponents(bar: int, beat: int, beatDivision: int, ticks: int,
                          beatsPerBar: int, divisionsPerBeat: int, ppq: int,
                          isNegative: bool): (v: MusicalTimeValue)
    ensures ValidParameters(v)
    ensures v.bar == bar && v.beat == beat && v.beatDivision == beatDivision && v.ticks == ticks
    ensures v.isNegative == isNegative
    ensures beatsPerBar >= 1 && divisionsPerBeat >= 0 && ppq >= 1 ==>
              v.beatsPerBar == beatsPerBar && v.divisionsPerBeat == divisionsPerBeat && v.ppq == ppq
  {
    MusicalTimeValue(bar, beat, beatDivision, ticks,
                     AtLeast(beatsPerBar, 1), AtLeast(divisionsPerBeat, 0), AtLeast(ppq, 1),
                     isNegative)
  }

  /**
   * The parts of a tick count every variant of the elapsed-ticks
   * initialiser shares: whole bars, the ticks left in the bar, whole beats
   * of those, and the ticks left in the beat.  The source subtracts the
   * whole bars (beats) again, which is the remainder taken here.
   */
  datatype Split = Split(bar: nat, beatsTicks: nat, beat: nat, beatDivisionTicks: nat)

  function SplitTicks(t: nat, beatsPerBar: int, ppq: int): (s: Split)
    requires beatsPerBar >= 1 && ppq >= 1
    ensures s.beat < beatsPerBar && s.beatDivisionTicks < ppq
    ensures s.beatsTicks == s.beat * ppq + s.beatDivisionTicks
    ensures t == s.bar * (beatsPerBar * ppq) + s.beatsTicks
  {
    var ticksPerBar := beatsPerBar * ppq;
    MulMonotonic(1, beatsPerBar, ppq);
    var (bar, beatsTicks) := QuotientRemainder(t, ticksPerBar);
    var (beat, beatDivisionTicks) := QuotientRemainder(beatsTicks, ppq);
    BeatBelowBeatsPerBar(beatsTicks, beatsPerBar, ppq);
    Split(bar, beatsTicks, beat, beatDivisionTicks)
  }

  /** `n / d` and `n % d` of a non-negative count by a positive length. */
  function QuotientRemainder(n: nat, d: int): (r: (nat, nat))
    requires d >= 1
    ensures r.1 < d && n == r.0 * d + r.1
    ensures r.0 == n / d && r.1 == n % d
  {
    (n / d, n % d)
  }

  lemma BeatBelowBeatsPerBar(beatsTicks: int, beatsPerBar: int, ppq: int)
    requires ppq >= 1 && 0 <= beatsTicks < beatsPerBar * ppq
    ensures beatsTicks / ppq < beatsPerBar
  {
    if beatsTicks / ppq >= beatsPerBar {
      MulMonotonic(beatsPerBar, beatsTicks / ppq, ppq);
      assert false;
    }
  }

  function Magnitude(x: int): (m: nat)
    ensures m == x || m == -x
  {
    if x < 0 then -x else x
  }

  /**
   * `init(elapsedTicks:beatsPerBar:divisionsPerBeat:ppq:)` as written: the
   * leftover ticks are taken modulo the division length from the ticks of
   * the whole bar remainder rather than from the ticks after the last whole
   * beat.  A division count above the PPQ makes the division length 0 and
   * the division traps.
   */
  function FromElapsedTicksAsWritten(elapsedTicks: int, beatsPerBar: int, divisionsPerBeat: int,
                                     ppq: int): (r: Result<MusicalTimeValue, Trap>)
    ensures r.Success? ==> ValidParameters(r.value) && r.value.isNegative == (elapsedTicks < 0)
  {
    var bpb, dpb, q := AtLeast(beatsPerBar, 1), AtLeast(divisionsPerBeat, 0), AtLeast(ppq, 1);
    var s := SplitTicks(Magnitude(elapsedTicks), bpb, q);
    if dpb == 0 then
      Success(MusicalTimeValue(s.bar, s.beat, 0, s.beatsTicks % q, bpb, dpb, q, elapsedTicks < 0))
    else if q / dpb == 0 then Failure(DivisionByZero)
    else
      var ticksPerDivision := q / dpb;
      var division := QuotientRemainder(s.beatDivisionTicks, ticksPerDivision).0;
      var ticks := QuotientRemainder(s.beatsTicks, ticksPerDivision).1;
      Success(MusicalTimeValue(s.bar, s.beat, division, ticks, bpb, dpb, q, elapsedTicks < 0))
  }

  /** The same initialiser with the leftover ticks taken after the last whole division. */
  function FromElapsedTicks(elapsedTicks: int, beatsPerBar: int, divisionsPerBeat: int,
                            ppq: int): (r: Result<MusicalTimeValue, Trap>)
    ensures r.Success? ==> ValidParameters(r.value) && r.value.isNegative == (elapsedTicks < 0)
  {
    var bpb, dpb, q := AtLeast(beatsPerBar, 1), AtLeast(divisionsPerBeat, 0), AtLeast(ppq, 1);
    var s := SplitTicks(Magnitude(elapsedTicks), bpb, q);
    if dpb == 0 then
      Success(MusicalTimeValue(s.bar, s.beat, 0, s.beatDivisionTicks, bpb, dpb, q, elapsedTicks < 0))
    else if q / dpb == 0 then Failure(DivisionByZero)
    else
      var ticksPerDivision := q / dpb;
      var (division, ticks) := QuotientRemainder(s.beatDivisionTicks, ticksPerDivision);
      Success(MusicalTimeValue(s.bar, s.beat, division, ticks, bpb, dpb, q, elapsedTicks < 0))
  }

  /** The ticks of one beat division; 0 when there are more divisions than ticks. */
  function TicksPerDivision(v: MusicalTimeValue): nat
    requires ValidParameters(v) && v.divisionsPerBeat > 0
  {
    v.ppq / v.divisionsPerBeat
  }

  /** `elapsedTicks()`: whole bars, beats and divisions in ticks, plus the ticks, signed. */
  function ElapsedTicks(v: MusicalTimeValue): (r: int)
    requires ValidParameters(v)
    ensures v.bar >= 0 && v.beat >= 0 && v.beatDivision >= 0 && v.ticks >= 0 ==>
              (r < 0 ==> v.isNegative) && (r > 0 ==> !v.isNegative)
  {
    var ticksPerBar := v.beatsPerBar * v.ppq;
    var out := v.bar * ticksPerBar + v.beat * v.ppq +
               (if v.divisionsPerBeat > 0 then v.beatDivision * TicksPerDivision(v) else 0) +
               v.ticks;
    NonNegativeProducts(v);
    if v.isNegative then -out else out
  }

  lemma NonNegativeProducts(v: MusicalTimeValue)
    requires ValidParameters(v)
    ensures v.bar >= 0 && v.beat >= 0 && v.beatDivision >= 0 ==>
              v.bar * (v.beatsPerBar * v.ppq) >= 0 && v.beat * v.ppq >= 0 &&
              (v.divisionsPerBeat > 0 ==> v.beatDivision * TicksPerDivision(v) >= 0)
  {
    if v.bar >= 0 && v.beat >= 0 && v.beatDivision >= 0 {
      MulMonotonic(0, v.beatsPerBar, v.ppq);
      MulMonotonic(0, v.bar, v.beatsPerBar * v.ppq);
      MulMonotonic(0, v.beat, v.ppq);
      if v.divisionsPerBeat > 0 {
        MulMonotonic(0, v.beatDivision, TicksPerDivision(v));
      }
    }
  }

  /** `ticksWithoutDivisions()`: the ticks since the last whole beat. */
  function TicksWithoutDivisions(v: MusicalTimeValue): (r: int)
    requires ValidParameters(v)
    ensures v.divisionsPerBeat == 0 ==> r == v.ticks
  {
    if v.divisionsPerBeat == 0 then v.ticks
    else v.beatDivision * TicksPerDivision(v) + v.ticks
  }

  /** The elapsed-ticks initialiser traps exactly when there are more divisions than ticks per beat. */
  lemma DivisionByZeroWhenTooManyDivisions(t: int, beatsPerBar: int, divisionsPerBeat: int, ppq: int)
    ensures FromElapsedTicks(t, beatsPerBar, divisionsPerBeat, ppq).Failure? <==>
              AtLeast(divisionsPerBeat, 0) > AtLeast(ppq, 1)
    ensures FromElapsedTicksAsWritten(t, beatsPerBar, divisionsPerBeat, ppq).Failure? <==>
              AtLeast(divisionsPerBeat, 0) > AtLeast(ppq, 1)
  {
    var dpb, q := AtLeast(divisionsPerBeat, 0), AtLeast(ppq, 1);
    if dpb > 0 {
      if dpb > q {
        DivModUnique(q, dpb, 0, q);
      } else {
        DivAtLeastOne(q, dpb);
      }
    }
  }

  lemma DivAtLeastOne(a: int, b: int)
    requires 0 < b <= a
    ensures a / b >= 1
  {
  }

  /**
   * Components from elapsed ticks are in their ranges: the beat lies within
   * the bar, and the ticks within one division (one beat without divisions).
   */
  lemma ComponentsInRange(t: int, beatsPerBar: int, divisionsPerBeat: int, ppq: int)
    requires FromElapsedTicks(t, beatsPerBar, divisionsPerBeat, ppq).Success?
    ensures var v := FromElapsedTicks(t, beatsPerBar, divisionsPerBeat, ppq).value;
            v.bar >= 0 && 0 <= v.beat < v.beatsPerBar && v.beatDivision >= 0 && v.ticks >= 0 &&
            (v.divisionsPerBeat == 0 ==> v.ticks < v.ppq && v.beatDivision == 0) &&
            (v.divisionsPerBeat > 0 ==> v.ticks < TicksPerDivision(v))
  {
  }

  /** Elapsed ticks read back from a value built from elapsed ticks give the same count. */
  lemma ElapsedTicksRoundTrip(t: int, beatsPerBar: int, divisionsPerBeat: int, ppq: int)
    requires FromElapsedTicks(t, beatsPerBar, divisionsPerBeat, ppq).Success?
    ensures ElapsedTicks(FromElapsedTicks(t, beatsPerBar, divisionsPerBeat, ppq).value) == t
  {
    var v := FromElapsedTicks(t, beatsPerBar, divisionsPerBeat, ppq).value;
    var s := SplitTicks(Magnitude(t), v.beatsPerBar, v.ppq);
    assert v.bar == s.bar && v.beat == s.beat;
    assert TicksWithoutDivisions(v) == s.beatDivisionTicks;
    assert Magnitude(t) == s.bar * (v.beatsPerBar * v.ppq) + s.beat * v.ppq + s.beatDivisionTicks;
  }

  /** The ticks since the last whole beat are the tick count less its whole bars and beats. */
  lemma TicksWithoutDivisionsIsBeatRemainder(t: int, beatsPerBar: int, divisionsPerBeat: int, ppq: int)
    requires FromElapsedTicks(t, beatsPerBar, divisionsPerBeat, ppq).Success?
    ensures var v := FromElapsedTicks(t, beatsPerBar, divisionsPerBeat, ppq).value;
            TicksWithoutDivisions(v) == Magnitude(t) - v.bar * (v.beatsPerBar * v.ppq) - v.beat * v.ppq
  {
    var v := FromElapsedTicks(t, beatsPerBar, divisionsPerBeat, ppq).value;
    var s := SplitTicks(Magnitude(t), v.beatsPerBar, v.ppq);
    assert v.bar == s.bar && v.beat == s.beat;
  }

  /** Whole beats are whole divisions when the division length divides a beat. */
  lemma BeatsAreWholeDivisions(beatsTicks: nat, beat: nat, ppq: int, beatDivisionTicks: nat, d: int)
    requires d >= 1 && ppq % d == 0 && beatsTicks == beat * ppq + beatDivisionTicks
    ensures beatsTicks % d == beatDivisionTicks % d
  {
    var k := ppq / d;
    assert ppq == k * d;
    assert beat * ppq == (beat * k) * d by {
      MulAssociate(beat, k, d);
    }
    var j := beatDivisionTicks / d;
    assert beatDivisionTicks == j * d + beatDivisionTicks % d;
    MulDistribute(beat * k, j, d);
    DivModUnique(beatsTicks, d, beat * k + j, beatDivisionTicks % d);
  }

  /**
   * Where the division length divides a beat (or there are no divisions)
   * the initialiser as written computes the same value, because whole beats
   * are then whole divisions.
   */
  lemma AsWrittenAgreesWhenDivisionsFit(t: int, beatsPerBar: int, divisionsPerBeat: int, ppq: int)
    requires var dpb, q := AtLeast(divisionsPerBeat, 0), AtLeast(ppq, 1);
             dpb == 0 || (dpb <= q && q % (q / dpb) == 0)
    ensures FromElapsedTicksAsWritten(t, beatsPerBar, divisionsPerBeat, ppq) ==
            FromElapsedTicks(t, beatsPerBar, divisionsPerBeat, ppq)
  {
    var bpb, dpb, q := AtLeast(beatsPerBar, 1), AtLeast(divisionsPerBeat, 0), AtLeast(ppq, 1);
    var s := SplitTicks(Magnitude(t), bpb, q);
    if dpb == 0 {
      DivModUnique(s.beatsTicks, q, s.beat, s.beatDivisionTicks);
    } else {
      DivAtLeastOne(q, dpb);
      BeatsAreWholeDivisions(s.beatsTicks, s.beat, q, s.beatDivisionTicks, q / dpb);
    }
  }

  /** Ten ticks per beat in three divisions: 11 elapsed ticks read back as 12. */
  lemma AsWrittenLosesTicks()
    ensures FromElapsedTicksAsWritten(11, 4, 3, 10).Success?
    ensures FromElapsedTicksAsWritten(11, 4, 3, 10).value == MusicalTimeValue(0, 1, 0, 2, 4, 3, 10, false)
    ensures ElapsedTicks(FromElapsedTicksAsWritten(11, 4, 3, 10).value) == 12
  {
    var s := SplitTicks(11, 4, 10);
    DivModUnique(11, 40, 0, 11);
    assert s.bar == 0 && s.beatsTicks == 11;
    DivModUnique(11, 10, 1, 1);
  }

  // ---- display strings ----

  /** The components shown: the beat division only with divisions or when forced. */
  function Fields(v: MusicalTimeValue, forceBeatDivision: bool): (fs: seq<int>)
    ensures |fs| == (if v.divisionsPerBeat > 0 || forceBeatDivision then 4 else 3)
    ensures fs[0] == v.bar && fs[1] == v.beat && fs[|fs| - 1] == v.ticks
  {
    if v.divisionsPerBeat > 0 || forceBeatDivision then [v.bar, v.beat, v.beatDivision, v.ticks]
    else [v.bar, v.beat, v.ticks]
  }

  /** `map { String($0) }.joined(separator:)`; `show` is Swift's decimal rendering. */
  function Joined(show: int -> string, delimiter: string, xs: seq<int>): (s: string)
    ensures |xs| == 1 ==> s == show(xs[0])
    ensures |xs| > 1 ==> show(xs[0]) + delimiter <= s
  {
    if |xs| == 0 then ""
    else if |xs| == 1 then show(xs[0])
    else show(xs[0]) + delimiter + Joined(show, delimiter, xs[1..])
  }

  /**
   * `stringValue(delimiter:forceBeatDivision:)` as written: `?:` binds
   * looser than `+`, so the sign test selects between a bare "-" and the
   * unsigned component string.
   */
  function StringValueAsWritten(show: int -> string, delimiter: string, forceBeatDivision: bool,
                                v: MusicalTimeValue): (s: string)
    ensures v.isNegative ==> s == "-"
    ensures !v.isNegative ==> s == StringValue(show, delimiter, forceBeatDivision, v)
  {
    if v.isNegative then "-" else Joined(show, delimiter, Fields(v, forceBeatDivision))
  }

  /** The display string with the sign placed in front of the components. */
  function StringValue(show: int -> string, delimiter: string, forceBeatDivision: bool,
                       v: MusicalTimeValue): (s: string)
    ensures v.isNegative ==> |s| > 0 && s[0] == '-'
  {
    (if v.isNegative then "-" else "") + Joined(show, delimiter, Fields(v, forceBeatDivision))
  }

  /** As written, every negative value displays as "-", whatever its components. */
  lemma NegativeDisplaysBareSign(show: int -> string, delimiter: string, forceBeatDivision: bool,
                                 v: MusicalTimeValue)
    requires v.isNegative && |show(v.bar)| > 0
    ensures StringValueAsWritten(show, delimiter, forceBeatDivision, v) == "-"
    ensures StringValue(show, delimiter, forceBeatDivision, v) != "-"
  {
    var fs := Fields(v, forceBeatDivision);
    assert show(fs[0]) + delimiter <= Joined(show, delimiter, fs);
  }

  /**
   * The sign-first string is the sign followed by the string of the same
   * components without the sign, and agrees with the original on values
   * that are not negative.
   */
  lemma StringValueKeepsComponents(show: int -> string, delimiter: string, forceBeatDivision: bool,
                                   v: MusicalTimeValue)
    ensures StringValue(show, delimiter, forceBeatDivision, v) ==
            (if v.isNegative then "-" else "") +
            StringValueAsWritten(show, delimiter, forceBeatDivision, v.(isNegative := false))
    ensures !v.isNegative ==>
              StringValue(show, delimiter, forceBeatDivision, v) ==
              StringValueAsWritten(show, delimiter, forceBeatDivision, v)
  {
    assert Fields(v.(isNegative := false), forceBeatDivision) == Fields(v, forceBeatDivision);
  }
}
