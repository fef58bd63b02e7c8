/**
 * MIDI note numbers 0 ... 127 with their names and octaves.  A note carries
 * its naming style, which the model knows only through the style's first
 * octave offset (the octave number of note 0).  Decimal rendering and
 * parsing of the octave number are Swift library calls and are parameters
 * (`show`, `parseInt`).  Characters are single Dafny `char`s, which covers
 * the four accidental symbols.
 */
module MidiNotes {
  import opened Wrappers
  import opened MidiUnsignedInteger

  datatype NoteError = OutOfBounds | MalformedNoteName | EmptyStringTrap

  datatype NoteName = A | ASharp | B | C | CSharp | D | DSharp | E | F | FSharp | G | GSharp

  datatype MidiNote = MidiNote(number: nat, firstOctaveOffset: int)

  predicate Valid(n: MidiNote)
  {
    n.number <= 127
  }

  /** `scaleOffset`: semitones above C. */
  function ScaleOffset(name: NoteName): (k: nat)
    ensures k < 12
  {
    match name
    case A => 9
    case ASharp => 10
    case B => 11
    case C => 0
    case CSharp => 1
    case D => 2
    case DSharp => 3
    case E => 4
    case F => 5
    case FSharp => 6
    case G => 7
    case GSharp => 8
  }

  /** The name `convert(noteNumber:style:)` picks for a remainder modulo 12. */
  function NameOfScaleOffset(k: nat): (name: NoteName)
    requires k < 12
    ensures ScaleOffset(name) == k
  {
    if k == 9 then A
    else if k == 10 then ASharp
    else if k == 11 then B
    else if k == 0 then C
    else if k == 1 then CSharp
    else if k == 2 then D
    else if k == 3 then DSharp
    else if k == 4 then E
    else if k == 5 then F
    else if k == 6 then FSharp
    else if k == 7 then G
    else GSharp
  }

  /** Each name has its own scale offset. */
  lemma ScaleOffsetIdentifiesName(name: NoteName)
    ensures NameOfScaleOffset(ScaleOffset(name)) == name
  {
  }

  /** `init(_ number:style:)`: numbers outside 0 ... 127 throw `outOfBounds`. */
  function FromNumber(number: int, firstOctaveOffset: int): (r: Result<MidiNote, NoteError>)
    ensures r.Success? <==> 0 <= number <= 127
    ensures r.Success? ==> Valid(r.value) && r.value == MidiNote(number, firstOctaveOffset)
    ensures r.Failure? ==> r.error == OutOfBounds
  {
    WidthConstants();
    match Exactly(UInt7Width, number)
    case None => Failure(OutOfBounds)
    case Some(u) => Success(MidiNote(u, firstOctaveOffset))
  }

  /** `Name.convert(noteNumber:style:)`: the name of `number % 12` and octave `number / 12` plus the offset. */
  function Convert(n: MidiNote): (r: (NoteName, int))
    requires Valid(n)
    ensures n.firstOctaveOffset <= r.1 <= n.firstOctaveOffset + 10
    ensures n.number == (r.1 - n.firstOctaveOffset) * 12 + ScaleOffset(r.0)
  {
    (NameOfScaleOffset(n.number % 12), n.number / 12 + n.firstOctaveOffset)
  }

  /** `init(_ name:octave:style:)`: the number `(octave - offset) * 12 + scaleOffset`, range-checked. */
  function FromNameOctave(name: NoteName, octave: int, firstOctaveOffset: int): (r: Result<MidiNote, NoteError>)
    ensures r.Success? <==> 0 <= (octave - firstOctaveOffset) * 12 + ScaleOffset(name) <= 127
    ensures r.Success? ==> Valid(r.value) && r.value.firstOctaveOffset == firstOctaveOffset
    ensures r.Failure? ==> r.error == OutOfBounds
  {
    FromNumber((octave - firstOctaveOffset) * 12 + ScaleOffset(name), firstOctaveOffset)
  }

  /** A note built from a name and octave reports that name and octave back. */
  lemma ConvertFromNameOctave(name: NoteName, octave: int, firstOctaveOffset: int)
    requires FromNameOctave(name, octave, firstOctaveOffset).Success?
    ensures Convert(FromNameOctave(name, octave, firstOctaveOffset).value) == (name, octave)
  {
    var n := FromNameOctave(name, octave, firstOctaveOffset).value;
    var k := octave - firstOctaveOffset;
    assert n.number == k * 12 + ScaleOffset(name);
    assert n.number / 12 == k && n.number % 12 == ScaleOffset(name);
  }

  /** Every note is reached from its own name and octave. */
  lemma NameOctaveRoundTrip(n: MidiNote)
    requires Valid(n)
    ensures FromNameOctave(Convert(n).0, Convert(n).1, n.firstOctaveOffset) == Success(n)
  {
  }

  // ---- names as text ----

  const SharpAccidental: char := '#'
  const SharpAccidentalUnicode: char := '♯'
  const FlatAccidental: char := 'b'
  const FlatAccidentalUnicode: char := '♭'

  predicate IsSharpSign(c: char)
  {
    c == SharpAccidental || c == SharpAccidentalUnicode
  }

  predicate IsFlatSign(c: char)
  {
    c == FlatAccidental || c == FlatAccidentalUnicode
  }

  predicate IsAccidental(c: char)
  {
    IsSharpSign(c) || IsFlatSign(c)
  }

  /** `Name.stringValue(respellSharpAsFlat:unicodeAccidental:)`. */
  function NameString(name: NoteName, respellSharpAsFlat: bool, unicodeAccidental: bool): (s: string)
    ensures |s| == 1 || |s| == 2
    ensures s[0] in "ABCDEFG"
    ensures |s| == 2 ==> IsAccidental(s[1])
  {
    var flat := if unicodeAccidental then FlatAccidentalUnicode else FlatAccidental;
    var sharp := if unicodeAccidental then SharpAccidentalUnicode else SharpAccidental;
    match name
    case A => "A"
    case ASharp => if respellSharpAsFlat then ['B', flat] else ['A', sharp]
    case B => "B"
    case C => "C"
    case CSharp => if respellSharpAsFlat then ['D', flat] else ['C', sharp]
    case D => "D"
    case DSharp => if respellSharpAsFlat then ['E', flat] else ['D', sharp]
    case E => "E"
    case F => "F"
    case FSharp => if respellSharpAsFlat then ['G', flat] else ['F', sharp]
    case G => "G"
    case GSharp => if respellSharpAsFlat then ['A', flat] else ['G', sharp]
  }

  /** `uppercased()` of a letter, for the letters that name notes. */
  function Upper(c: char): char
  {
    if 'a' <= c <= 'g' then (c as int - 32) as char else c
  }

  /**
   * `Name.init?(_ string:)`: the first character picks the letter and the
   * second, if any, a sharp or flat.  B sharp and C flat are refused;
   * E sharp is F and F flat is E.
   */
  function NameFromString(s: string): (r: Option<NoteName>)
    ensures |s| == 0 ==> r.None?
  {
    if |s| == 0 then None
    else
      var letter := Upper(s[0]);
      var hasAccidental := |s| > 1;
      var sharp := hasAccidental && IsSharpSign(s[1]);
      var flat := hasAccidental && IsFlatSign(s[1]);
      if hasAccidental && !sharp && !flat then None
      else if letter == 'A' then (if sharp then Some(ASharp) else if flat then Some(GSharp) else Some(A))
      else if letter == 'B' then (if sharp then None else if flat then Some(ASharp) else Some(B))
      else if letter == 'C' then (if sharp then Some(CSharp) else if flat then None else Some(C))
      else if letter == 'D' then (if sharp then Some(DSharp) else if flat then Some(CSharp) else Some(D))
      else if letter == 'E' then (if sharp then Some(F) else if flat then Some(DSharp) else Some(E))
      else if letter == 'F' then (if sharp then Some(FSharp) else if flat then Some(E) else Some(F))
      else if letter == 'G' then (if sharp then Some(GSharp) else if flat then Some(FSharp) else Some(G))
      else None
  }

  /** Every spelling a name is printed with reads back as that name. */
  lemma NameStringRoundTrip(name: NoteName, respellSharpAsFlat: bool, unicodeAccidental: bool)
    ensures NameFromString(NameString(name, respellSharpAsFlat, unicodeAccidental)) == Some(name)
  {
  }

  /** `stringValue(respellSharpAsFlat:unicodeAccidental:)`: the name followed by the octave. */
  function StringValue(n: MidiNote, respellSharpAsFlat: bool, unicodeAccidental: bool,
                       show: int -> string): (s: string)
    requires Valid(n)
    ensures NameString(Convert(n).0, respellSharpAsFlat, unicodeAccidental) <= s
  {
    var (name, octave) := Convert(n);
    NameString(name, respellSharpAsFlat, unicodeAccidental) + show(octave)
  }

  /** `rangeOfCharacter(from:)` over the accidentals: the first accidental's index. */
  function FirstAccidental(s: string): (r: Option<nat>)
    ensures r.Some? ==> r.value < |s| && IsAccidental(s[r.value]) &&
                        forall j :: 0 <= j < r.value ==> !IsAccidental(s[j])
    ensures r.None? ==> forall j :: 0 <= j < |s| ==> !IsAccidental(s[j])
  {
    if |s| == 0 then None
    else if IsAccidental(s[0]) then Some(0)
    else match FirstAccidental(s[1..])
         case None => None
         case Some(i) => Some(i + 1)
  }

  /**
   * `init(_ string:style:)`: a letter A ... G first (an empty string traps
   * on the index after its start), the note name up to and including the
   * first accidental anywhere in the string, and the rest parsed as an
   * octave that must lie within the style's eleven octaves.
   */
  function ParseNote(source: string, firstOctaveOffset: int, parseInt: string -> Option<int>)
    : (r: Result<MidiNote, NoteError>)
    ensures |source| == 0 ==> r == Failure(EmptyStringTrap)
    ensures |source| > 0 && source[0] !in "ABCDEFG" ==> r == Failure(MalformedNoteName)
    ensures r.Success? ==> Valid(r.value) && r.value.firstOctaveOffset == firstOctaveOffset
  {
    if |source| == 0 then Failure(EmptyStringTrap)
    else if source[0] !in "ABCDEFG" then Failure(MalformedNoteName)
    else
      var noteString := match FirstAccidental(source)
                        case Some(i) => source[..i + 1]
                        case None => source[..1];
      match NameFromString(noteString)
      case None => Failure(MalformedNoteName)
      case Some(name) =>
        match parseInt(source[|noteString|..])
        case None => Failure(OutOfBounds)
        case Some(octave) =>
          if !(firstOctaveOffset <= octave <= firstOctaveOffset + 10) then Failure(OutOfBounds)
          else FromNameOctave(name, octave, firstOctaveOffset)
  }

  /** An octave rendering the parser reads back: no accidental signs, and `parseInt` inverts it. */
  predicate OctaveText(show: int -> string, parseInt: string -> Option<int>, octave: int)
  {
    parseInt(show(octave)) == Some(octave) &&
    forall j :: 0 <= j < |show(octave)| ==> !IsAccidental(show(octave)[j])
  }

  /** Parsing a note's string gives the note back, with either spelling and either symbol set. */
  lemma ParseStringValue(n: MidiNote, respellSharpAsFlat: bool, unicodeAccidental: bool,
                         show: int -> string, parseInt: string -> Option<int>)
    requires Valid(n) && OctaveText(show, parseInt, Convert(n).1)
    ensures ParseNote(StringValue(n, respellSharpAsFlat, unicodeAccidental, show),
                      n.firstOctaveOffset, parseInt) == Success(n)
  {
    var (name, octave) := Convert(n);
    var ns := NameString(name, respellSharpAsFlat, unicodeAccidental);
    var o := show(octave);
    var s := ns + o;
    assert s == StringValue(n, respellSharpAsFlat, unicodeAccidental, show);
    var noteString := if |ns| == 2 then s[..2] else s[..1];
    assert noteString == ns;
    assert FirstAccidental(s) == (if |ns| == 2 then Some(1) else None) by {
      if |ns| == 2 {
        FirstAccidentalAt(s, 1);
      } else {
        assert forall j :: 0 <= j < |s| ==> !IsAccidental(s[j]) by {
          forall j | 0 <= j < |s|
            ensures !IsAccidental(s[j])
          {
            if j > 0 {
              assert s[j] == o[j - 1];
            }
          }
        }
        NoAccidental(s);
      }
    }
    assert s[|noteString|..] == o;
    NameStringRoundTrip(name, respellSharpAsFlat, unicodeAccidental);
    NameOctaveRoundTrip(n);
  }

  lemma {:induction false} FirstAccidentalAt(s: string, i: nat)
    requires i < |s| && IsAccidental(s[i]) && forall j :: 0 <= j < i ==> !IsAccidental(s[j])
    ensures FirstAccidental(s) == Some(i)
  {
    if i > 0 {
      FirstAccidentalAt(s[1..], i - 1);
    }
  }

  lemma {:induction false} NoAccidental(s: string)
    requires forall j :: 0 <= j < |s| ==> !IsAccidental(s[j])
    ensures FirstAccidental(s) == None
  {
    if |s| > 0 {
      NoAccidental(s[1..]);
    }
  }

  // ---- comparison and stepping ----

  /** `==`: the note numbers only; the naming style is ignored. */
  predicate Equal(a: MidiNote, b: MidiNote)
  {
    a.number == b.number
  }

  /** `<`: by note number. */
  predicate Less(a: MidiNote, b: MidiNote)
  {
    a.number < b.number
  }

  /** `distance(to:)`: the difference of the note numbers. */
  function Distance(a: MidiNote, b: MidiNote): (d: int)
    ensures a.number + d == b.number
    ensures d == 0 <==> Equal(a, b)
    ensures d > 0 <==> Less(a, b)
  {
    b.number - a.number
  }

  /** `advanced(by:)`: the number moved by `steps`, clamped to 0 ... 127, in the same style. */
  function Advanced(a: MidiNote, steps: int): (r: MidiNote)
    ensures Valid(r) && r.firstOctaveOffset == a.firstOctaveOffset
    ensures 0 <= a.number + steps <= 127 ==> Distance(a, r) == steps
    ensures a.number + steps < 0 ==> r.number == 0
    ensures a.number + steps > 127 ==> r.number == 127
  {
    WidthConstants();
    MidiNote(Clamping(UInt7Width, a.number + steps), a.firstOctaveOffset)
  }

  /** Stepping a note by its distance to another lands on that note's number. */
  lemma AdvancedByDistance(a: MidiNote, b: MidiNote)
    requires Valid(a) && Valid(b)
    ensures Equal(Advanced(a, Distance(a, b)), b)
    ensures Less(a, b) <==> Distance(a, b) > 0
  {
  }
}
