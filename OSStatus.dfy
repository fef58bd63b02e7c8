/**
 * Core MIDI result codes (`MIDIOSStatus`): the mapping between named error
 * cases and their 32-bit `OSStatus` codes, and the helpers that turn a
 * non-zero status into a thrown error.  The named Core MIDI constants are
 * written out as their values, -10830 through -10845.
 */
module OSStatus {
  import opened Wrappers

  type Int32 = x: int | -0x8000_0000 <= x < 0x8000_0000

  datatype MidiOSStatus =
    | InvalidClient | InvalidPort | WrongEndpointType | NoConnection
    | UnknownEndpoint | UnknownProperty | WrongPropertyType | NoCurrentSetup
    | MessageSendErr | ServerStartErr | SetupFormatErr | WrongThread
    | ObjectNotFound | IdNotUnique | NotPermitted | UnknownError
    | IoError | InternalError
    | Other(code: Int32)

  /** `MIDIIOError.osStatus`, the error thrown for a non-zero status. */
  datatype MidiIOError = OSStatusError(status: Int32)

  const NoErr: Int32 := 0

  /** The named cases in declaration order. */
  const NamedCases: seq<MidiOSStatus> := [
    InvalidClient, InvalidPort, WrongEndpointType, NoConnection,
    UnknownEndpoint, UnknownProperty, WrongPropertyType, NoCurrentSetup,
    MessageSendErr, ServerStartErr, SetupFormatErr, WrongThread,
    ObjectNotFound, IdNotUnique, NotPermitted, UnknownError,
    IoError, InternalError]

  /** `rawValue`. */
  function RawValue(s: MidiOSStatus): (r: Int32)
    ensures s.Other? ==> r == s.code
    ensures !s.Other? ==> IsNamedCode(r)
  {
    match s
    case InvalidClient => -10830
    case InvalidPort => -10831
    case WrongEndpointType => -10832
    case NoConnection => -10833
    case UnknownEndpoint => -10834
    case UnknownProperty => -10835
    case WrongPropertyType => -10836
    case NoCurrentSetup => -10837
    case MessageSendErr => -10838
    case ServerStartErr => -10839
    case SetupFormatErr => -10840
    case WrongThread => -10841
    case ObjectNotFound => -10842
    case IdNotUnique => -10843
    case NotPermitted => -10844
    case UnknownError => -10845
    case IoError => 7
    case InternalError => -50
    case Other(v) => v
  }

  /** The codes that have a named case. */
  predicate IsNamedCode(v: int)
  {
    (-10845 <= v <= -10830) || v == 7 || v == -50
  }

  /** `init(rawValue:)`: the named case for a named code, `.other` for every other code. */
  function FromRawValue(v: Int32): (s: MidiOSStatus)
    ensures s.Other? <==> !IsNamedCode(v)
    ensures v == 7 ==> s == IoError
    ensures v == -50 ==> s == InternalError
  {
    if v == -10830 then InvalidClient
    else if v == -10831 then InvalidPort
    else if v == -10832 then WrongEndpointType
    else if v == -10833 then NoConnection
    else if v == -10834 then UnknownEndpoint
    else if v == -10835 then UnknownProperty
    else if v == -10836 then WrongPropertyType
    else if v == -10837 then NoCurrentSetup
    else if v == -10838 then MessageSendErr
    else if v == -10839 then ServerStartErr
    else if v == -10840 then SetupFormatErr
    else if v == -10841 then WrongThread
    else if v == -10842 then ObjectNotFound
    else if v == -10843 then IdNotUnique
    else if v == -10844 then NotPermitted
    else if v == -10845 then UnknownError
    else if v == 7 then IoError
    else if v == -50 then InternalError
    else Other(v)
  }

  /** Reading a code and writing it back gives the same code, for every 32-bit code. */
  lemma RawValueRoundTrip(v: Int32)
    ensures RawValue(FromRawValue(v)) == v
  {
  }

  /** Every case except `.other` of a named code is rebuilt from its code. */
  lemma FromRawValueRoundTrip(s: MidiOSStatus)
    requires s.Other? ==> !IsNamedCode(s.code)
    ensures FromRawValue(RawValue(s)) == s
  {
  }

  /** `.other` of a named code does not survive: it reads back as the named case. */
  lemma OtherOfNamedCodeCollapses()
    ensures FromRawValue(RawValue(Other(7))) == IoError
    ensures FromRawValue(RawValue(Other(-10830))) == InvalidClient
  {
  }

  /** The named cases carry the codes -10830 down to -10845 in declaration order, then 7 and -50. */
  lemma NamedCodesInOrder()
    ensures |NamedCases| == 18
    ensures forall i :: 0 <= i < 16 ==> RawValue(NamedCases[i]) == -10830 - i
    ensures RawValue(NamedCases[16]) == 7 && RawValue(NamedCases[17]) == -50
  {
  }

  /** `throwIfOSStatusErr`: throws exactly when the status is not `noErr`. */
  function ThrowIfOSStatusErr(status: Int32): (r: Result<(), MidiIOError>)
    ensures r.Failure? <==> status != NoErr
    ensures r.Failure? ==> r.error.status == status
  {
    if status == NoErr then Success(()) else Failure(OSStatusError(status))
  }

  /** `throwIfErr`: runs the call (here: its result) and throws on a non-zero status. */
  function ThrowIfErr(closure: () -> Int32): (r: Result<(), MidiIOError>)
    ensures r.Failure? <==> closure() != NoErr
    ensures r.Failure? ==> r.error == OSStatusError(closure())
  {
    var result := closure();
    if result == NoErr then Success(()) else Failure(OSStatusError(result))
  }

  /** Both helpers decide the same way for the same status. */
  lemma ThrowHelpersAgree(closure: () -> Int32)
    ensures ThrowIfErr(closure) == ThrowIfOSStatusErr(closure())
  {
  }
}
