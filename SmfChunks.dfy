/**
 * Standard MIDI File 1.0 chunks other than track bodies: the `MThd` header
 * chunk and chunks of unrecognised type, with the ASCII and error helpers
 * that the track chunk shares.
 */
module SmfChunks {
  import opened Wrappers
  import opened ByteOrder
  import opened DataReaders

  datatype MalformedReason =
    | NotAMidiFile
    | UnexpectedHeaderLength
    | UnknownFormat
    | UndecodableTimeBase
    | SingleTrackCountMismatch
    | EarlyEndOfData
    | NotATrackChunk
    | ReservedIdentifier
    | UndecodableDeltaTime
    | UnexpectedData
    | DeltaTimeTooLarge

  datatype SmfError =
    | Malformed(reason: MalformedReason)
    /** `EncodeError.internalInconsistency`. */
    | InternalInconsistency
    /** A Swift integer conversion trap (`UInt16(_:)` of an out-of-range count). */
    | ConversionTrap

  // ---------------------------------------------------------------------------
  // ASCII conversions.  The library's string helpers are not part of this
  // model; they are taken to map ASCII characters to their codes and back.

  predicate IsAscii(s: string)
  {
    forall i :: 0 <= i < |s| ==> s[i] as int < 128
  }

  /** `toASCIIBytes()`, whose source is not part of this model: modelled as one byte per character, '?' for a non-ASCII one. */
  function AsciiBytes(s: string): (bs: seq<Byte>)
    ensures |bs| == |s|
    ensures forall i :: 0 <= i < |s| && s[i] as int < 128 ==> bs[i] == s[i] as int
  {
    if |s| == 0 then []
    else [if s[0] as int < 128 then s[0] as int else '?' as int] + AsciiBytes(s[1..])
  }

  /** `asciiDataToString()`, whose source is not part of this model: modelled as nil unless every byte is ASCII. */
  function AsciiString(bs: seq<Byte>): (r: Option<string>)
    ensures r.Some? <==> forall i :: 0 <= i < |bs| ==> bs[i] < 128
    ensures r.Some? ==> |r.value| == |bs| && IsAscii(r.value) && AsciiBytes(r.value) == bs
  {
    if |bs| == 0 then Some("")
    else if bs[0] >= 128 then None
    else
      var rest := AsciiString(bs[1..]);
      if rest.None? then None
      else
        var s := [bs[0] as char] + rest.value;
        assert AsciiBytes(s) == [bs[0]] + AsciiBytes(rest.value);
        Some(s)
  }

  lemma AsciiStringOfBytes(s: string)
    requires IsAscii(s)
    ensures AsciiString(AsciiBytes(s)) == Some(s)
  {
    if |s| > 0 {
      AsciiStringOfBytes(s[1..]);
      assert AsciiBytes(s)[1..] == AsciiBytes(s[1..]);
      assert [s[0]] + s[1..] == s;
    }
  }

  /** `convertToASCII()`, whose source is not part of this model: modelled as keeping ASCII characters and turning any other into '?'. */
  function ToAscii(s: string): (r: string)
    ensures |r| == |s| && IsAscii(r)
    ensures IsAscii(s) ==> r == s
  {
    if |s| == 0 then ""
    else [if s[0] as int < 128 then s[0] else '?'] + ToAscii(s[1..])
  }

  // ---------------------------------------------------------------------------
  // Header chunk (`MThd`)

  const HeaderIdentifier: string := "MThd"
  const TrackIdentifier: string := "MTrk"
  const HeaderFixedLength: nat := 14

  datatype Format = SingleTrack | MultipleTracksSynchronous | MultipleTracksAsynchronous

  function FormatRawValue(f: Format): (r: nat)
    ensures r <= 2
    ensures r == 0 <==> f == SingleTrack
    ensures r == 1 <==> f == MultipleTracksSynchronous
  {
    match f
    case SingleTrack => 0
    case MultipleTracksSynchronous => 1
    case MultipleTracksAsynchronous => 2
  }

  function FormatOfRawValue(raw: nat): (r: Option<Format>)
    ensures r.Some? <==> raw <= 2
    ensures r.Some? ==> FormatRawValue(r.value) == raw
  {
    if raw == 0 then Some(SingleTrack)
    else if raw == 1 then Some(MultipleTracksSynchronous)
    else if raw == 2 then Some(MultipleTracksAsynchronous)
    else None
  }

  /**
   * The time base is an external type known only through its two raw bytes:
   * `decode` is `TimeBase(rawBytes:)` and `raw` is `rawData`.
   */
  datatype TimeBaseCodec<!TB> = TimeBaseCodec(decode: seq<Byte> -> Option<TB>, raw: TB -> seq<Byte>)

  predicate TimeBaseRoundTrips<TB(==)>(c: TimeBaseCodec<TB>, tb: TB)
  {
    |c.raw(tb)| == 2 && c.decode(c.raw(tb)) == Some(tb)
  }

  /** The decoded header keeps only the format and the time base, not the track count. */
  datatype Header<TB> = Header(format: Format, timeBase: TB)

  /** `init(midi1SMFRawBytes:)`: each check in the order the decoder makes it. */
  function DecodeHeader<TB(==)>(c: TimeBaseCodec<TB>, bytes: seq<Byte>): (r: Result<Header<TB>, SmfError>)
    ensures |bytes| < HeaderFixedLength ==> r == Failure(Malformed(NotAMidiFile))
    ensures r.Success? ==>
              bytes[..4] == AsciiBytes(HeaderIdentifier) &&
              bytes[4..8] == [0, 0, 0, 6] &&
              FromBig(bytes[8..10]) == FormatRawValue(r.value.format) &&
              c.decode(bytes[12..14]) == Some(r.value.timeBase) &&
              (r.value.format == SingleTrack ==> FromBig(bytes[10..12]) == 1)
    ensures |bytes| >= HeaderFixedLength && bytes[..4] == AsciiBytes(HeaderIdentifier) &&
            bytes[4..8] == [0, 0, 0, 6] && FromBig(bytes[8..10]) == 0 &&
            c.decode(bytes[12..14]).Some? && FromBig(bytes[10..12]) != 1 ==>
              r == Failure(Malformed(SingleTrackCountMismatch))
  {
    if |bytes| < HeaderFixedLength then Failure(Malformed(NotAMidiFile))
    else if bytes[..4] != AsciiBytes(HeaderIdentifier) then Failure(Malformed(NotAMidiFile))
    else
      // the length is read as a signed big-endian Int32
      SixAsInt32();
      var headerLength := Signed(FromBig(bytes[4..8]), 4);
      if headerLength != 6 then Failure(Malformed(UnexpectedHeaderLength))
      else
        var format := FormatOfRawValue(FromBig(bytes[8..10]));
        if format.None? then Failure(Malformed(UnknownFormat))
        else
          var trackCount := FromBig(bytes[10..12]);
          var timeBase := c.decode(bytes[12..14]);
          if timeBase.None? then Failure(Malformed(UndecodableTimeBase))
          else if format.value == SingleTrack && trackCount != 1 then
            Failure(Malformed(SingleTrackCountMismatch))
          else
            HeaderLengthBytes(bytes[4..8]);
            Success(Header(format.value, timeBase.value))
  }

  lemma SixAsInt32()
    ensures FromBig([0, 0, 0, 6]) == 6
  {
    assert BigBytes(6, 4) == [0, 0, 0, 6];
    FromBigBytes(6, 4);
  }

  /** The only four bytes whose signed big-endian value is 6. */
  lemma HeaderLengthBytes(bs: seq<Byte>)
    requires |bs| == 4 && Signed(FromBig(bs), 4) == 6
    ensures bs == [0, 0, 0, 6]
  {
    assert FromBig(bs) == 6;
    assert FromBig(bs) == 6 == FromBig(BigBytes(6, 4)) by { FromBigBytes(6, 4); }
    BigBytesOfFromBig(bs);
  }

  lemma BigBytesOfFromBig(bs: seq<Byte>)
    ensures BigBytes(FromBig(bs), |bs|) == bs
  {
    LittleBytesFrom(Reverse(bs));
    ReverseReverse(bs);
  }

  /** `midi1SMFRawBytes(withChunkCount:)`. */
  function EncodeHeader<TB>(c: TimeBaseCodec<TB>, h: Header<TB>, chunkCount: int): (r: Result<seq<Byte>, SmfError>)
    ensures h.format == SingleTrack && chunkCount != 1 ==> r == Failure(InternalInconsistency)
    ensures h.format != SingleTrack && !(0 <= chunkCount < 65536) ==> r == Failure(ConversionTrap)
    ensures r.Success? ==>
              r.value == AsciiBytes(HeaderIdentifier) + [0, 0, 0, 6] +
                         BigBytes(FormatRawValue(h.format), 2) + BigBytes(chunkCount, 2) +
                         c.raw(h.timeBase)
  {
    var prefix := AsciiBytes(HeaderIdentifier) + [0, 0, 0, 6] + BigBytes(FormatRawValue(h.format), 2);
    if h.format == SingleTrack then
      if chunkCount != 1 then Failure(InternalInconsistency)
      else Success(prefix + BigBytes(1, 2) + c.raw(h.timeBase))
    else if !(0 <= chunkCount < 65536) then Failure(ConversionTrap)
    else Success(prefix + BigBytes(chunkCount, 2) + c.raw(h.timeBase))
  }

  /** Decoding an encoded header gives the header back. */
  lemma {:induction false} HeaderRoundTrip<TB>(c: TimeBaseCodec<TB>, h: Header<TB>, chunkCount: int)
    requires TimeBaseRoundTrips(c, h.timeBase)
    requires EncodeHeader(c, h, chunkCount).Success?
    ensures DecodeHeader(c, EncodeHeader(c, h, chunkCount).value) == Success(h)
  {
    var bytes := EncodeHeader(c, h, chunkCount).value;
    var fmt := FormatRawValue(h.format);
    assert |bytes| == HeaderFixedLength;
    assert bytes[..4] == AsciiBytes(HeaderIdentifier);
    assert bytes[4..8] == [0, 0, 0, 6];
    assert FromBig(bytes[8..10]) == fmt by {
      assert bytes[8..10] == BigBytes(fmt, 2);
      FromBigBytes(fmt, 2);
    }
    assert FromBig(bytes[10..12]) == chunkCount by {
      assert bytes[10..12] == BigBytes(chunkCount, 2);
      FromBigBytes(chunkCount, 2);
    }
    assert bytes[12..14] == c.raw(h.timeBase);
    DecodeHeaderAccepts(c, bytes, h);
  }

  /** A header whose fields all check out decodes to its format and time base. */
  lemma DecodeHeaderAccepts<TB>(c: TimeBaseCodec<TB>, bytes: seq<Byte>, h: Header<TB>)
    requires |bytes| >= HeaderFixedLength && bytes[..4] == AsciiBytes(HeaderIdentifier)
    requires bytes[4..8] == [0, 0, 0, 6]
    requires FromBig(bytes[8..10]) == FormatRawValue(h.format)
    requires c.decode(bytes[12..14]) == Some(h.timeBase)
    requires h.format == SingleTrack ==> FromBig(bytes[10..12]) == 1
    ensures DecodeHeader(c, bytes) == Success(h)
  {
    SixAsInt32();
    assert FormatOfRawValue(FormatRawValue(h.format)) == Some(h.format);
  }

  /** A single-track header claiming another track count is rejected by both directions. */
  lemma SingleTrackCountRejected<TB>(c: TimeBaseCodec<TB>, tb: TB, count: nat)
    requires TimeBaseRoundTrips(c, tb) && count != 1 && count < 65536
    ensures EncodeHeader(c, Header(SingleTrack, tb), count) == Failure(InternalInconsistency)
    ensures DecodeHeader(c, AsciiBytes(HeaderIdentifier) + [0, 0, 0, 6] + BigBytes(0, 2) +
                            BigBytes(count, 2) + c.raw(tb)) ==
            Failure(Malformed(SingleTrackCountMismatch))
  {
    var bytes := AsciiBytes(HeaderIdentifier) + [0, 0, 0, 6] + BigBytes(0, 2) + BigBytes(count, 2) + c.raw(tb);
    assert |bytes| == HeaderFixedLength;
    assert bytes[..4] == AsciiBytes(HeaderIdentifier);
    assert bytes[4..8] == [0, 0, 0, 6];
    assert FromBig(bytes[8..10]) == 0 by {
      assert bytes[8..10] == BigBytes(0, 2);
      FromBigBytes(0, 2);
    }
    assert FromBig(bytes[10..12]) == count by {
      assert bytes[10..12] == BigBytes(count, 2);
      FromBigBytes(count, 2);
    }
    assert bytes[12..14] == c.raw(tb);
  }

  // ---------------------------------------------------------------------------
  // Chunks of unrecognised type

  datatype UnrecognizedChunk = UnrecognizedChunk(identifier: string, rawData: seq<Byte>)

  predicate IsReserved(id: string)
  {
    id == HeaderIdentifier || id == TrackIdentifier
  }

  function Dashes(n: nat): (r: string)
    ensures |r| == n && forall i :: 0 <= i < n ==> r[i] == '-'
  {
    if n == 0 then "" else "-" + Dashes(n - 1)
  }

  /**
   * Identifier normalisation as written in `init(id:rawData:)`: the reserved
   * check looks at the identifier before it is padded or truncated.
   */
  function NormaliseIdentifierAsWritten(id: string): (r: string)
    ensures |r| == 4
    ensures IsReserved(id) ==> r == "----"
    ensures !IsReserved(id) && |id| == 4 ==> r == id
  {
    if IsReserved(id) then "----"
    else if |id| < 4 then ToAscii(id + Dashes(4 - |id|))
    else if |id| > 4 then ToAscii(id[..4])
    else id
  }

  /** A longer identifier truncates to a reserved one, which the check was meant to stop. */
  lemma TruncationReachesReserved()
    ensures NormaliseIdentifierAsWritten("MThdX") == HeaderIdentifier
  {
    assert "MThdX"[..4] == HeaderIdentifier;
  }

  /** Identifier normalisation with the reserved check applied to the normalised identifier. */
  function NormaliseIdentifier(id: string): (r: string)
    ensures |r| == 4 && !IsReserved(r)
    ensures !IsReserved(id) && |id| == 4 ==> r == id
    ensures !IsReserved(NormaliseIdentifierAsWritten(id)) ==> r == NormaliseIdentifierAsWritten(id)
  {
    var n := NormaliseIdentifierAsWritten(id);
    if IsReserved(n) then "----" else n
  }

  /** `init(id:rawData:)`; a nil payload is stored as empty. */
  function MakeUnrecognized(id: string, rawData: Option<seq<Byte>>): (c: UnrecognizedChunk)
    ensures |c.identifier| == 4 && !IsReserved(c.identifier)
    ensures c.rawData == if rawData.Some? then rawData.value else []
  {
    UnrecognizedChunk(NormaliseIdentifier(id), if rawData.Some? then rawData.value else [])
  }

  const MaxChunkLength: nat := 0x1_0000_0000

  /** `init(midi1SMFRawBytesStream:)`: identifier, big-endian length, then exactly that many bytes. */
  function DecodeUnrecognized(stream: seq<Byte>): (r: Result<UnrecognizedChunk, SmfError>)
    ensures |stream| < 8 ==> r == Failure(Malformed(EarlyEndOfData))
    ensures r.Success? ==>
              8 + FromBig(stream[4..8]) <= |stream| &&
              r.value.rawData == stream[8..8 + FromBig(stream[4..8])]
    ensures |stream| >= 8 && 8 + FromBig(stream[4..8]) > |stream| ==> r.Failure?
  {
    if |stream| < 8 then Failure(Malformed(EarlyEndOfData))
    else
      var length := FromBig(stream[4..8]);
      var id := AsciiString(stream[..4]);
      var idString := if id.Some? then id.value else "????";
      if IsReserved(idString) then Failure(Malformed(ReservedIdentifier))
      else
        var body := Peek(stream, 8, Some(length));
        if body.Failure? then Failure(Malformed(EarlyEndOfData))
        else
          assert length == 0 ==> body.value.bytes == stream[8..8 + length];
          Success(MakeUnrecognized(idString, Some(body.value.bytes)))
  }

  /** `midi1SMFRawBytes(using:)`: identifier, 4-byte big-endian length, payload. */
  function EncodeUnrecognized(c: UnrecognizedChunk): (r: Result<seq<Byte>, SmfError>)
    ensures r.Success? <==> |c.rawData| < MaxChunkLength
    ensures r.Success? ==>
              r.value == AsciiBytes(c.identifier) + BigBytes(|c.rawData|, 4) + c.rawData
  {
    if |c.rawData| < MaxChunkLength then
      Success(AsciiBytes(c.identifier) + BigBytes(|c.rawData|, 4) + c.rawData)
    else Failure(InternalInconsistency)
  }

  /**
   * Decoding the encoding of a chunk whose identifier is four ASCII
   * characters gives the chunk back, whatever bytes follow it.
   */
  lemma {:induction false} UnrecognizedRoundTrip(c: UnrecognizedChunk, rest: seq<Byte>)
    requires |c.identifier| == 4 && IsAscii(c.identifier) && !IsReserved(c.identifier)
    requires |c.rawData| < MaxChunkLength
    ensures DecodeUnrecognized(EncodeUnrecognized(c).value + rest) == Success(c)
  {
    var stream := EncodeUnrecognized(c).value + rest;
    var n := |c.rawData|;
    assert stream[..4] == AsciiBytes(c.identifier);
    AsciiStringOfBytes(c.identifier);
    assert stream[4..8] == BigBytes(n, 4);
    assert MaxChunkLength == Radix(4);
    FromBigBytes(n, 4);
    assert stream[8..8 + n] == c.rawData;
  }
}
