/**
 * Standard MIDI File 1.0 track chunks (`MTrk`): the event decode loop with
 * running-status injection, and the encoder.  Individual event codecs, the
 * variable-length delta-time codec and the time base are not part of this
 * model; they are the parameters gathered in `EventCodec`.
 */
module SmfTrack {
  import opened Wrappers
  import opened ByteOrder
  import opened DataReaders
  import opened SmfChunks

  /** The end-of-track meta event FF 2F 00. */
  const ChunkEnd: seq<Byte> := [0xFF, 0x2F, 0x00]
  /** The decoder offers each event decoder at most this many bytes. */
  const ReadAheadLimit: nat := 512
  const DeltaTimeLimit: nat := 0x1_0000_0000

  datatype TrackEvent<E> = TrackEvent(delta: nat, event: E)

  /**
   * The collaborators of the track codec, over an event payload type E:
   * `decodeDelta` is `decodeVariableLengthValue` giving (value, byte length),
   * `encodeDelta` is `append(deltaTime:)`, `decodeEvent` is the first event
   * decoder in `eventDecodeOrder` that accepts the bytes, giving (event,
   * bytes consumed), and `rawBytes` is an event's `midi1SMFRawBytes()`.
   */
  datatype EventCodec<!E> = EventCodec(
    decodeDelta: seq<Byte> -> Option<(nat, nat)>,
    encodeDelta: nat -> seq<Byte>,
    decodeEvent: seq<Byte> -> Option<(E, nat)>,
    rawBytes: E -> seq<Byte>)

  /** Every decoder consumes at least one byte and no more than it was given. */
  ghost predicate WellBehaved<E>(c: EventCodec<E>)
  {
    (forall bs :: c.decodeDelta(bs).Some? ==> 1 <= c.decodeDelta(bs).value.1 <= |bs|) &&
    (forall bs :: c.decodeEvent(bs).Some? ==> 1 <= c.decodeEvent(bs).value.1 <= |bs|)
  }

  function Clamp(x: int, lo: int, hi: int): int
  {
    if x < lo then lo else if x > hi then hi else x
  }

  /** The running status after decoding an event with these raw bytes. */
  function NextRunningStatus<E>(raw: seq<Byte>, ev: E, rs: Option<E>): (r: Option<E>)
    ensures |raw| > 0 && 0x80 <= raw[0] <= 0xEF ==> r == Some(ev)
    ensures |raw| > 0 && 0xF0 <= raw[0] <= 0xF7 ==> r == None
    ensures (|raw| == 0 || raw[0] < 0x80 || raw[0] > 0xF7) ==> r == rs
  {
    if |raw| == 0 then rs
    else if 0x80 <= raw[0] <= 0xEF then Some(ev)
    else if 0xF0 <= raw[0] <= 0xF7 then None
    else rs
  }

  /** The status byte injected in front of a buffer that starts with a data byte. */
  function RunningStatusByte<E>(c: EventCodec<E>, buffer: seq<Byte>, rs: Option<E>): (b: Option<Byte>)
    ensures b.Some? <==> |buffer| > 0 && buffer[0] <= 0x7F && rs.Some? && |c.rawBytes(rs.value)| > 0
    ensures b.Some? ==> b.value == c.rawBytes(rs.value)[0]
  {
    if |buffer| > 0 && buffer[0] <= 0x7F && rs.Some? && |c.rawBytes(rs.value)| > 0 then
      Some(c.rawBytes(rs.value)[0])
    else None
  }

  function Prepend<E>(xs: seq<TrackEvent<E>>, r: Result<seq<TrackEvent<E>>, SmfError>): Result<seq<TrackEvent<E>>, SmfError>
  {
    if r.Success? then Success(xs + r.value) else r
  }

  lemma PrependNil<E>(r: Result<seq<TrackEvent<E>>, SmfError>)
    ensures Prepend([], r) == r
  {
    if r.Success? {
      assert [] + r.value == r.value;
    }
  }

  /** The outcome of one pass of the decode loop. */
  datatype Step<E> =
    | EndOfTrack
    | Decoded(event: TrackEvent<E>, next: nat, runningStatus: Option<E>)
    | Stop(error: SmfError)

  /** The delta time in front of the event at `offset`, as (value, byte length). */
  function ReadDelta<E>(c: EventCodec<E>, data: seq<Byte>, offset: nat): (r: Result<(nat, nat), SmfError>)
    requires WellBehaved(c)
    ensures r.Success? ==> 1 <= r.value.1 <= 4 && offset + 4 <= |data|
    ensures |data| - offset < 4 ==> r == Failure(Malformed(EarlyEndOfData))
  {
    if |data| - offset < 4 then Failure(Malformed(EarlyEndOfData))
    else
      var delta := c.decodeDelta(data[offset..offset + 4]);
      if delta.None? then Failure(Malformed(UndecodableDeltaTime))
      else Success(delta.value)
  }

  /**
   * The rest of one pass once the delta time is read: the end-of-track check
   * on a read-ahead buffer of at most 512 bytes, running-status injection,
   * and the event decoders.
   */
  function ReadEvent<E>(c: EventCodec<E>, data: seq<Byte>, pos: nat, delta: nat, rs: Option<E>): (s: Step<E>)
    requires WellBehaved(c) && pos <= |data|
    ensures s.Decoded? ==> pos <= s.next <= |data| && s.event.delta == delta
  {
    if pos == |data| then Stop(Malformed(EarlyEndOfData))
    else
      var buffer := data[pos..pos + Clamp(|data| - pos, 1, ReadAheadLimit)];
      if buffer == ChunkEnd then EndOfTrack
      else
        var statusByte := RunningStatusByte(c, buffer, rs);
        var offered := if statusByte.Some? then [statusByte.value] + buffer else buffer;
        var found := c.decodeEvent(offered);
        if found.None? then Stop(Malformed(UnexpectedData))
        else if delta >= DeltaTimeLimit then Stop(ConversionTrap)
        else
          var ev := found.value.0;
          var advance := if statusByte.Some? then found.value.1 - 1 else found.value.1;
          Decoded(TrackEvent(delta, ev), pos + advance, NextRunningStatus(c.rawBytes(ev), ev, rs))
  }

  /** A pass ends the track exactly when the rest of the data is the end-of-track marker. */
  lemma EndOfTrackMarker<E>(c: EventCodec<E>, data: seq<Byte>, pos: nat, delta: nat, rs: Option<E>)
    requires WellBehaved(c) && pos <= |data|
    ensures ReadEvent(c, data, pos, delta, rs) == EndOfTrack <==> data[pos..] == ChunkEnd
  {
  }

  /**
   * The decoders see no further than the read-ahead: an event that needs more
   * than 512 bytes to decode (a long SysEx, say) is rejected as unexpected
   * data, whatever follows in the track.
   */
  lemma ReadAheadHidesLongEvent<E>(c: EventCodec<E>, data: seq<Byte>, pos: nat, delta: nat, rs: Option<E>)
    requires WellBehaved(c) && pos + ReadAheadLimit < |data|
    requires rs.None? && c.decodeEvent(data[pos..pos + ReadAheadLimit]) == None
    ensures ReadEvent(c, data, pos, delta, rs) == Stop(Malformed(UnexpectedData))
  {
  }

  /** One pass of the decode loop of `init(midi1SMFRawBytes:)` at `offset`. */
  function DecodeStep<E>(c: EventCodec<E>, data: seq<Byte>, offset: nat, rs: Option<E>): (s: Step<E>)
    requires WellBehaved(c)
    ensures s.Decoded? ==> offset < s.next <= |data|
    ensures |data| - offset < 4 ==> s == Stop(Malformed(EarlyEndOfData))
  {
    match ReadDelta(c, data, offset)
    case Failure(e) => Stop(e)
    case Success(d) => ReadEvent(c, data, offset + d.1, d.0, rs)
  }

  /** A pass whose delta time is read goes on to read the event after it. */
  lemma DecodeStepAfterDelta<E>(c: EventCodec<E>, data: seq<Byte>, offset: nat, rs: Option<E>, d: (nat, nat))
    requires WellBehaved(c)
    requires ReadDelta(c, data, offset) == Success(d)
    ensures offset + d.1 <= |data|
    ensures DecodeStep(c, data, offset, rs) == ReadEvent(c, data, offset + d.1, d.0, rs)
  {
  }

  /** Every decoded event moves the offset forward and stays within `limit`. */
  ghost predicate Advances<E(!new)>(pass: (nat, Option<E>) -> Step<E>, limit: nat)
  {
    forall o: nat, rs: Option<E> :: o <= limit && pass(o, rs).Decoded? ==> o < pass(o, rs).next <= limit
  }

  /**
   * The decode loop over a function giving the pass at each offset and
   * running status: repeat passes until the end-of-track marker or an error.
   */
  function Loop<E(!new)>(pass: (nat, Option<E>) -> Step<E>, limit: nat, offset: nat, rs: Option<E>): Result<seq<TrackEvent<E>>, SmfError>
    requires Advances(pass, limit) && offset <= limit
    decreases limit - offset
  {
    match pass(offset, rs)
    case EndOfTrack => Success([])
    case Stop(e) => Failure(e)
    case Decoded(ev, next, rs') => Prepend([ev], Loop(pass, limit, next, rs'))
  }

  /** The pass of the track decoder over `data`. */
  function Pass<E(!new)>(c: EventCodec<E>, data: seq<Byte>): (pass: (nat, Option<E>) -> Step<E>)
    requires WellBehaved(c)
    ensures forall o: nat, rs: Option<E> :: pass(o, rs) == DecodeStep(c, data, o, rs)
    ensures Advances(pass, |data|)
  {
    (o: nat, rs: Option<E>) => DecodeStep(c, data, o, rs)
  }

  /** The events the decode loop produces from `offset` to the end-of-track marker. */
  function DecodeFrom<E(!new)>(c: EventCodec<E>, data: seq<Byte>, offset: nat, rs: Option<E>): Result<seq<TrackEvent<E>>, SmfError>
    requires WellBehaved(c) && offset <= |data|
  {
    Loop(Pass(c, data), |data|, offset, rs)
  }

  /** A decoded event joins the events decoded before it, in order. */
  lemma PrependDecoded<E(!new)>(pass: (nat, Option<E>) -> Step<E>, limit: nat, offset: nat, rs: Option<E>,
                          xs: seq<TrackEvent<E>>, ev: TrackEvent<E>, next: nat, rs': Option<E>)
    requires Advances(pass, limit) && offset <= limit
    requires pass(offset, rs) == Decoded(ev, next, rs')
    ensures next <= limit
    ensures Prepend(xs + [ev], Loop(pass, limit, next, rs')) == Prepend(xs, Loop(pass, limit, offset, rs))
  {
    var tail := Loop(pass, limit, next, rs');
    if tail.Success? {
      assert xs + [ev] + tail.value == xs + ([ev] + tail.value);
    }
  }

  /** Reads the delta time at the reader's offset and moves past it. */
  method ReadDeltaTime<E>(c: EventCodec<E>, reader: DataReader) returns (r: Result<(nat, nat), SmfError>)
    requires WellBehaved(c) && 0 <= reader.readOffset
    modifies reader
    ensures r == ReadDelta(c, reader.data, old(reader.readOffset))
    ensures r.Success? ==> reader.readOffset == old(reader.readOffset) + r.value.1
  {
    var deltaRead := reader.NonAdvancingRead(Some(4));
    if deltaRead.Failure? {
      return Failure(Malformed(EarlyEndOfData));
    }
    var delta := c.decodeDelta(deltaRead.value);
    if delta.None? {
      return Failure(Malformed(UndecodableDeltaTime));
    }
    reader.AdvanceBy(delta.value.1);
    r := Success(delta.value);
  }

  /**
   * Reads the event at the reader's offset: looks for the end-of-track
   * marker, injects the running status, decodes, and moves past the event.
   */
  method ReadEventAt<E>(c: EventCodec<E>, reader: DataReader, delta: nat, runningStatus: Option<E>) returns (s: Step<E>)
    requires WellBehaved(c) && 0 <= reader.readOffset <= |reader.data|
    modifies reader
    ensures s == ReadEvent(c, reader.data, old(reader.readOffset), delta, runningStatus)
    ensures s.Decoded? ==> reader.readOffset == s.next
  {
    var readAhead := Clamp(reader.RemainingByteCount(), 1, ReadAheadLimit);
    var bufferRead := reader.NonAdvancingRead(Some(readAhead));
    if bufferRead.Failure? {
      return Stop(Malformed(EarlyEndOfData));
    }
    var buffer := bufferRead.value;
    if buffer == ChunkEnd {
      return EndOfTrack;
    }
    var statusByte := RunningStatusByte(c, buffer, runningStatus);
    if statusByte.Some? {
      buffer := [statusByte.value] + buffer;
    }
    var found := c.decodeEvent(buffer);
    if found.None? {
      return Stop(Malformed(UnexpectedData));
    }
    if delta >= DeltaTimeLimit {
      return Stop(ConversionTrap);
    }
    var ev := found.value.0;
    var chunkBufferLength := if statusByte.Some? then found.value.1 - 1 else found.value.1;
    reader.AdvanceBy(chunkBufferLength);
    s := Decoded(TrackEvent(delta, ev), reader.readOffset, NextRunningStatus(c.rawBytes(ev), ev, runningStatus));
  }

  /** One pass of the decode loop on the reader. */
  method DecodeNextEvent<E>(c: EventCodec<E>, reader: DataReader, runningStatus: Option<E>) returns (s: Step<E>)
    requires WellBehaved(c) && 0 <= reader.readOffset <= |reader.data|
    modifies reader
    ensures s == DecodeStep(c, reader.data, old(reader.readOffset), runningStatus)
    ensures s.Decoded? ==> reader.readOffset == s.next
  {
    ghost var start := reader.readOffset;
    var delta := ReadDeltaTime(c, reader);
    if delta.Failure? {
      return Stop(delta.error);
    }
    DecodeStepAfterDelta(c, reader.data, start, runningStatus, delta.value);
    s := ReadEventAt(c, reader, delta.value.0, runningStatus);
  }

  /** `init(midi1SMFRawBytes:)`: decode events until the end-of-track marker. */
  method DecodeBody<E(!new)>(c: EventCodec<E>, rawData: seq<Byte>) returns (r: Result<seq<TrackEvent<E>>, SmfError>)
    requires WellBehaved(c)
    ensures r == DecodeFrom(c, rawData, 0, None)
  {
    var reader := new DataReader(rawData);
    var newEvents: seq<TrackEvent<E>> := [];
    var runningStatus: Option<E> := None;
    ghost var pass := Pass(c, rawData);
    PrependNil(DecodeFrom(c, rawData, 0, None));
    while true
      invariant reader.data == rawData && 0 <= reader.readOffset <= |rawData|
      invariant Prepend(newEvents, Loop(pass, |rawData|, reader.readOffset, runningStatus)) ==
                DecodeFrom(c, rawData, 0, None)
      decreases |rawData| - reader.readOffset
    {
      ghost var start := reader.readOffset;
      var step := DecodeNextEvent(c, reader, runningStatus);
      match step
      case EndOfTrack =>
        assert newEvents + [] == newEvents;
        return Success(newEvents);
      case Stop(e) =>
        return Failure(e);
      case Decoded(ev, next, rs') =>
        PrependDecoded(pass, |rawData|, start, runningStatus, newEvents, ev, next, rs');
        newEvents := newEvents + [ev];
        runningStatus := rs';
    }
  }

  /** `init(midi1SMFRawBytesStream:)` up to the body: `MTrk`, a length, and that many bytes. */
  function TrackBody(stream: seq<Byte>): (r: Result<seq<Byte>, SmfError>)
    ensures |stream| < 8 ==> r == Failure(Malformed(EarlyEndOfData))
    ensures r.Success? ==>
              stream[..4] == AsciiBytes(TrackIdentifier) &&
              8 + FromBig(stream[4..8]) <= |stream| &&
              r.value == stream[8..8 + FromBig(stream[4..8])]
  {
    if |stream| < 8 then Failure(Malformed(EarlyEndOfData))
    else
      var id := AsciiString(stream[..4]);
      var idString := if id.Some? then id.value else "????";
      var length := FromBig(stream[4..8]);
      if idString != TrackIdentifier then Failure(Malformed(NotATrackChunk))
      else if |stream| - 8 < length then Failure(Malformed(EarlyEndOfData))
      else
        var body := Peek(stream, 8, Some(length));
        if body.Failure? then Failure(Malformed(EarlyEndOfData))
        else
          assert length == 0 ==> body.value.bytes == stream[8..8 + length];
          Success(body.value.bytes)
  }

  /** The whole stream decode: the chunk header, then the event loop over the body. */
  method DecodeTrack<E(!new)>(c: EventCodec<E>, stream: seq<Byte>) returns (r: Result<seq<TrackEvent<E>>, SmfError>)
    requires WellBehaved(c)
    ensures TrackBody(stream).Failure? ==> r == Failure(TrackBody(stream).error)
    ensures TrackBody(stream).Success? ==> r == DecodeFrom(c, TrackBody(stream).value, 0, None)
  {
    var body := TrackBody(stream);
    if body.Failure? {
      return Failure(body.error);
    }
    r := DecodeBody(c, body.value);
  }

  // ---------------------------------------------------------------------------
  // Encoding

  function EncodedEvent<E>(c: EventCodec<E>, e: TrackEvent<E>): seq<Byte>
  {
    c.encodeDelta(e.delta) + c.rawBytes(e.event)
  }

  /** Each event's delta time followed by its bytes, in order. */
  function EventBytes<E>(c: EventCodec<E>, events: seq<TrackEvent<E>>): seq<Byte>
  {
    if |events| == 0 then [] else EncodedEvent(c, events[0]) + EventBytes(c, events[1..])
  }

  lemma {:induction false} EventBytesAppend<E>(c: EventCodec<E>, events: seq<TrackEvent<E>>, e: TrackEvent<E>)
    ensures EventBytes(c, events + [e]) == EventBytes(c, events) + EncodedEvent(c, e)
  {
    if |events| > 0 {
      assert (events + [e])[1..] == events[1..] + [e];
      EventBytesAppend(c, events[1..], e);
    } else {
      assert events + [e] == [e];
    }
  }

  /** The chunk body: the events, then delta 0 and the end-of-track marker. */
  function BodyBytes<E>(c: EventCodec<E>, events: seq<TrackEvent<E>>): seq<Byte>
  {
    EventBytes(c, events) + c.encodeDelta(0) + ChunkEnd
  }

  /** `midi1SMFRawBytes(using:)`, one event at a time. */
  method EncodeTrack<E>(c: EventCodec<E>, events: seq<TrackEvent<E>>) returns (r: Result<seq<Byte>, SmfError>)
    ensures |BodyBytes(c, events)| >= MaxChunkLength ==> r == Failure(InternalInconsistency)
    ensures |BodyBytes(c, events)| < MaxChunkLength ==>
              r == Success(AsciiBytes(TrackIdentifier) + BigBytes(|BodyBytes(c, events)|, 4) + BodyBytes(c, events))
  {
    var bodyData: seq<Byte> := [];
    for i := 0 to |events|
      invariant bodyData == EventBytes(c, events[..i])
    {
      EventBytesAppend(c, events[..i], events[i]);
      assert events[..i + 1] == events[..i] + [events[i]];
      bodyData := bodyData + c.encodeDelta(events[i].delta) + c.rawBytes(events[i].event);
    }
    assert events[..|events|] == events;
    bodyData := bodyData + c.encodeDelta(0) + ChunkEnd;
    if |bodyData| < MaxChunkLength {
      r := Success(AsciiBytes(TrackIdentifier) + BigBytes(|bodyData|, 4) + bodyData);
    } else {
      r := Failure(InternalInconsistency);
    }
  }

  // ---------------------------------------------------------------------------
  // Round trip

  /**
   * The delta-time codec decodes, from the four bytes it is offered, the
   * value `d` encoded in at most four bytes at their front.
   */
  ghost predicate DeltaRoundTrips<E>(c: EventCodec<E>, d: nat)
  {
    var enc := c.encodeDelta(d);
    1 <= |enc| <= 4 && d < DeltaTimeLimit &&
    forall tail :: |enc + tail| == 4 ==> c.decodeDelta(enc + tail) == Some((d, |enc|))
  }

  /**
   * An event's bytes start with a status byte, fit the read-ahead buffer,
   * and are decoded back to the event from the front of any buffer.
   */
  ghost predicate EventRoundTrips<E>(c: EventCodec<E>, e: E)
  {
    var raw := c.rawBytes(e);
    1 <= |raw| <= ReadAheadLimit && raw[0] >= 0x80 &&
    forall tail :: c.decodeEvent(raw + tail) == Some((e, |raw|))
  }

  ghost predicate Encodable<E>(c: EventCodec<E>, events: seq<TrackEvent<E>>)
  {
    DeltaRoundTrips(c, 0) &&
    forall i :: 0 <= i < |events| ==> DeltaRoundTrips(c, events[i].delta) && EventRoundTrips(c, events[i].event)
  }

  /** The end-of-track marker after a zero delta ends the track. */
  lemma DecodeStepAtEnd<E>(c: EventCodec<E>, data: seq<Byte>, offset: nat, rs: Option<E>)
    requires WellBehaved(c) && DeltaRoundTrips(c, 0)
    requires offset <= |data| && data[offset..] == c.encodeDelta(0) + ChunkEnd
    ensures DecodeStep(c, data, offset, rs) == EndOfTrack
  {
    var enc := c.encodeDelta(0);
    ReadDeltaOfEncoding(c, data, offset, 0, ChunkEnd);
    DecodeStepAfterDelta(c, data, offset, rs, (0, |enc|));
    SuffixAfter(data, offset, enc, ChunkEnd);
    EndOfTrackMarker(c, data, offset + |enc|, 0, rs);
  }

  /** The delta time written in front of an event is read back. */
  lemma ReadDeltaOfEncoding<E>(c: EventCodec<E>, data: seq<Byte>, offset: nat, d: nat, rest: seq<Byte>)
    requires WellBehaved(c) && DeltaRoundTrips(c, d)
    requires offset <= |data| && data[offset..] == c.encodeDelta(d) + rest && |c.encodeDelta(d)| + |rest| >= 4
    ensures ReadDelta(c, data, offset) == Success((d, |c.encodeDelta(d)|))
  {
    var enc := c.encodeDelta(d);
    assert data[offset..offset + 4] == enc + rest[..4 - |enc|];
  }

  /** The bytes of an event, not the end marker, are decoded as that event. */
  lemma ReadEventOfEncoding<E>(c: EventCodec<E>, data: seq<Byte>, pos: nat, d: nat, rs: Option<E>,
                               e: E, rest: seq<Byte>, next: nat)
    requires WellBehaved(c) && EventRoundTrips(c, e) && d < DeltaTimeLimit
    requires pos <= |data| && data[pos..] == c.rawBytes(e) + rest && |rest| >= 4
    requires next == pos + |c.rawBytes(e)|
    ensures ReadEvent(c, data, pos, d, rs) == Decoded(TrackEvent(d, e), next, NextRunningStatus(c.rawBytes(e), e, rs))
  {
    var raw := c.rawBytes(e);
    var tail := data[pos..];
    var readAhead := Clamp(|data| - pos, 1, ReadAheadLimit);
    var buffer := data[pos..pos + readAhead];
    assert buffer == raw + buffer[|raw|..] by {
      assert buffer == tail[..readAhead];
    }
    assert buffer != ChunkEnd by {
      assert buffer[0] == raw[0];
    }
    assert RunningStatusByte(c, buffer, rs).None?;
  }

  lemma SuffixAfter(data: seq<Byte>, offset: nat, a: seq<Byte>, b: seq<Byte>)
    requires offset <= |data| && data[offset..] == a + b
    ensures offset + |a| <= |data| && data[offset + |a|..] == b
  {
    assert data[offset + |a|..] == data[offset..][|a|..];
  }

  /** The delta time of an encoded event is read back. */
  lemma ReadDeltaOfEncodedEvent<E>(c: EventCodec<E>, data: seq<Byte>, offset: nat, e: TrackEvent<E>, rest: seq<Byte>)
    requires WellBehaved(c) && DeltaRoundTrips(c, e.delta)
    requires offset <= |data| && data[offset..] == EncodedEvent(c, e) + rest && |rest| >= 4
    ensures ReadDelta(c, data, offset) == Success((e.delta, |c.encodeDelta(e.delta)|))
  {
    var raw := c.rawBytes(e.event);
    assert data[offset..] == c.encodeDelta(e.delta) + (raw + rest);
    ReadDeltaOfEncoding(c, data, offset, e.delta, raw + rest);
  }

  /** After its delta time, an encoded event is decoded as that event. */
  lemma ReadEventOfEncodedEvent<E>(c: EventCodec<E>, data: seq<Byte>, offset: nat, rs: Option<E>,
                                   e: TrackEvent<E>, rest: seq<Byte>)
    requires WellBehaved(c) && DeltaRoundTrips(c, e.delta) && EventRoundTrips(c, e.event)
    requires offset <= |data| && data[offset..] == EncodedEvent(c, e) + rest && |rest| >= 4
    ensures offset + |c.encodeDelta(e.delta)| <= |data|
    ensures ReadEvent(c, data, offset + |c.encodeDelta(e.delta)|, e.delta, rs) ==
              Decoded(e, offset + |EncodedEvent(c, e)|, NextRunningStatus(c.rawBytes(e.event), e.event, rs))
  {
    var enc := c.encodeDelta(e.delta);
    var raw := c.rawBytes(e.event);
    assert data[offset..] == enc + (raw + rest);
    SuffixAfter(data, offset, enc, raw + rest);
    ReadEventOfEncoding(c, data, offset + |enc|, e.delta, rs, e.event, rest, offset + |EncodedEvent(c, e)|);
  }

  /** One pass of the loop over an encoded event decodes that event. */
  lemma DecodeStepOfEncoding<E>(c: EventCodec<E>, data: seq<Byte>, offset: nat, rs: Option<E>,
                                e: TrackEvent<E>, rest: seq<Byte>)
    requires WellBehaved(c) && DeltaRoundTrips(c, e.delta) && EventRoundTrips(c, e.event)
    requires offset <= |data| && data[offset..] == EncodedEvent(c, e) + rest && |rest| >= 4
    ensures DecodeStep(c, data, offset, rs) ==
              Decoded(e, offset + |EncodedEvent(c, e)|, NextRunningStatus(c.rawBytes(e.event), e.event, rs))
  {
    ReadDeltaOfEncodedEvent(c, data, offset, e, rest);
    ReadEventOfEncodedEvent(c, data, offset, rs, e, rest);
  }

  lemma BodyBytesCons<E>(c: EventCodec<E>, events: seq<TrackEvent<E>>)
    requires |events| > 0
    ensures BodyBytes(c, events) == EncodedEvent(c, events[0]) + BodyBytes(c, events[1..])
    ensures |BodyBytes(c, events[1..])| >= 3
  {
  }

  lemma EncodableTail<E>(c: EventCodec<E>, events: seq<TrackEvent<E>>)
    requires |events| > 0 && Encodable(c, events)
    ensures Encodable(c, events[1..])
    ensures DeltaRoundTrips(c, events[0].delta) && EventRoundTrips(c, events[0].event)
  {
    forall i | 0 <= i < |events[1..]|
      ensures DeltaRoundTrips(c, events[1..][i].delta) && EventRoundTrips(c, events[1..][i].event)
    {
      assert events[1..][i] == events[i + 1];
    }
  }

  /** The encoded event `e` starts at `offset`, with at least four more bytes after it. */
  ghost predicate EncodedAt<E>(c: EventCodec<E>, data: seq<Byte>, offset: nat, e: TrackEvent<E>)
  {
    DeltaRoundTrips(c, e.delta) && EventRoundTrips(c, e.event) &&
    offset + |EncodedEvent(c, e)| + 4 <= |data| &&
    data[offset..offset + |EncodedEvent(c, e)|] == EncodedEvent(c, e)
  }

  /** A zero delta and the end-of-track marker make up the rest of the data from `offset`. */
  ghost predicate EndAt<E>(c: EventCodec<E>, data: seq<Byte>, offset: nat)
  {
    DeltaRoundTrips(c, 0) && offset <= |data| && data[offset..] == c.encodeDelta(0) + ChunkEnd
  }

  /** The pass decodes every encoded event and stops at the encoded end of the track. */
  ghost predicate FollowsEncoding<E(!new)>(pass: (nat, Option<E>) -> Step<E>, c: EventCodec<E>, data: seq<Byte>)
  {
    (forall o: nat, rs: Option<E>, e: TrackEvent<E> {:trigger EncodedAt(c, data, o, e), pass(o, rs)} ::
       EncodedAt(c, data, o, e) ==>
         pass(o, rs) == Decoded(e, o + |EncodedEvent(c, e)|, NextRunningStatus(c.rawBytes(e.event), e.event, rs))) &&
    (forall o: nat, rs: Option<E> :: EndAt(c, data, o) ==> pass(o, rs) == EndOfTrack)
  }

  /** The track decoder's pass follows the encoding. */
  lemma PassFollowsEncoding<E(!new)>(c: EventCodec<E>, data: seq<Byte>)
    requires WellBehaved(c)
    ensures FollowsEncoding(Pass(c, data), c, data)
  {
    var pass := Pass(c, data);
    forall o: nat, rs: Option<E>, e: TrackEvent<E> | EncodedAt(c, data, o, e)
      ensures pass(o, rs) == Decoded(e, o + |EncodedEvent(c, e)|, NextRunningStatus(c.rawBytes(e.event), e.event, rs))
    {
      var n := |EncodedEvent(c, e)|;
      assert data[o..] == EncodedEvent(c, e) + data[o + n..];
      DecodeStepOfEncoding(c, data, o, rs, e, data[o + n..]);
    }
    forall o: nat, rs: Option<E> | EndAt(c, data, o)
      ensures pass(o, rs) == EndOfTrack
    {
      DecodeStepAtEnd(c, data, o, rs);
    }
  }

  /** After the first encoded event come the bytes of the remaining events. */
  lemma BodyTail<E>(c: EventCodec<E>, events: seq<TrackEvent<E>>, data: seq<Byte>, offset: nat)
    requires Encodable(c, events) && |events| > 0
    requires offset <= |data| && data[offset..] == BodyBytes(c, events)
    ensures Encodable(c, events[1..])
    ensures EncodedAt(c, data, offset, events[0])
    ensures var next := offset + |EncodedEvent(c, events[0])|;
            next <= |data| && data[next..] == BodyBytes(c, events[1..])
  {
    var e := events[0];
    var n := |EncodedEvent(c, e)|;
    BodyBytesCons(c, events);
    EncodableTail(c, events);
    SuffixAfter(data, offset, EncodedEvent(c, e), BodyBytes(c, events[1..]));
    assert |c.encodeDelta(0)| >= 1;
    assert data[offset..offset + n] == data[offset..][..n];
  }

  /** A loop whose pass follows the encoding decodes an encoded body to its events. */
  lemma {:induction false} LoopOfEncoding<E(!new)>(pass: (nat, Option<E>) -> Step<E>, c: EventCodec<E>,
                                             events: seq<TrackEvent<E>>, data: seq<Byte>, offset: nat, rs: Option<E>)
    requires Advances(pass, |data|) && FollowsEncoding(pass, c, data) && Encodable(c, events)
    requires offset <= |data| && data[offset..] == BodyBytes(c, events)
    ensures Loop(pass, |data|, offset, rs) == Success(events)
    decreases |events|
  {
    if |events| == 0 {
      assert EndAt(c, data, offset);
    } else {
      var e := events[0];
      var next := offset + |EncodedEvent(c, e)|;
      var rs' := NextRunningStatus(c.rawBytes(e.event), e.event, rs);
      BodyTail(c, events, data, offset);
      assert pass(offset, rs) == Decoded(e, next, rs');
      LoopOfEncoding(pass, c, events[1..], data, next, rs');
      assert [e] + events[1..] == events;
    }
  }

  /** Decoding the body of an encoded track gives back its events. */
  lemma DecodeEncodedEvents<E(!new)>(c: EventCodec<E>, events: seq<TrackEvent<E>>, data: seq<Byte>)
    requires WellBehaved(c) && Encodable(c, events) && data == BodyBytes(c, events)
    ensures DecodeFrom(c, data, 0, None) == Success(events)
  {
    PassFollowsEncoding(c, data);
    LoopOfEncoding(Pass(c, data), c, events, data, 0, None);
  }

  /** The chunk header written by the encoder leads the stream decoder to the body. */
  lemma TrackBodyOfEncoding(body: seq<Byte>)
    requires |body| < MaxChunkLength
    ensures TrackBody(AsciiBytes(TrackIdentifier) + BigBytes(|body|, 4) + body) == Success(body)
  {
    var stream := AsciiBytes(TrackIdentifier) + BigBytes(|body|, 4) + body;
    assert stream[..4] == AsciiBytes(TrackIdentifier);
    AsciiStringOfBytes(TrackIdentifier);
    assert stream[4..8] == BigBytes(|body|, 4);
    assert MaxChunkLength == Radix(4);
    FromBigBytes(|body|, 4);
    assert stream[8..8 + |body|] == body;
  }

  /**
   * Decoding what the encoder writes gives the track's events back, for
   * events whose codecs round-trip.
   */
  lemma TrackRoundTrip<E(!new)>(c: EventCodec<E>, events: seq<TrackEvent<E>>)
    requires WellBehaved(c) && Encodable(c, events)
    requires |BodyBytes(c, events)| < MaxChunkLength
    ensures TrackBody(AsciiBytes(TrackIdentifier) + BigBytes(|BodyBytes(c, events)|, 4) + BodyBytes(c, events)) ==
              Success(BodyBytes(c, events))
    ensures DecodeFrom(c, BodyBytes(c, events), 0, None) == Success(events)
  {
    TrackBodyOfEncoding(BodyBytes(c, events));
    DecodeEncodedEvents(c, events, BodyBytes(c, events));
  }
}
