# MIDIKit core, modelled in Dafny

MIDIKit is a Swift library for MIDI 1.0 and MIDI 2.0: it turns raw MIDI 1.0 byte streams and Universal MIDI Packets (UMP) into typed events, holds the small integer types MIDI uses (UInt4, UInt7, UInt9, UInt14, Int7), reads and writes Standard MIDI File chunks, generates MIDI Timecode (MTC), and decodes the Mackie HUI control-surface protocol. This project models the byte-level and state-machine core of that library and proves what its code promises.

The model follows the source file by file, one Dafny module per component:

- `Wrappers`, `Bits`, `ByteOrder`, `DataReader`: results and options, bit arithmetic written with `/` and `%`, big- and little-endian integer bytes, and the passive data reader (a class with a read offset).
- `SmfChunks`, `SmfTrack`: Standard MIDI File header, track and unrecognised chunks, with encode/decode round trips and the track decode loop.
- `Timespec`: `timespec` addition, subtraction and ordering with nanosecond carry.
- `MidiUnsignedInteger`, `Int7`, `LegacyIntegers`: MIDIKit's range-checked integer types, both generations.
- `MusicalTime`, `MidiNote`, `ControllerChange`, `EventFilter`, `OSStatus`: musical time values, note numbers and names, controller numbers, event filters and Core MIDI status codes; `MidiTypes` holds the in-range integer types the event models share.
- `MtcFrameRate`, `MtcEncoder`: MTC frame rates and the quarter-frame / full-frame encoder (a class).
- `HuiTables`, `HuiLookups`, `HuiWire`, `HuiCoreDecoder`, `HuiParser`, `HuiLegacyParser`: HUI zone/port tables, switch and parameter lookups, wire encodings, and the three generations of the HUI decoder.
- `Midi1Parser`, `Midi1EventParser`: the two MIDI 1.0 stream parsers with running status.
- `UmpFields`, `Midi2Parser`, `Midi2ParserProperties`, `Midi2StaticParser`: UMP field layout, the two stateful MIDI 2.0 parsers (as one model with an `Edition` switch), their round-trip and multi-packet SysEx properties, and the oldest stateless MIDI 2.0 parser.
- `ParameterNumberBundler`: the RPN/NRPN event bundler that joins two-packet parameter-number series.

Where a Swift operation would trap (a failed `fatalError`, an integer overflow, an out-of-range index), the model returns an explicit error value instead of requiring the caller to avoid it. Collaborators whose code is not part of this model (variable-length quantity codecs, SysEx event constructors, Timecode arithmetic, character tables) are passed in as function or record parameters. Where the general description of the library and its code disagree, the model follows the code.

## Model

| member | source | states |
|---|---|---|
| ByteOrder.FromLittleBytes | Sources/MIDIKitInternals/Utilities/Outsourced/Data.swift:414-418 | reading back the little-endian image of an n-byte value gives the value |
| ByteOrder.LittleBytesFrom | Sources/MIDIKitInternals/Utilities/Outsourced/Data.swift:414-418 | every n-byte image is the image of the value it reads as |
| ByteOrder.LoadStore | Sources/MIDIKitInternals/Utilities/Outsourced/Data.swift:386-392 | copying an integer's memory image out and back in, on either system byte order, gives the integer back |
| ByteOrder.ByteSwapped | Sources/MIDIKitInternals/Utilities/Outsourced/Data.swift:431 | `byteSwapped` stays an n-byte value |
| ByteOrder.ByteSwappedInvolutive | Sources/MIDIKitInternals/Utilities/Outsourced/Data.swift:431 | swapping the bytes twice gives the value back |
| ByteOrder.ByteSwappedImage | Sources/MIDIKitInternals/Utilities/Outsourced/Data.swift:376-380 | the little-endian image of the swapped value is the reversed image of the value, and back |
| ByteOrder.ToData | Sources/MIDIKitInternals/Utilities/Outsourced/Data.swift:373-393 | `toData` has exactly n bytes: the little-endian image for `.littleEndian`, its reverse for `.bigEndian`, the system's memory image for `.platformDefault` |
| ByteOrder.ToNumber | Sources/MIDIKitInternals/Utilities/Outsourced/Data.swift:400-446 | `toNumber` is nil exactly when the byte count differs from the type's size, and otherwise fits the type |
| ByteOrder.ToNumberToData | Sources/MIDIKitInternals/Utilities/Outsourced/Data.swift:373-446 | for every byte order and system order, `toNumber(toData(v))` is `v` |
| ByteOrder.BigIsReversedLittle | Sources/MIDIKitInternals/Utilities/Outsourced/Data.swift:376-380 | the big-endian bytes are the little-endian bytes reversed |
| ByteOrder.BigEndianRead | Sources/MIDIKitInternals/Utilities/Outsourced/Data.swift:436-444 | reading `.bigEndian` gives the most-significant-byte-first value on either system order |
| ByteOrder.FromBigBytes | Sources/MIDIKitInternals/Utilities/Outsourced/Data.swift:436-444 | the most-significant-first reading of the big-endian image gives the value back |
| ByteOrder.SignedBitPattern | Sources/MIDIKitInternals/Utilities/Outsourced/Data.swift:58 | reading a signed value's bit pattern as two's complement gives the value |
| ByteOrder.ToUInt8 | Sources/MIDIKitInternals/Utilities/Outsourced/Data.swift:112-115 | `toUInt8` is the single byte when there is exactly one byte, nil otherwise |
| ByteOrder.ToInt8 | Sources/MIDIKitInternals/Utilities/Outsourced/Data.swift:51-59 | `toInt8` is defined exactly for one byte, lies in -128..127 and has that byte as its bit pattern |
| ByteOrder.SignedRoundTrip | Sources/MIDIKitInternals/Utilities/Outsourced/Data.swift:68-94 | a signed integer written with `toData` reads back (`toInt16`/`toInt32`/`toInt64`) as itself in every byte order |
| DataReaders.Peek | Sources/MIDIKitInternals/Utilities/Outsourced/PassiveDataReader.swift:104-133 | a zero count gives no bytes and no advance; a negative count is `invalidByteCount`; a success returns exactly the bytes from the offset on and advances by the count (by the rest of the data when the count is nil); asking for more than remains fails, any count that fits succeeds |
| DataReaders.ReadRestAtEnd | Sources/MIDIKitInternals/Utilities/Outsourced/PassiveDataReader.swift:114-127 | reading "the rest" at the very end of the data is `pastEndOfStream`, while a zero-byte read there succeeds |
| DataReaders.PeekByte | Sources/MIDIKitInternals/Utilities/Outsourced/PassiveDataReader.swift:98-102 | a byte is read exactly when the offset is inside the data, and it is the byte at the offset; past the end is `pastEndOfStream` |
| DataReaders.PeekByteAgrees | Sources/MIDIKitInternals/Utilities/Outsourced/PassiveDataReader.swift:98-133 | reading one byte and reading a one-byte block succeed together and agree |
| DataReaders.DataReader.constructor | Sources/MIDIKitInternals/Utilities/Outsourced/PassiveDataReader.swift:32-39 | a new reader over the data starts at offset 0 |
| DataReaders.DataReader.RemainingByteCount | Sources/MIDIKitInternals/Utilities/Outsourced/PassiveDataReader.swift:42 | offset plus remaining count is the data length |
| DataReaders.DataReader.Reset | Sources/MIDIKitInternals/Utilities/Outsourced/PassiveDataReader.swift:45-47 | the offset goes back to 0 |
| DataReaders.DataReader.AdvanceBy | Sources/MIDIKitInternals/Utilities/Outsourced/PassiveDataReader.swift:53-55 | the offset moves by the count, unchecked |
| DataReaders.DataReader.ReadByte | Sources/MIDIKitInternals/Utilities/Outsourced/PassiveDataReader.swift:60-64 | returns the byte at the offset (or the error) and advances by one only on success |
| DataReaders.DataReader.NonAdvancingReadByte | Sources/MIDIKitInternals/Utilities/Outsourced/PassiveDataReader.swift:68-70 | succeeds exactly inside the data, with the byte at the offset, and moves nothing |
| DataReaders.DataReader.Read | Sources/MIDIKitInternals/Utilities/Outsourced/PassiveDataReader.swift:77-81 | returns the block `Peek` describes and advances by its count; on an error nothing moves |
| DataReaders.DataReader.NonAdvancingRead | Sources/MIDIKitInternals/Utilities/Outsourced/PassiveDataReader.swift:86-88 | succeeds exactly when the block read does, with the same bytes |
| DataReaders.ConsecutiveReads | Sources/MIDIKitInternals/Utilities/Outsourced/PassiveDataReader.swift:77-81 | two reads in a row return the same bytes as one read of the combined length |
| SmfChunks.AsciiBytes | Sources/MIDIKitSMF/MIDIFile/Chunk/Header.swift:118 | the call site's `toASCIIBytes` is modelled as one byte per character, the character's code for an ASCII one (an assumption: the helper's source is not part of this model) |
| SmfChunks.AsciiString | Sources/MIDIKitSMF/MIDIFile/Chunk/UnrecognizedChunk.swift:87 | the call site's `asciiDataToString` is modelled as succeeding exactly when every byte is ASCII, with a string that maps back to the same bytes (an assumption: the helper's source is not part of this model) |
| SmfChunks.AsciiStringOfBytes | Sources/MIDIKitSMF/MIDIFile/Chunk/UnrecognizedChunk.swift:87 | an ASCII string's bytes read back as the same string |
| SmfChunks.ToAscii | Sources/MIDIKitSMF/MIDIFile/Chunk/UnrecognizedChunk.swift:36 | the call site's `convertToASCII` is modelled as keeping the length, yielding ASCII only and leaving an ASCII string unchanged (an assumption: the helper's source is not part of this model) |
| SmfChunks.FormatOfRawValue | Sources/MIDIKitSMF/MIDIFile/Chunk/Header.swift:142-151 | a format is read exactly for raw values 0, 1 and 2, and maps back to that raw value |
| SmfChunks.FormatRawValue | Sources/MIDIKitSMF/MIDIFile/Chunk/Header.swift:209 | the raw format value written is at most 2, 0 exactly for a single-track file and 1 exactly for a synchronous multi-track file; FormatOfRawValue reads it back |
| SmfChunks.DecodeHeader | Sources/MIDIKitSMF/MIDIFile/Chunk/Header.swift:108-187 | fewer than 14 bytes is "not a MIDI file"; a decoded header means "MThd", a big-endian length of 6, the raw format, a decodable time base and, for format 0, a track count of 1; format 0 with any other count is rejected |
| SmfChunks.SixAsInt32 | Sources/MIDIKitSMF/MIDIFile/Chunk/Header.swift:134 | the bytes 00 00 00 06 read big-endian as 6 |
| SmfChunks.HeaderLengthBytes | Sources/MIDIKitSMF/MIDIFile/Chunk/Header.swift:125-138 | the only 4-byte length field that reads as the signed 32-bit value 6 is 00 00 00 06 |
| SmfChunks.EncodeHeader | Sources/MIDIKitSMF/MIDIFile/Chunk/Header.swift:191-238 | format 0 with a chunk count other than 1 throws; a count that does not fit 16 bits traps; otherwise "MThd", 00 00 00 06, format, count (both big-endian) and the raw time base |
| SmfChunks.HeaderRoundTrip | Sources/MIDIKitSMF/MIDIFile/Chunk/Header.swift:108-238 | decoding an encoded header gives the header back when the time base round-trips |
| SmfChunks.DecodeHeaderAccepts | Sources/MIDIKitSMF/MIDIFile/Chunk/Header.swift:108-187 | every byte string of the header layout decodes to the header it describes |
| SmfChunks.SingleTrackCountRejected | Sources/MIDIKitSMF/MIDIFile/Chunk/Header.swift:179-185 | a format-0 header with a track count other than 1 is refused by both the encoder and the decoder |
| SmfChunks.NormaliseIdentifierAsWritten | Sources/MIDIKitSMF/MIDIFile/Chunk/UnrecognizedChunk.swift:24-50 | `init(id:)` as written: a reserved id becomes "----", a 4-character id is kept, others are padded with "-" or cut to 4 |
| SmfChunks.TruncationReachesReserved | Sources/MIDIKitSMF/MIDIFile/Chunk/UnrecognizedChunk.swift:27-41 | "MThdX" passes the reserved check and is then cut to "MThd" |
| SmfChunks.NormaliseIdentifier | Sources/MIDIKitSMF/MIDIFile/Chunk/UnrecognizedChunk.swift:24-50 | the corrected normalisation always gives 4 characters that are not reserved, and agrees with the code whenever the code's result is not reserved |
| SmfChunks.MakeUnrecognized | Sources/MIDIKitSMF/MIDIFile/Chunk/UnrecognizedChunk.swift:24-50 | corrected `init(id:rawData:)` (identifier through the corrected NormaliseIdentifier of the Findings): the chunk has a non-reserved 4-character identifier and the given data, or none for nil; as written, "MThdX" becomes the reserved "MThd" |
| SmfChunks.DecodeUnrecognized | Sources/MIDIKitSMF/MIDIFile/Chunk/UnrecognizedChunk.swift:66-108 | fewer than 8 bytes is an early end; a decoded chunk's data is exactly the big-endian length's worth of bytes after the header; a length beyond the stream fails |
| SmfChunks.EncodeUnrecognized | Sources/MIDIKitSMF/MIDIFile/Chunk/UnrecognizedChunk.swift:110-136 | encoding succeeds exactly when the data fits a 32-bit length, and writes the identifier, that length big-endian, then the data |
| SmfChunks.UnrecognizedRoundTrip | Sources/MIDIKitSMF/MIDIFile/Chunk/UnrecognizedChunk.swift:66-136 | decoding an encoded chunk (whatever follows it) gives the chunk back |
| SmfTrack.NextRunningStatus | Sources/MIDIKitSMF/MIDIFile/Chunk/Track.swift:200-211 | a decoded event whose first byte is 80-EF becomes the running status, F0-F7 clears it, anything else leaves it |
| SmfTrack.RunningStatusByte | Sources/MIDIKitSMF/MIDIFile/Chunk/Track.swift:154-166 | a running-status byte is injected exactly when the buffer starts with a data byte and a running-status event with bytes exists; it is that event's first byte |
| SmfTrack.ReadDelta | Sources/MIDIKitSMF/MIDIFile/Chunk/Track.swift:115-130 | fewer than 4 bytes left is an early end; a decoded delta time takes 1 to 4 bytes |
| SmfTrack.ReadEvent | Sources/MIDIKitSMF/MIDIFile/Chunk/Track.swift:135-233 | a decoded event carries the delta time and moves the position forward within the data |
| SmfTrack.EndOfTrackMarker | Sources/MIDIKitSMF/MIDIFile/Chunk/Track.swift:145-150 | the end of the track is found exactly when the remaining bytes are FF 2F 00 |
| SmfTrack.DecodeStep | Sources/MIDIKitSMF/MIDIFile/Chunk/Track.swift:110-233 | one pass of the loop always moves forward when it decodes an event, and fails with an early end when fewer than 4 bytes remain |
| SmfTrack.DecodeStepAfterDelta | Sources/MIDIKitSMF/MIDIFile/Chunk/Track.swift:115-136 | after a delta time is read, the event is read right behind it |
| SmfTrack.Pass | Sources/MIDIKitSMF/MIDIFile/Chunk/Track.swift:110-233 | the loop body over the data moves the offset forward |
| SmfTrack.PrependDecoded | Sources/MIDIKitSMF/MIDIFile/Chunk/Track.swift:197 | decoding one more event and appending it gives the same track as continuing the loop from the earlier offset |
| SmfTrack.ReadDeltaTime | Sources/MIDIKitSMF/MIDIFile/Chunk/Track.swift:115-130 | the method reads the delta time that `ReadDelta` describes and advances the reader by its length |
| SmfTrack.ReadEventAt | Sources/MIDIKitSMF/MIDIFile/Chunk/Track.swift:135-233 | the method decodes the event that `ReadEvent` describes and leaves the reader right after it |
| SmfTrack.DecodeNextEvent | Sources/MIDIKitSMF/MIDIFile/Chunk/Track.swift:110-233 | one loop pass of the method is `DecodeStep` and leaves the reader at the next event |
| SmfTrack.DecodeBody | Sources/MIDIKitSMF/MIDIFile/Chunk/Track.swift:96-238 | the `while !endOfChunk` loop returns exactly the events (or the error) `DecodeFrom` gives from offset 0 with no running status |
| SmfTrack.TrackBody | Sources/MIDIKitSMF/MIDIFile/Chunk/Track.swift:48-93 | fewer than 8 bytes is an early end; a track body is "MTrk" followed by a big-endian length and exactly that many bytes |
| SmfTrack.DecodeTrack | Sources/MIDIKitSMF/MIDIFile/Chunk/Track.swift:48-93 | a header error is returned as is; otherwise the events of the body |
| SmfTrack.EventBytesAppend | Sources/MIDIKitSMF/MIDIFile/Chunk/Track.swift:249-253 | encoding one more event appends its delta time and bytes |
| SmfTrack.EncodeTrack | Sources/MIDIKitSMF/MIDIFile/Chunk/Track.swift:242-279 | a body of 2^32 bytes or more throws; otherwise "MTrk", the big-endian body length and the body (events, then delta 0 and FF 2F 00) |
| SmfTrack.DecodeStepAtEnd | Sources/MIDIKitSMF/MIDIFile/Chunk/Track.swift:145-150 | at delta 0 followed by FF 2F 00 the loop stops with the end of the track |
| SmfTrack.ReadDeltaOfEncoding | Sources/MIDIKitSMF/MIDIFile/Chunk/Track.swift:115-130 | an encoded delta time reads back as itself with its own length |
| SmfTrack.ReadEventOfEncoding | Sources/MIDIKitSMF/MIDIFile/Chunk/Track.swift:175-211 | an encoded event reads back as itself, after its bytes, with the running status updated |
| SmfTrack.ReadDeltaOfEncodedEvent | Sources/MIDIKitSMF/MIDIFile/Chunk/Track.swift:115-130 | the delta time of an encoded event reads back |
| SmfTrack.ReadEventOfEncodedEvent | Sources/MIDIKitSMF/MIDIFile/Chunk/Track.swift:135-211 | the event behind the delta time of an encoded event reads back |
| SmfTrack.DecodeStepOfEncoding | Sources/MIDIKitSMF/MIDIFile/Chunk/Track.swift:110-211 | one loop pass over an encoded event decodes it and lands on the next one |
| SmfTrack.BodyBytesCons | Sources/MIDIKitSMF/MIDIFile/Chunk/Track.swift:249-256 | the body is the first event's bytes followed by the body of the rest, never shorter than the end marker |
| SmfTrack.PassFollowsEncoding | Sources/MIDIKitSMF/MIDIFile/Chunk/Track.swift:110-233 | the loop body follows the encoding: it decodes each encoded event and stops at the end marker |
| SmfTrack.BodyTail | Sources/MIDIKitSMF/MIDIFile/Chunk/Track.swift:249-256 | after the first encoded event the data holds the body of the remaining events |
| SmfTrack.LoopOfEncoding | Sources/MIDIKitSMF/MIDIFile/Chunk/Track.swift:110-236 | the loop over an encoded body returns exactly the encoded events |
| SmfTrack.DecodeEncodedEvents | Sources/MIDIKitSMF/MIDIFile/Chunk/Track.swift:96-256 | decoding the body of encodable events gives the events back |
| SmfTrack.TrackBodyOfEncoding | Sources/MIDIKitSMF/MIDIFile/Chunk/Track.swift:48-93 | the header that `EncodeTrack` writes reads back to the same body |
| SmfTrack.TrackRoundTrip | Sources/MIDIKitSMF/MIDIFile/Chunk/Track.swift:48-279 | an encoded track reads back to the same body and the same events |
| SmfTrack.ReadAheadHidesLongEvent | Sources/MIDIKitSMF/MIDIFile/Chunk/Track.swift:135-220 | the event decoders are offered at most 512 bytes, so an event they cannot decode from its first 512 bytes is rejected as unexpected data |
| Timespecs.Add | Sources/MIDIKitInternals/Utilities/Outsourced/Timespec.swift:75-80 | `+` denotes the sum of the two instants and keeps normalised values normalised |
| Timespecs.Sub | Sources/MIDIKitInternals/Utilities/Outsourced/Timespec.swift:84-97 | `-` denotes the difference of the two instants (with the roll-under branch) and keeps normalised values normalised |
| Timespecs.SubThenAdd | Sources/MIDIKitInternals/Utilities/Outsourced/Timespec.swift:75-97 | subtracting and adding back the same normalised value gives the original |
| Timespecs.SameInstant | Sources/MIDIKitInternals/Utilities/Outsourced/Timespec.swift:100-105 | two normalised values denoting the same instant are equal field by field |
| Timespecs.LessIsEarlier | Sources/MIDIKitInternals/Utilities/Outsourced/Timespec.swift:113-123 | on normalised values `<` means an earlier instant and `==` the same instant |
| Timespecs.GreaterIsNotEarlier | Sources/MIDIKitInternals/Utilities/Outsourced/Timespec.swift:126-128 | `>` is written as `!(<)`: it means "not earlier" and holds for a value and itself |
| Timespecs.TotalNanos | Sources/MIDIKitInternals/Utilities/Outsourced/Timespec.swift:100-123 | the instant a normalised value denotes splits back into its seconds (whole billions) and its nanoseconds (the remainder), so equality and order of instants are those of the field pairs |
| MidiUnsignedInteger.WidthConstants | Sources/MIDIKitCore/Types/UInt4.swift:37 | UInt4, UInt7, UInt9 and UInt14 (4, 7, 9 and 14 bits wide) have maxima 15, 127, 511 and 16383 and storage maxima 255, 255, 65535 and 65535 |
| MidiUnsignedInteger.MaxWithinStorage | Sources/MIDIKitCore/Types/MIDIUnsignedInteger.swift:202-205 | the maximum of every width fits its storage |
| MidiUnsignedInteger.MaxAs | Sources/MIDIKitCore/Types/MIDIUnsignedInteger.swift:202-205 | the loop that ORs in one bit per bit of the width computes the maximum 2^bits - 1 |
| MidiUnsignedInteger.Make | Sources/MIDIKitCore/Types/MIDIUnsignedInteger.swift:63-71 | `init(_:)` succeeds exactly in range with the same value; below 0 traps with underflow, above the maximum with overflow |
| MidiUnsignedInteger.Exactly | Sources/MIDIKitCore/Types/MIDIUnsignedInteger.swift:247-254 | `init?(exactly:)` is the value exactly when it is in range, nil otherwise |
| MidiUnsignedInteger.Clamping | Sources/MIDIKitCore/Types/MIDIUnsignedInteger.swift:77-83 | `init(clamping:)` is always in range: the value itself in range, 0 below, the maximum above |
| MidiUnsignedInteger.ClampingIsNearest | Sources/MIDIKitCore/Types/MIDIUnsignedInteger.swift:77-83 | the clamped value is the in-range value nearest to the source |
| MidiUnsignedInteger.MakeAgreesWithExactly | Sources/MIDIKitCore/Types/MIDIUnsignedInteger.swift:63-83 | the trapping, exact and clamping initialisers agree wherever the first two succeed |
| MidiUnsignedInteger.TruncatingIfNeeded | Sources/MIDIKitCore/Types/MIDIUnsignedInteger.swift:73-75 | `init(truncatingIfNeeded:)` truncates to the storage width and then range-checks: it never underflows, succeeds exactly when the truncated value is in range, and is congruent to the source |
| MidiUnsignedInteger.TruncatingIfNeededTraps | Sources/MIDIKitCore/Types/MIDIUnsignedInteger.swift:73-75 | UInt7(truncatingIfNeeded: 200) traps, where a 7-bit truncation would give 72 |
| MidiUnsignedInteger.Truncating | Sources/MIDIKitCore/Types/MIDIUnsignedInteger.swift:73-75 | the truncation to the value's own width the initialiser's name suggests: in range, congruent modulo 2^bits, and the identity in range |
| MidiUnsignedInteger.Decode | Sources/MIDIKitCore/Types/MIDIUnsignedInteger.swift:145-157 | decoding a stored value succeeds exactly in range, with that value, and fails with data corrupted otherwise |
| MidiUnsignedInteger.DecodeEncode | Sources/MIDIKitCore/Types/MIDIUnsignedInteger.swift:139-157 | decoding an encoded value gives it back |
| MidiUnsignedInteger.StorageResult | Sources/MIDIKitCore/Types/MIDIUnsignedInteger.swift:270-278 | arithmetic first computes in the storage type, which traps outside 0..storage max, then range-checks |
| MidiUnsignedInteger.Add | Sources/MIDIKitCore/Types/MIDIUnsignedInteger.swift:270-272 | `+` succeeds exactly when the sum is at most the maximum, with the sum; for the MIDI widths the failure is an overflow trap |
| MidiUnsignedInteger.Sub | Sources/MIDIKitCore/Types/MIDIUnsignedInteger.swift:276-278 | `-` succeeds exactly when the result is not negative, and then gives the difference; otherwise the storage subtraction traps |
| MidiUnsignedInteger.Mul | Sources/MIDIKitCore/Types/MIDIUnsignedInteger.swift:256-258 | `*` succeeds exactly when the product is at most the maximum; it traps in the storage type exactly when the product exceeds the storage maximum |
| MidiUnsignedInteger.UInt7ProductTrapsInStorage | Sources/MIDIKitCore/Types/MIDIUnsignedInteger.swift:256-258 | 127 * 127 traps in the storage multiply, 12 * 12 in the range check |
| MidiUnsignedInteger.Div | Sources/MIDIKitCore/Types/MIDIUnsignedInteger.swift:302-304 | `/` is defined exactly for a non-zero divisor and never exceeds the dividend |
| MidiUnsignedInteger.Rem | Sources/MIDIKitCore/Types/MIDIUnsignedInteger.swift:310-312 | `%` is defined exactly for a non-zero divisor and lies below the divisor and at most the dividend |
| MidiUnsignedInteger.DivRemRecompose | Sources/MIDIKitCore/Types/MIDIUnsignedInteger.swift:302-312 | quotient times divisor plus remainder is the dividend |
| MidiUnsignedInteger.StorageShiftLeft | Sources/MIDIKitCore/Types/MIDIUnsignedInteger.swift:314-317 | `<<` shifts in the storage width (bits shifted out are lost); a negative count shifts right |
| MidiUnsignedInteger.ShiftLeft | Sources/MIDIKitCore/Types/MIDIUnsignedInteger.swift:314-317 | `<<` succeeds exactly when the storage result is in range, otherwise traps with overflow |
| MidiUnsignedInteger.ShiftLeftExact | Sources/MIDIKitCore/Types/MIDIUnsignedInteger.swift:314-317 | a shift whose result fits gives value * 2^n |
| MidiUnsignedInteger.ShiftRight | Sources/MIDIKitCore/Types/MIDIUnsignedInteger.swift:319-322 | `>>` always succeeds and never grows the value |
| MidiUnsignedInteger.ShiftRightUndoesShiftLeft | Sources/MIDIKitCore/Types/MIDIUnsignedInteger.swift:314-322 | shifting right undoes a left shift that fits |
| MidiUnsignedInteger.Not | Sources/MIDIKitCore/Types/MIDIUnsignedInteger.swift:340-343 | `~` masked to the width is in range and equals max - value |
| MidiUnsignedInteger.ComplementMask | Sources/MIDIKitCore/Types/MIDIUnsignedInteger.swift:340-343 | the storage complement ANDed with the maximum equals max - value |
| MidiUnsignedInteger.NotInvolutive | Sources/MIDIKitCore/Types/MIDIUnsignedInteger.swift:340-343 | complementing twice gives the value back |
| MidiUnsignedInteger.Distance | Sources/MIDIKitCore/Types/MIDIUnsignedInteger.swift:191-193 | `distance(to:)` is the signed difference: value plus distance is the other value |
| MidiUnsignedInteger.Advanced | Sources/MIDIKitCore/Types/MIDIUnsignedInteger.swift:187-189 | `advanced(by:)` converts the step to the type first: a negative step traps with underflow, and it succeeds exactly when the step is non-negative and the sum in range |
| MidiUnsignedInteger.AdvancedBackwardTraps | Sources/MIDIKitCore/Types/MIDIUnsignedInteger.swift:187-189 | advancing 5 by -1 traps, where stepping back would give 4 |
| MidiUnsignedInteger.AdvancedChecked | Sources/MIDIKitCore/Types/MIDIUnsignedInteger.swift:187-193 | the stride the protocol promises: succeeds exactly when value + n is in range |
| MidiUnsignedInteger.AdvancedByDistance | Sources/MIDIKitCore/Types/MIDIUnsignedInteger.swift:187-193 | advancing by the distance reaches the other value, and the as-written advance does so exactly when the other value is not smaller |
| MidiUnsignedInteger.ShiftLeftAssignUnchecked | Sources/MIDIKitCore/Types/MIDIUnsignedInteger.swift:232-234 | `<<=` shifts the storage without a range check: the result fits only the storage |
| MidiUnsignedInteger.ShiftLeftAssignLeavesRange | Sources/MIDIKitCore/Types/MIDIUnsignedInteger.swift:232-234 | UInt7 64 <<= 1 stores 128, out of range, where a shift kept in range would give 0 |
| MidiUnsignedInteger.ShiftLeftAssign | Sources/MIDIKitCore/Types/MIDIUnsignedInteger.swift:232-234 | the corrected `<<=` stays in range, is value * 2^n when that fits and is congruent to it otherwise |
| MidiUnsignedInteger.Midpoints | Sources/MIDIKitCore/Types/UInt14.swift:74-75 | the UInt14 midpoint 8192 is half of 2^14 |
| MidiUnsignedInteger.UInt14FromBytePair | Sources/MIDIKitCore/Types/UInt14.swift:101-105 | `init(bytePair:)` masks each byte to 7 bits and joins them, MSB first |
| MidiUnsignedInteger.UInt14BytePair | Sources/MIDIKitCore/Types/UInt14.swift:132-136 | `bytePair` gives two 7-bit bytes, MSB = value / 128 and LSB = value % 128 |
| MidiUnsignedInteger.BytePairRoundTrip | Sources/MIDIKitCore/Types/UInt14.swift:101-136 | joining the byte pair of a value gives the value back |
| MidiUnsignedInteger.BytePairJoinSplit | Sources/MIDIKitCore/Types/UInt14.swift:101-136 | splitting the join of two 7-bit bytes gives the bytes back |
| MidiUnsignedInteger.UInt14FromUInt7Pair | Sources/MIDIKitCore/Types/UInt14.swift:108-112 | `init(uInt7Pair:)` puts the MSB in the upper seven bits and the LSB in the lower seven |
| MidiUnsignedInteger.UInt14UInt7Pair | Sources/MIDIKitCore/Types/UInt14.swift:139-143 | `midiUInt7Pair` gives two UInt7 values that join back to the value |
| MidiUnsignedInteger.UInt7PairRoundTrip | Sources/MIDIKitCore/Types/UInt14.swift:108-143 | splitting the join of two UInt7 values gives them back |
| SignedInt7.LiteralBits | Sources/MIDIKitCore/Types/Int7.swift:91-101 | `literalBits` keeps the low six bits and takes bit 6 as the sign: the raw byte it yields is the source modulo 128 |
| SignedInt7.RawByte | Sources/MIDIKitCore/Types/Int7.swift:104-109 | `rawByte` is a 7-bit byte whose low six bits are the storage and whose bit 6 is the sign |
| SignedInt7.IntValue | Sources/MIDIKitCore/Types/Int7.swift:116-121 | `intValue` lies in -64...63, is negative exactly when the sign is set and is congruent to the raw byte modulo 128 |
| SignedInt7.ComplementSixBits | Sources/MIDIKitCore/Types/Int7.swift:116-121 | the complemented storage masked to six bits is 63 minus the storage |
| SignedInt7.FromUnsigned | Sources/MIDIKitCore/Types/Int7.swift:19-32 | `init(_:)` from an unsigned value succeeds exactly for 0...63 with that value and traps with overflow above |
| SignedInt7.FromSigned | Sources/MIDIKitCore/Types/Int7.swift:36-58 | `init(_:)` from a signed value succeeds exactly in -64...63 with that value, underflows at -65 and below and overflows at 64 and above |
| SignedInt7.LiteralBitsOfNegative | Sources/MIDIKitCore/Types/Int7.swift:43-46 | a negative source in -64..<0 keeps its value through the bit split |
| SignedInt7.TruncatingUnsigned | Sources/MIDIKitCore/Types/Int7.swift:74-77 | `init(truncatingIfNecessary:)` from an unsigned value is never negative and keeps the source modulo 64 |
| SignedInt7.TruncatingSigned | Sources/MIDIKitCore/Types/Int7.swift:79-83 | `init(truncatingIfNecessary:)` from a signed value wraps the source into -64...63 modulo 128 |
| SignedInt7.WrapAgrees | Sources/MIDIKitCore/Types/Int7.swift:79-83 | the in-range value congruent to the source modulo 128 is unique |
| SignedInt7.Exactly | Sources/MIDIKitCore/Types/Int7.swift:62-72 | `init?(exactly:)` is the value exactly when it lies in -64...63, nil otherwise |
| SignedInt7.BitPatternRawByte | Sources/MIDIKitCore/Types/Int7.swift:85-89 | `init(bitPattern:)` keeps the low seven bits of the pattern as the raw byte |
| SignedInt7.BitPattern | Sources/MIDIKitCore/Types/Int7.swift:85-89 | `init(bitPattern:)` yields a valid Int7 whose raw byte is the source modulo 128 |
| SignedInt7.FromLiteral | Sources/MIDIKitCore/Types/Int7.swift:158-160 | an integer literal is taken through the truncating initialiser and is always a valid Int7 |
| SignedInt7.LiteralWraps | Sources/MIDIKitCore/Types/Int7.swift:158-160 | the literal 100 becomes -28; -1 stays -1 |
| SignedInt7.EqualityAgreesWithIntValue | Sources/MIDIKitCore/Types/Int7.swift:131-150 | two Int7 are equal exactly when their integer values are, and exactly when neither is less than the other |
| SignedInt7.ExactlyRoundTrip | Sources/MIDIKitCore/Types/Int7.swift:62-121 | the exact initialiser applied to an Int7's integer value gives it back |
| LegacyIntegers.UInt14Constants | Sources/MIDIKit/Common/Types/UInt14.swift:83-96 | `MIDI.UInt14` is 14 bits wide with maximum 2^14 - 1 and midpoint 2^13, and the default value is in range |
| LegacyIntegers.UInt14Default | Sources/MIDIKit/Common/Types/UInt14.swift:24-26 | `init()` is the neutral midpoint 8192 |
| LegacyIntegers.UInt14Make | Sources/MIDIKit/Common/Types/UInt14.swift:29-36 | `init(_:)` succeeds exactly in 0...16383 with the source value and otherwise stops with "Overflow" |
| LegacyIntegers.UInt14Exactly | Sources/MIDIKit/Common/Types/UInt14.swift:40-46 | `init?(exactly:)` is the source exactly when it is in 0...16383, nil otherwise |
| LegacyIntegers.UInt14Clamping | Sources/MIDIKit/Common/Types/UInt14.swift:48-50 | `init(clamping:)` is always in range: the source in range, 0 below, 16383 above |
| LegacyIntegers.UInt14FromLiteral | Sources/MIDIKit/Common/Types/UInt14.swift:142-144 | an integer literal (a UInt16) is clamped, so literals above 16383 become 16383 |
| LegacyIntegers.UInt14InitsAgree | Sources/MIDIKit/Common/Types/UInt14.swift:29-50 | the trapping, exact and clamping initialisers agree wherever the first two succeed |
| LegacyIntegers.UInt14FromBytePair | Sources/MIDIKit/Common/Types/UInt14.swift:74-78 | `init(bytePair:)` masks each byte to 7 bits and joins them MSB first, always in range |
| LegacyIntegers.UInt14ToBytePair | Sources/MIDIKit/Common/Types/UInt14.swift:120-124 | `bytePair` gives two 7-bit bytes, MSB = value / 128 and LSB = value % 128, that join back to the value |
| LegacyIntegers.UInt14BytePairRoundTrip | Sources/MIDIKit/Common/Types/UInt14.swift:74-124 | joining the byte pair of a value gives the value back |
| LegacyIntegers.Checked | Sources/MIDIKit/Common/Types/MIDIKitIntegerProtocol.swift:21 | a conforming type's `init(_:)` succeeds exactly within its bounds, keeping the value |
| LegacyIntegers.DefaultExactly | Sources/MIDIKit/Common/Types/MIDIKitIntegerProtocol.swift:53-57 | the default `init?(exactly:)` is the value exactly within the bounds, nil otherwise |
| LegacyIntegers.DefaultClamping | Sources/MIDIKit/Common/Types/MIDIKitIntegerProtocol.swift:59-62 | the default `init(clamping:)` always succeeds within non-empty bounds and keeps an in-range value |
| LegacyIntegers.UInt14MatchesDefaults | Sources/MIDIKit/Common/Types/UInt14.swift:40-50 | UInt14's own exact and clamping initialisers behave as the protocol's defaults with bounds 0...16383 |
| LegacyIntegers.StorageApply | Sources/MIDIKit/Common/Types/MIDIKitIntegerProtocol.swift:165-185 | storage arithmetic on `Int` fails only for division or remainder by zero; quotient and remainder recompose the dividend with Swift's truncating division |
| LegacyIntegers.CheckedApply | Sources/MIDIKit/Common/Types/MIDIKitIntegerProtocol.swift:73-161 | `Self op Self`, `Self op Storage` and their compound assignments succeed exactly when the storage result exists and lies within the bounds, and then give it |
| LegacyIntegers.UncheckedApply | Sources/MIDIKit/Common/Types/MIDIKitIntegerProtocol.swift:165-203 | `Storage op Self` and its compound assignments return the storage result unchecked: it is what a check whose bounds are that value alone would accept |
| LegacyIntegers.CheckedExtendsUnchecked | Sources/MIDIKit/Common/Types/MIDIKitIntegerProtocol.swift:73-203 | the checked operator succeeds exactly when the unchecked one's result lies within the bounds |
| LegacyIntegers.UInt14SumPastMax | Sources/MIDIKit/Common/Types/MIDIKitIntegerProtocol.swift:125-127 | 16383 + 1 as `Self op Storage` stops, while `Storage op Self` gives 16384 |
| MusicalTime.AtLeast | Sources/MIDIKitSMF/MusicalTimeValue/MusicalTimeValue.swift:63-65 | `clamped(to: lo...)` is at least the bound, the value itself when it already is |
| MusicalTime.FromComponents | Sources/MIDIKitSMF/MusicalTimeValue/MusicalTimeValue.swift:49-67 | the components are stored as given, the time signature and PPQ clamped to valid values and kept when already valid |
| MusicalTime.SplitTicks | Sources/MIDIKitSMF/MusicalTimeValue/MusicalTimeValue.swift:98-103 | the tick count splits into whole bars, a beat below the beats per bar and ticks below the PPQ, which recompose the count |
| MusicalTime.QuotientRemainder | Sources/MIDIKitSMF/MusicalTimeValue/MusicalTimeValue.swift:99-110 | the quotient and the remainder by a positive divisor recompose the dividend, remainder below the divisor |
| MusicalTime.BeatBelowBeatsPerBar | Sources/MIDIKitSMF/MusicalTimeValue/MusicalTimeValue.swift:101-102 | the ticks left within a bar hold fewer beats than the bar has |
| MusicalTime.Magnitude | Sources/MIDIKitSMF/MusicalTimeValue/MusicalTimeValue.swift:87 | `abs` is the value or its negation and never negative |
| MusicalTime.FromElapsedTicksAsWritten | Sources/MIDIKitSMF/MusicalTimeValue/MusicalTimeValue.swift:78-112 | `init(elapsedTicks:...)` as written: when it succeeds the parameters are valid and the sign is that of the tick count |
| MusicalTime.FromElapsedTicks | Sources/MIDIKitSMF/MusicalTimeValue/MusicalTimeValue.swift:78-112 | the corrected initialiser, with leftover ticks taken after the last whole division; parameters valid and sign kept |
| MusicalTime.ElapsedTicks | Sources/MIDIKitSMF/MusicalTimeValue/MusicalTimeValue.swift:120-131 | `elapsedTicks()` of non-negative components has the value's sign |
| MusicalTime.NonNegativeProducts | Sources/MIDIKitSMF/MusicalTimeValue/MusicalTimeValue.swift:122-126 | bars, beats and divisions of non-negative components contribute non-negative ticks |
| MusicalTime.TicksWithoutDivisions | Sources/MIDIKitSMF/MusicalTimeValue/MusicalTimeValue.swift:143-151 | `ticksWithoutDivisions()` is the plain ticks when there are no divisions |
| MusicalTime.DivisionByZeroWhenTooManyDivisions | Sources/MIDIKitSMF/MusicalTimeValue/MusicalTimeValue.swift:108-110 | both versions of the elapsed-ticks initialiser trap exactly when the (clamped) divisions per beat exceed the PPQ, so a division is 0 ticks |
| MusicalTime.DivAtLeastOne | Sources/MIDIKitSMF/MusicalTimeValue/MusicalTimeValue.swift:109 | with no more divisions than ticks a division is at least one tick |
| MusicalTime.ComponentsInRange | Sources/MIDIKitSMF/MusicalTimeValue/MusicalTimeValue.swift:98-111 | components built from ticks are non-negative, the beat within the bar and the ticks within one division (one beat, with division 0, without divisions) |
| MusicalTime.ElapsedTicksRoundTrip | Sources/MIDIKitSMF/MusicalTimeValue/MusicalTimeValue.swift:78-131 | `elapsedTicks()` of a value built from a tick count gives that count back, sign included |
| MusicalTime.TicksWithoutDivisionsIsBeatRemainder | Sources/MIDIKitSMF/MusicalTimeValue/MusicalTimeValue.swift:143-151 | the flattened ticks are the count less its whole bars and beats |
| MusicalTime.BeatsAreWholeDivisions | Sources/MIDIKitSMF/MusicalTimeValue/MusicalTimeValue.swift:106-110 | when the division length divides a beat, ticks modulo a division are the same counted from the bar or from the beat |
| MusicalTime.AsWrittenAgreesWhenDivisionsFit | Sources/MIDIKitSMF/MusicalTimeValue/MusicalTimeValue.swift:104-111 | without divisions, or when the division length divides the PPQ, the initialiser as written equals the corrected one |
| MusicalTime.AsWrittenLosesTicks | Sources/MIDIKitSMF/MusicalTimeValue/MusicalTimeValue.swift:104-111 | as written, 11 ticks at PPQ 10 with 3 divisions and 4 beats per bar give bar 0 beat 1 division 0 ticks 2, which reads back as 12 ticks |
| MusicalTime.Fields | Sources/MIDIKitSMF/MusicalTimeValue/MusicalTimeValue.swift:158-161 | the display shows bar, beat and ticks, with the beat division between them only with divisions or when forced |
| MusicalTime.Joined | Sources/MIDIKitSMF/MusicalTimeValue/MusicalTimeValue.swift:162-163 | one component joins to its own string; several begin with the first one and the delimiter |
| MusicalTime.StringValue | Sources/MIDIKitSMF/MusicalTimeValue/MusicalTimeValue.swift:155-164 | the corrected display string of a negative value starts with a minus sign |
| MusicalTime.NegativeDisplaysBareSign | Sources/MIDIKitSMF/MusicalTimeValue/MusicalTimeValue.swift:155-164 | as written, `?:` binds looser than `+`, so every negative value displays as a bare "-"; the corrected string does not |
| MusicalTime.StringValueKeepsComponents | Sources/MIDIKitSMF/MusicalTimeValue/MusicalTimeValue.swift:155-164 | the corrected string is the sign followed by the components, and equals the original for non-negative values |
| MusicalTime.StringValueAsWritten | Sources/MIDIKitSMF/MusicalTimeValue/MusicalTimeValue.swift:155-164 | as written, a negative value displays as "-" alone, and a non-negative value displays as the corrected string does |
| MidiNotes.ScaleOffset | Sources/MIDIKitCore/Events/MIDINote/MIDINote.swift:117-120 | `scaleOffset` places each of the twelve names at a distinct offset 0...11 within the octave |
| MidiNotes.NameOfScaleOffset | Sources/MIDIKitCore/Events/MIDINote/MIDINote.swift:117-120 | the search over `Name.allCases` picks, for every remainder modulo 12, the name at that scale offset |
| MidiNotes.ScaleOffsetIdentifiesName | Sources/MIDIKitCore/Events/MIDINote/MIDINote.swift:117-148 | the name at a name's own scale offset is that name |
| MidiNotes.FromNumber | Sources/MIDIKitCore/Events/MIDINote/MIDINote.swift:26-36 | `init(_:style:)` from an integer succeeds exactly for 0...127, keeping number and style, and otherwise throws `outOfBounds` |
| MidiNotes.Convert | Sources/MIDIKitCore/Events/MIDINote/MIDINote.swift:114-120 | splitting the note number by 12 gives an octave within the style's eleven octaves and a name whose offset recomposes the note number with it |
| MidiNotes.FromNameOctave | Sources/MIDIKitCore/Events/MIDINote/MIDINote.swift:48-155 | `init(_:octave:style:)`, through `setNoteNumber(_:octave:)`, computes (octave - first octave offset) * 12 + scale offset and succeeds exactly when that number lies in 0...127, otherwise throws `outOfBounds` |
| MidiNotes.ConvertFromNameOctave | Sources/MIDIKitCore/Events/MIDINote/MIDINote.swift:48-97 | the `name` and `octave` of a note built from a name and octave are that name and octave |
| MidiNotes.NameOctaveRoundTrip | Sources/MIDIKitCore/Events/MIDINote/MIDINote.swift:48-97 | building a note from its own `name` and `octave` gives the note back |
| MidiNotes.NameString | Sources/MIDIKitCore/Events/MIDINote/MIDINote.swift:122-125 | `Name.stringValue` is a letter A...G, followed for sharps by a sharp or (respelled) flat sign, ASCII or Unicode |
| MidiNotes.NameFromString | Sources/MIDIKitCore/Events/MIDINote/MIDINote.swift:189 | `Name.init?(_ string:)` refuses the empty string |
| MidiNotes.NameStringRoundTrip | Sources/MIDIKitCore/Events/MIDINote/MIDINote.swift:122-187 | every spelling `Name.stringValue` prints, sharp or flat, ASCII or Unicode, reads back as the same name |
| MidiNotes.StringValue | Sources/MIDIKitCore/Events/MIDINote/MIDINote.swift:110-129 | `stringValue` starts with the note's name string, followed by the octave |
| MidiNotes.FirstAccidental | Sources/MIDIKitCore/Events/MIDINote/MIDINote.swift:181-187 | the search for an accidental finds the first sharp or flat sign in the string, or reports that there is none |
| MidiNotes.FirstAccidentalAt | Sources/MIDIKitCore/Events/MIDINote/MIDINote.swift:183 | an accidental with none before it is the one found |
| MidiNotes.NoAccidental | Sources/MIDIKitCore/Events/MIDINote/MIDINote.swift:183 | a string without accidentals yields none |
| MidiNotes.ParseNote | Sources/MIDIKitCore/Events/MIDINote/MIDINote.swift:158-216 | `setNoteNumber(from:)` traps on an empty string, throws `malformedNoteName` unless the string starts with A...G, and any note it returns is valid and keeps the style |
| MidiNotes.ParseStringValue | Sources/MIDIKitCore/Events/MIDINote/MIDINote.swift:110-216 | parsing a note's `stringValue`, with either spelling and either symbol set, gives the note back |
| MidiNotes.Advanced | Sources/MIDIKitCore/Events/MIDINote/MIDINote.swift:261-269 | `advanced(by:)` clamps into 0...127, keeps the style, and moves by exactly the step when that stays in range |
| MidiNotes.Distance | Sources/MIDIKitCore/Events/MIDINote/MIDINote.swift:261-263 | `distance(to:)` is the difference of the note numbers: adding it to the first note's number gives the second's; zero exactly for equal notes, positive exactly when the first note is lower |
| MidiNotes.AdvancedByDistance | Sources/MIDIKitCore/Events/MIDINote/MIDINote.swift:249-269 | advancing by `distance(to:)` reaches an equal note, and a note is less than another exactly when the distance to it is positive |
| ControllerChanges.PairedNumber | Sources/MIDIKitEvents/Event/ChannelVoiceMessage/ControllerChange.swift:422-456 | `controller` of a controller with an LSB partner is an MSB number below 20 other than the undefined 3, 9, 14 and 15 |
| ControllerChanges.SingleNumber | Sources/MIDIKitEvents/Event/ChannelVoiceMessage/ControllerChange.swift:459-511 | `controller` of a single-byte controller lies in 64...84, is 88, or lies in 91...95 |
| ControllerChanges.PairedOfNumber | Sources/MIDIKitEvents/Event/ChannelVoiceMessage/ControllerChange.swift:290-327 | `init(enumForController:value:)` names a paired controller exactly for the MSB numbers that have one, and that name reports the number back |
| ControllerChanges.SingleOfNumber | Sources/MIDIKitEvents/Event/ChannelVoiceMessage/ControllerChange.swift:334-392 | the initialiser names a single-byte controller exactly for 64...84, 88 and 91...95, and that name reports the number back |
| ControllerChanges.NumbersIdentifyNames | Sources/MIDIKitEvents/Event/ChannelVoiceMessage/ControllerChange.swift:290-511 | the initialiser maps every named controller's number back to that name |
| ControllerChanges.LsbFromController | Sources/MIDIKitEvents/Event/ChannelVoiceMessage/LSB.swift:111-165 | `LSB.init(enumForController:value:)` stops exactly outside 32...63, and gives the undefined case for 35, 41, 46...47 and 52...63 |
| ControllerChanges.LsbControllerRoundTrip | Sources/MIDIKitEvents/Event/ChannelVoiceMessage/LSB.swift:111-210 | an LSB built from a number in 32...63 reports that number and value |
| ControllerChanges.LsbFromItsController | Sources/MIDIKitEvents/Event/ChannelVoiceMessage/LSB.swift:111-210 | every LSB whose undefined number is really undefined is rebuilt from its own number and value |
| ControllerChanges.LsbAsEvent | Sources/MIDIKitEvents/Event/ChannelVoiceMessage/LSB.swift:100-104 | `LSB.asEvent(channel:)` is a CC event on that channel whose controller is the LSB's number |
| ControllerChanges.FromController | Sources/MIDIKitEvents/Event/ChannelVoiceMessage/ControllerChange.swift:286-416 | `init(enumForController:value:)` stops exactly for 14, 15 and 98...101 (RPN for 98...99, NRPN for 100...101, unexpected for 14 and 15), gives the undefined case for 3, 9, 20...31, 85...87, 89...90 and 102...119, an LSB for 32...63 and a mode message for 120...127 |
| ControllerChanges.ControllerRoundTrip | Sources/MIDIKitEvents/Event/ChannelVoiceMessage/ControllerChange.swift:286-529 | every controller change the initialiser builds reports the number it was built from as its `controller` |
| ControllerChanges.FromItsController | Sources/MIDIKitEvents/Event/ChannelVoiceMessage/ControllerChange.swift:286-529 | every controller change the initialiser can produce is rebuilt from its `controller` and value |
| EventFilters.FilterCategory | Sources/MIDIKitEvents/MIDIEvent/Filter.swift:11-63 | `filterChannelVoice()`, `filterSystemCommon()`, `filterRealTime()` and `filterSystemExclusive()` keep exactly the events of that category |
| EventFilters.FilterKinds | Sources/MIDIKitEvents/MIDIEvent/Filter.swift:71-100 | `filter(_ kinds:)` returns nothing for no kinds, and otherwise keeps exactly the events whose kind is listed |
| EventFilters.DropKinds | Sources/MIDIKitEvents/MIDIEvent/Filter.swift:206-244 | `drop(_ kinds:)` returns the events unchanged for no kinds, and otherwise keeps exactly the events whose kind is not listed |
| EventFilters.FilterDropPartition | Sources/MIDIKitEvents/MIDIEvent/Filter.swift:71-244 | for a non-empty kind list, `filter` and `drop` together return every event exactly once |
| EventFilters.FilterKindsInternal | Sources/MIDIKitEvents/MIDIEvent/Filter.swift:486-491 | the per-category internal `filter(_ kinds:)` keeps exactly the events whose kind is listed |
| EventFilters.InternalFilterAgrees | Sources/MIDIKitEvents/MIDIEvent/Filter.swift:71-100 | the internal kind filter computes the same list as the public one |
| EventFilters.DropKindsInternalAsWritten | Sources/MIDIKitEvents/MIDIEvent/Filter.swift:494-499 | the internal `drop(_ kinds:)` as written keeps an event when some listed kind differs from its kind |
| EventFilters.DropInternalAsWrittenKeepsListedKind | Sources/MIDIKitEvents/MIDIEvent/Filter.swift:494-499 | as written, dropping two kinds keeps an event of the first kind, and dropping no kinds removes everything |
| EventFilters.DropKindsInternal | Sources/MIDIKitEvents/MIDIEvent/Filter.swift:494-499 | the corrected internal drop keeps exactly the events whose kind is not listed, and everything for no kinds |
| EventFilters.InternalFilterDropPartition | Sources/MIDIKitEvents/MIDIEvent/Filter.swift:486-499 | the internal filter and the corrected internal drop together return every event exactly once |
| EventFilters.FilterCcPattern | Sources/MIDIKitEvents/MIDIEvent/Filter.swift:453-479 | `[ControllerChange].filter(pattern:)` returns nothing for no pattern; otherwise the first pattern entry decides: a controller number keeps exactly the controller changes with that number, any other kind keeps none |
| EventFilters.FilterCvPattern | Sources/MIDIKitEvents/MIDIEvent/Filter.swift:359-402 | `[ChannelVoiceMessage].filter(pattern:)` returns nothing for no pattern, and otherwise keeps exactly the events the first entry accepts (by kind, or a controller change by its controller pattern) |
| EventFilters.DropCvPattern | Sources/MIDIKitEvents/MIDIEvent/Filter.swift:439-445 | the unfinished `[ChannelVoiceMessage].drop(pattern:)` returns nothing |
| EventFilters.FirstForCategory | Sources/MIDIKitEvents/MIDIEvent/Filter.swift:127-140 | the search of the pattern finds an entry for a system category exactly when the pattern has one |
| EventFilters.FilterPattern | Sources/MIDIKitEvents/MIDIEvent/Filter.swift:106-199 | `filter(pattern:)` returns nothing for an empty pattern, and otherwise keeps exactly the accepted events: channel voice by the consolidated pattern, system events by the first entry of their category (all of them when it has no sub-pattern, none when there is no entry), raw data when the first entry is `.raw` |
| EventFilters.DropPatternAsWritten | Sources/MIDIKitEvents/MIDIEvent/Filter.swift:248-350 | `drop(pattern:)` as written returns the events unchanged for an empty pattern; otherwise system and raw events stay exactly when `filter(pattern:)` rejects them, but a channel voice event stays exactly when the consolidated pattern accepts it (lines 266-273 make the same test as `filter`) |
| EventFilters.DropPatternAsWrittenKeepsAccepted | Sources/MIDIKitEvents/MIDIEvent/Filter.swift:114-121 | as written, a channel voice event the pattern accepts comes back from both `filter(pattern:)` and `drop(pattern:)`, and one it rejects from neither |
| EventFilters.DropPatternAsWrittenAgreesOffChannelVoice | Sources/MIDIKitEvents/MIDIEvent/Filter.swift:275-350 | on lists without channel voice events, `drop(pattern:)` as written and the corrected drop return the same list |
| EventFilters.DropPattern | Sources/MIDIKitEvents/MIDIEvent/Filter.swift:248-350 | corrected `drop(pattern:)` (the channel voice branch reversed as the other branches are): the events unchanged for an empty pattern, and otherwise exactly the events `filter(pattern:)` rejects |
| EventFilters.FilterDropPatternPartition | Sources/MIDIKitEvents/MIDIEvent/Filter.swift:106-350 | for a non-empty pattern, `filter(pattern:)` and the corrected `drop(pattern:)` together return every event exactly once |
| OSStatus.NamedCodesInOrder | Sources/MIDIKitCore/Errors/MIDIOSStatus.swift:101-125 | `rawValue` gives the sixteen Core MIDI cases the codes -10830 down to -10845 in declaration order, `ioError` 7 and `internalError` -50 |
| OSStatus.RawValue | Sources/MIDIKitCore/Errors/MIDIOSStatus.swift:101-125 | `.other` gives back the code it holds, and every named case gives one of the named codes (-10845 ... -10830, 7 or -50) |
| OSStatus.FromRawValue | Sources/MIDIKitCore/Errors/MIDIOSStatus.swift:128-151 | `init(rawValue:)` gives `.other` exactly for codes that are not named, 7 is `ioError` and -50 `internalError` |
| OSStatus.RawValueRoundTrip | Sources/MIDIKitCore/Errors/MIDIOSStatus.swift:101-151 | the raw value of the case built from any code is that code |
| OSStatus.FromRawValueRoundTrip | Sources/MIDIKitCore/Errors/MIDIOSStatus.swift:101-151 | every case except an `.other` that holds a named code is rebuilt from its raw value |
| OSStatus.OtherOfNamedCodeCollapses | Sources/MIDIKitCore/Errors/MIDIOSStatus.swift:128-151 | `.other(7)` and `.other(-10830)` do not survive the round trip: they come back as `ioError` and `invalidClient` |
| OSStatus.ThrowIfOSStatusErr | Sources/MIDIKitCore/Errors/MIDIOSStatus.swift:233-237 | `throwIfOSStatusErr()` throws exactly for a status other than `noErr`, and the error carries that status |
| OSStatus.ThrowIfErr | Sources/MIDIKitCore/Errors/MIDIOSStatus.swift:223-229 | `throwIfErr` throws exactly when the closure's status is not `noErr`, with that status |
| OSStatus.ThrowHelpersAgree | Sources/MIDIKitCore/Errors/MIDIOSStatus.swift:223-237 | `throwIfErr` on a closure behaves as `throwIfOSStatusErr` on the status it returns |
| MtcFrameRates.FromBitValue | Sources/MIDIKitSync/MTC/MTCFrameRate.swift:88-97 | `init?(_ bitValue:)` gives a rate exactly for the two-bit codes 0...3, nil for any larger value |
| MtcFrameRates.BitValue | Sources/MIDIKitSync/MTC/MTCFrameRate.swift:101-108 | `bitValue` is a two-bit code |
| MtcFrameRates.FpsValueForScaling | Sources/MIDIKitSync/MTC/MTCFrameRate.swift:133-140 | `fpsValueForScaling` is 24 and 25 for the first two rates and 30 for both 29.97 drop and 30 |
| MtcFrameRates.BitValueRoundTrip | Sources/MIDIKitSync/MTC/MTCFrameRate.swift:88-108 | every rate is rebuilt from its bit value |
| MtcFrameRates.FromBitValueRoundTrip | Sources/MIDIKitSync/MTC/MTCFrameRate.swift:88-108 | every two-bit code names a rate whose bit value is that code |
| MtcFrameRates.DropIsCodeTwo | Sources/MIDIKitSync/MTC/MTCFrameRate.swift:101-128 | `isDrop` holds exactly for the rate whose code is 0b10 |
| MtcEncoders.ToUInt8 | Sources/MIDIKitSync/MTC/MTCGenerator/MTCEncoder.swift:284-287 | `UInt8(_:)` succeeds exactly for 0...255, keeping the value, and traps otherwise |
| MtcEncoders.PieceBits | Sources/MIDIKitSync/MTC/MTCGenerator/MTCEncoder.swift:324-341 | the bits a piece adds to its data byte are its specified nibble of frames, seconds, minutes, hours or (piece 7) rate code, always below 16 |
| MtcEncoders.QuarterFrameDataByte | Sources/MIDIKitSync/MTC/MTCGenerator/MTCEncoder.swift:310-348 | the quarter-frame data byte is the piece number in the high nibble and that piece's nibble in the low one; it traps exactly when the field is not a byte or, for a piece above 7, when the byte exceeds 127 |
| MtcEncoders.PieceByte | Sources/MIDIKitSync/MTC/MTCGenerator/MTCEncoder.swift:322-341 | a piece 0...7 whose field is a byte yields a byte whose high nibble is the piece and low nibble the piece's value |
| MtcEncoders.AssemblePieces | Sources/MIDIKitSync/MTC/MTCGenerator/MTCEncoder.swift:324-341 | eight data bytes that carry a timecode's pieces reassemble to its fields modulo their MTC widths and to the rate |
| MtcEncoders.QuarterFramesReassemble | Sources/MIDIKitSync/MTC/MTCGenerator/MTCEncoder.swift:310-348 | for fields that are bytes, all eight pieces encode, piece i carries i in its high nibble, and reassembly gives every field modulo its MTC width and the rate |
| MtcEncoders.QuarterFramesRoundTrip | Sources/MIDIKitSync/MTC/MTCGenerator/MTCEncoder.swift:310-348 | for fields that fit MTC, the eight quarter frames reassemble to exactly the timecode without subframes and the rate |
| MtcEncoders.FullFrameData | Sources/MIDIKitSync/MTC/MTCGenerator/MTCEncoder.swift:256-291 | the full-frame payload is defined exactly when the fields are bytes: hours in the low five bits of the first byte with the rate code above them, then minutes, seconds and frames |
| MtcEncoders.FullFrameEvent | Sources/MIDIKitSync/MTC/MTCGenerator/MTCEncoder.swift:256-298 | the full-frame message is the universal SysEx with that payload when minutes, seconds and frames are 7-bit, and active sensing otherwise |
| MtcEncoders.FullFrameHourByte | Sources/MIDIKitSync/MTC/MTCGenerator/MTCEncoder.swift:284 | the hour byte gives back the hours modulo 32 and the rate |
| MtcEncoders.MtcEncoder.constructor | Sources/MIDIKitSync/MTC/MTCGenerator/MTCEncoder.swift:49-112 | a new encoder is at 00:00:00:00 at 30 fps, piece 0, stream not started, nothing sent |
| MtcEncoders.MtcEncoder.SetLocalFrameRate | Sources/MIDIKitSync/MTC/MTCGenerator/MTCEncoder.swift:69-72 | setting the local rate sets the MTC rate to its MTC equivalent and changes nothing else |
| MtcEncoders.MtcEncoder.SendQuarterFrame | Sources/MIDIKitSync/MTC/MTCGenerator/MTCEncoder.swift:302-308 | sends the current piece's quarter frame and forgets the last full frame; it traps exactly when the piece's field is not a byte |
| MtcEncoders.MtcEncoder.SendFullFrame | Sources/MIDIKitSync/MTC/MTCGenerator/MTCEncoder.swift:247-253 | sends the full frame of the current position and records it with the rate |
| MtcEncoders.MtcEncoder.Locate | Sources/MIDIKitSync/MTC/MTCGenerator/MTCEncoder.swift:140-185 | moves to the timecode with frames scaled to MTC and no subframes, sets the piece from the scaled quarter frames, restarts the stream, and sends a full frame always, when it differs from the last one sent, or never |
| MtcEncoders.MtcEncoder.Increment | Sources/MIDIKitSync/MTC/MTCGenerator/MTCEncoder.swift:195-214 | after the stream has started moves to the next piece, from piece 7 to piece 0 two frames later (returning when the timecode cannot be formed), then sends the quarter frame; keeps the piece in 0...7 |
| MtcEncoders.MtcEncoder.Decrement | Sources/MIDIKitSync/MTC/MTCGenerator/MTCEncoder.swift:224-243 | the mirror of increment: from piece 0 to piece 7 two frames earlier; keeps the piece in 0...7 |
| HuiTables.PingAndReplyDifferInLastByte | Sources/MIDIKit/HUI/HUI/Constants.swift:15-18 | the host's ping and the surface's reply are three-byte note messages that differ only in the last byte (0x00 against 0x7F) |
| HuiTables.CharTableSizes | Sources/MIDIKit/HUI/HUI/Constants.swift:65-128 | the small and large display tables hold 128 characters each, the time display table 0x31 |
| HuiTables.RawValue | Sources/MIDIKit/HUI/HUI/Constants.swift:444-454 | `ChannelStripElement` raw values are below 8 |
| HuiTables.ElementOfRaw | Sources/MIDIKit/HUI/HUI/Constants.swift:444-454 | `ChannelStripElement(rawValue:)` gives an element exactly for 0...7 |
| HuiTables.ElementRawRoundTrip | Sources/MIDIKit/HUI/HUI/Constants.swift:444-454 | raw values and strip elements convert into each other without loss |
| HuiTables.AllControlsShape | Sources/MIDIKit/HUI/HUI/Constants.swift:164-436 | the pair table has 196 controls: first the eight strips with their eight elements in raw-value order, then section elements |
| HuiTables.SectionKeysMembers | Sources/MIDIKit/HUI/HUI/Constants.swift:239-436 | a section's key list holds exactly its elements |
| HuiTables.AllControlsMembers | Sources/MIDIKit/HUI/HUI/Constants.swift:164-436 | the control list holds exactly the controls that exist on the surface |
| HuiTables.PairOfRoundTrip | Sources/MIDIKit/HUI/HUI/Constants.swift:164-436 | looking a control's pair up in the table gives the control back |
| HuiTables.ControlAtRoundTrip | Sources/MIDIKit/HUI/HUI/Constants.swift:164-436 | the control found at a pair is a control of the surface whose pair is that pair |
| HuiTables.PairsUnique | Sources/MIDIKit/HUI/HUI/Constants.swift:164-436 | no two controls share a (zone, port) pair |
| HuiTables.PairsInRange | Sources/MIDIKit/HUI/HUI/Constants.swift:164-436 | every zone lies in 0x00...0x1D and every port in 0...7 |
| HuiTables.KeyPairInRange | Sources/MIDIKit/HUI/HUI/Constants.swift:239-436 | section elements are in zones 0x08...0x1D |
| HuiTables.StripEntries | Sources/MIDIKit/HUI/HUI/Constants.swift:164-238 | strip elements are in the table exactly for strips 0...7, at zone = strip and port = element raw value |
| HuiLookups.StripZone | Sources/MIDIKitControlSurfaces/HUI/HUIParameter/HUIParameter.swift:309-313 | a strip's zone is `UInt8(exactly: channelStrip) ?? 0`: the strip number when it fits a byte, 0 otherwise |
| HuiLookups.TableLayoutAgrees | Sources/MIDIKit/HUI/HUI/Parameter/Parameter.swift:320-374 | with the legacy table's layout, `zoneAndPort` of every control is its pair in `kHUIZoneAndPortPairs` |
| HuiLookups.FirstMatch | Sources/MIDIKitControlSurfaces/HUI/HUIParameter/HUIParameter.swift:429-434 | `first(where:)` finds the first case whose pair matches, or reports that none does |
| HuiLookups.ParameterInit | Sources/MIDIKitControlSurfaces/HUI/HUIParameter/HUIParameter.swift:425-437 | `HUIParameter.init?(zone:port:)` gives a control of `allCases` with that pair, and nil exactly when no case has it |
| HuiLookups.ParameterInitPicksFirst | Sources/MIDIKitControlSurfaces/HUI/HUIParameter/HUIParameter.swift:429-434 | when several cases share a pair, the initialiser picks the earliest in `allCases` |
| HuiLookups.ParameterInitIsControlAt | Sources/MIDIKitControlSurfaces/HUI/HUIParameter/HUIParameter.swift:425-437 | with the table layout, the initialiser finds the table's control at that pair |
| HuiLookups.ParameterInitRoundTrip | Sources/MIDIKitControlSurfaces/HUI/HUIParameter/HUIParameter.swift:309-437 | with the table layout, every control is rebuilt from its own zone and port |
| HuiLookups.OversizedStripReadsAsStripZero | Sources/MIDIKitControlSurfaces/HUI/HUIParameter/HUIParameter.swift:309-313 | a strip number that does not fit a byte gets zone 0, so strip 256 reads back as strip 0 |
| HuiLookups.InitChannelStrip | Sources/MIDIKit/HUI/HUI/Parameter/Parameter.swift:397-404 | `init(channelStrip:component:)` is that strip element, at zone = strip and port = the element's port |
| HuiLookups.SwitchInit | Sources/MIDIKitControlSurfaces/HUI/HUISwitch/HUISwitch.swift:486-500 | `HUISwitch.init(zone:port:)` is the first case with that pair, or `.undefined` with the pair exactly when there is none; either way its pair is the one given |
| HuiLookups.UndefinedZoneAndPort | Sources/MIDIKitControlSurfaces/HUI/HUISwitch/HUISwitch.swift:419-420 | an undefined switch reports the zone and port it was built with |
| HuiLookups.StripSwitchZone | Sources/MIDIKitControlSurfaces/HUI/HUISwitch/HUISwitch.swift:366-370 | a strip switch whose number fits a byte reports that number as its zone |
| HuiLookups.SwitchInitRoundTrip | Sources/MIDIKitControlSurfaces/HUI/HUISwitch/HUISwitch.swift:366-500 | with the table layout every switch is rebuilt from its pair, and the result is undefined exactly when the table has no control there |
| HuiLookups.FirstKey | Sources/MIDIKit/HUI/HUI/Parameter.swift:293-295 | `first(where:)` over the dictionary finds a key with that pair, or reports that none has it |
| HuiLookups.LegacyFromZoneAndPort | Sources/MIDIKit/HUI/HUI/Parameter.swift:289-301 | the flat `Parameter.init?(zone:port:)` is the table's control at that pair, nil when there is none |
| HuiLookups.LegacyLookupAgrees | Sources/MIDIKit/HUI/HUI/Parameter.swift:289-301 | because pairs are unique, the dictionary's iteration order does not matter |
| HuiLookups.LegacyFromChannelStrip | Sources/MIDIKit/HUI/HUI/Parameter.swift:305-317 | `init?(channelStrip:channelElement:)` is that strip element for strips 0...7, a hot key for strip 8 (its zone is 0x08), and nil outside 0...0x1D |
| HuiLookups.StripLookup | Sources/MIDIKit/HUI/HUI/Constants.swift:164-248 | the table's control at (strip, element) is the strip element for 0...7 and the hot key at that port for 8 |
| HuiLookups.ChannelStripIsZoneAndPort | Sources/MIDIKit/HUI/HUI/Parameter.swift:289-317 | the channel-strip lookup is the zone-and-port lookup at (strip, element raw value) |
| HuiWire.Midi1RawBytes | Sources/MIDIKitControlSurfaces/HUI/HUIParser/HUIParser.swift:220-226 | a control change reads as status 0xB0 plus its channel, controller, value; a note pressure as 0xA0 plus channel, note, amount — the three bytes the parsers inspect |
| HuiWire.DecodeDelta | Sources/MIDIKitControlSurfaces/HUI/HUIDecoder/HUICoreDecoder.swift:336-341 | a V-Pot / jog byte decodes to a delta in -63 ... 63: negative only when bit 6 is clear, positive only when it is set, magnitude the low six bits |
| HuiWire.Render | Sources/MIDIKitControlSurfaces/HUI/HUIParser/HUIParser.swift:131-133 | rendering display codes through a character table succeeds exactly when every code is inside the table (otherwise the subscript traps) |
| HuiWire.RenderCodes | Sources/MIDIKitControlSurfaces/HUI/HUIParser/HUIParser.swift:130-133 | the concatenating loop computes exactly Render: the table strings of the codes in order, or the trap |
| HuiWire.SplitEvery | Sources/MIDIKitControlSurfaces/HUI/HUIDecoder/HUICoreDecoder.swift:172-178 | every slice of split(every: n) has exactly n bytes |
| HuiWire.SplitEveryFlattens | Sources/MIDIKitControlSurfaces/HUI/HUIDecoder/HUICoreDecoder.swift:172-178 | when the length is a multiple of n (the guard before the split), the slices put back together are the payload and there are length / n of them |
| HuiCoreDecoders.CharOf | Sources/MIDIKitControlSurfaces/HUI/HUIDecoder/HUICoreDecoder.swift:185-188 | a display code becomes a known character exactly when it is inside the character table, otherwise the unknown character |
| HuiCoreDecoders.CharsOf | Sources/MIDIKitControlSurfaces/HUI/HUIDecoder/HUICoreDecoder.swift:185-188 | every code of a slice becomes its character, in order, none dropped |
| HuiCoreDecoders.SysExBody | Sources/MIDIKitControlSurfaces/HUI/HUIDecoder/HUICoreDecoder.swift:119-153 | a SysEx message is for HUI exactly when the manufacturer matches and the data carries the two sub-IDs and at least one more byte; the body is what follows the sub-IDs; anything else is malformed |
| HuiCoreDecoders.SmallSlice | Sources/MIDIKitControlSurfaces/HUI/HUIDecoder/HUICoreDecoder.swift:180-207 | a five-byte small-display slice decodes exactly when its first byte is 0-8: 0-7 to that channel strip's text, 8 to the select-assign text |
| HuiCoreDecoders.SmallSlices | Sources/MIDIKitControlSurfaces/HUI/HUIDecoder/HUICoreDecoder.swift:178-209 | all slices decode exactly when every slice's display byte is 0-8, one event per slice in order; otherwise the message is malformed |
| HuiCoreDecoders.LargeSlices | Sources/MIDIKitControlSurfaces/HUI/HUIDecoder/HUICoreDecoder.swift:221-239 | the corrected large-display reduction succeeds exactly when every slice index fits four bits |
| HuiCoreDecoders.LargeSlicesAsWritten | Sources/MIDIKitControlSurfaces/HUI/HUIDecoder/HUICoreDecoder.swift:221-239 | the reduction as written succeeds under the same condition as the corrected one |
| HuiCoreDecoders.LargeSlicesKeepsOthers | Sources/MIDIKitControlSurfaces/HUI/HUIDecoder/HUICoreDecoder.swift:221-239 | a slice index that no slice names keeps its earlier text (or stays absent) |
| HuiCoreDecoders.LargeSlicesLastWins | Sources/MIDIKitControlSurfaces/HUI/HUIDecoder/HUICoreDecoder.swift:221-239 | the text stored for a slice index is the letters of the last slice naming it |
| HuiCoreDecoders.LargeSlicesAsWrittenRepeatsLetters | Sources/MIDIKitControlSurfaces/HUI/HUIDecoder/HUICoreDecoder.swift:232 | as written, every slice index receives the letters taken at offsets 1-10 of the whole payload, that is, the first slice's letters |
| HuiCoreDecoders.TimeDisplayPart | Sources/MIDIKitControlSurfaces/HUI/HUIDecoder/HUICoreDecoder.swift:243-262 | a time-display message decodes exactly when it carries 1 to 8 character bytes, into one event with those characters right to left |
| HuiCoreDecoders.LargePartAsWritten | Sources/MIDIKitControlSurfaces/HUI/HUIDecoder/HUICoreDecoder.swift:211-240 | as written, a large-display message with no payload traps on the range 1...0; when it decodes, it yields one large-display event |
| HuiCoreDecoders.LargePart | Sources/MIDIKitControlSurfaces/HUI/HUIDecoder/HUICoreDecoder.swift:211-240 | a large-display message decodes exactly when its payload is a non-empty multiple of 11 bytes whose slice indices fit four bits, into one large-display event; otherwise malformed |
| HuiCoreDecoders.ParseSysEx | Sources/MIDIKitControlSurfaces/HUI/HUIDecoder/HUICoreDecoder.swift:119-269 | a message that is not a HUI SysEx is rejected as malformed, and every rejection is "malformed" |
| HuiCoreDecoders.ParseSysExAsWritten | Sources/MIDIKitControlSurfaces/HUI/HUIDecoder/HUICoreDecoder.swift:119-269 | as written, a message that is not a HUI SysEx is rejected, every rejection is "malformed" or the trap of the range 1...0, and whatever it decodes the corrected parse decodes too |
| HuiCoreDecoders.SmallDisplayEvents | Sources/MIDIKitControlSurfaces/HUI/HUIDecoder/HUICoreDecoder.swift:164-209 | a small-display message of whole 5-byte slices decodes exactly when all display bytes are 0-8, one event per slice |
| HuiCoreDecoders.SmallDisplayLengthChecked | Sources/MIDIKitControlSurfaces/HUI/HUIDecoder/HUICoreDecoder.swift:172-176 | a small-display payload that is not a multiple of 5 bytes is malformed, as written and corrected |
| HuiCoreDecoders.TimeDisplayAtMostEight | Sources/MIDIKitControlSurfaces/HUI/HUIDecoder/HUICoreDecoder.swift:243-262 | a time-display message decodes exactly when it has 1-8 character bytes, into their characters |
| HuiCoreDecoders.UnknownDisplayTypeMalformed | Sources/MIDIKitControlSurfaces/HUI/HUIDecoder/HUICoreDecoder.swift:264-268 | an unknown display type byte after the header is malformed, as written and corrected |
| HuiCoreDecoders.EmptyDisplayMessageTraps | Sources/MIDIKitControlSurfaces/HUI/HUIDecoder/HUICoreDecoder.swift:170-213 | a small- or large-display message with nothing after the type byte traps as written and is malformed in the corrected model |
| HuiCoreDecoders.AsWrittenAgreesOffLargeDisplay | Sources/MIDIKitControlSurfaces/HUI/HUIDecoder/HUICoreDecoder.swift:119-269 | away from the large display and the empty payload, the code as written and the corrected model decode alike |
| HuiCoreDecoders.LargeDisplaySecondSliceLetters | Sources/MIDIKitControlSurfaces/HUI/HUIDecoder/HUICoreDecoder.swift:221-236 | for two slices 0 and 1, the corrected decoder gives slice 1 its own letters while the code as written gives it slice 0's |
| HuiCoreDecoders.LargeDisplayKeepsSliceLetters | Sources/MIDIKitControlSurfaces/HUI/HUIDecoder/HUICoreDecoder.swift:211-240 | in the corrected decoder every slice whose index no later slice repeats keeps its own letters |
| HuiCoreDecoders.LargeDisplayDispatch | Sources/MIDIKitControlSurfaces/HUI/HUIDecoder/HUICoreDecoder.swift:211-213 | a HUI SysEx whose type byte is the large display is decoded by the large-display part, as written and corrected |
| HuiCoreDecoders.LevelMeterEvent | Sources/MIDIKitControlSurfaces/HUI/HUIDecoder/HUICoreDecoder.swift:442-455 | a note-pressure event decodes to a level meter: channel strip the note when it fits four bits else 0, left when the high nibble is 0, level the low nibble |
| HuiCoreDecoders.ControlStepKeepsMsbs | Sources/MIDIKitControlSurfaces/HUI/HUIDecoder/HUICoreDecoder.swift:272-285 | the eight stored fader MSBs stay eight 7-bit values after any control message |
| HuiCoreDecoders.FaderMsbStoresOnly | Sources/MIDIKitControlSurfaces/HUI/HUIDecoder/HUICoreDecoder.swift:280-285 | a fader MSB message (controller 0-7) stores its value for that channel only, emits nothing and leaves the zone select alone |
| HuiCoreDecoders.FaderLevelFromTwoMessages | Sources/MIDIKitControlSurfaces/HUI/HUIDecoder/HUICoreDecoder.swift:280-318 | an MSB then an LSB on controller 0x20 + channel give the fader level MSB * 128 + LSB |
| HuiCoreDecoders.FaderLsbNeverFails | Sources/MIDIKitControlSurfaces/HUI/HUIDecoder/HUICoreDecoder.swift:300-318 | a fader LSB always decodes (the combined level always fits 14 bits), to the stored MSB * 128 + LSB |
| HuiCoreDecoders.SwitchFromTwoMessages | Sources/MIDIKitControlSurfaces/HUI/HUIDecoder/HUICoreDecoder.swift:345-416 | a zone select then a port message with state nibble 0 or 4 give the switch of that zone and port, "on" for nibble 4, and clear the zone select |
| HuiCoreDecoders.PortMessageClearsZone | Sources/MIDIKitControlSurfaces/HUI/HUIDecoder/HUICoreDecoder.swift:361-426 | a port message always clears the zone select; nibble 2 is ignored, nibbles other than 0, 2, 4 are unhandled, and without a zone select no switch is emitted |
| HuiCoreDecoders.VPotAndJogWheel | Sources/MIDIKitControlSurfaces/HUI/HUIDecoder/HUICoreDecoder.swift:288-344 | a V-Pot byte decodes to its V-Pot with the raw LED index at the host and the decoded delta at the surface; a jog-wheel byte fails at the host; neither changes the state |
| HuiCoreDecoders.DecodeEvent | Sources/MIDIKitControlSurfaces/HUI/HUIDecoder/HUICoreDecoder.swift:70-113 | only control changes change the decoder state; a note pressure that is not a ping decodes to its level meter |
| HuiCoreDecoders.FaderRoundTrip | Sources/MIDIKitControlSurfaces/HUI/HUIDecoder/HUICoreDecoder.swift:280-318 | the two events of HuiWire.EncodeFader decode to that fader's level (nothing after the first, the level after the second) |
| HuiCoreDecoders.SwitchRoundTrip | Sources/MIDIKitControlSurfaces/HUI/HUIDecoder/HUICoreDecoder.swift:345-416 | the two events of HuiWire.EncodeSwitch decode to the switch of that zone and port in that state, and leave no zone select behind |
| HuiCoreDecoders.HuiCoreDecoder.constructor | Sources/MIDIKitControlSurfaces/HUI/HUIDecoder/HUICoreDecoder.swift:27-34 | a new decoder has its role, eight zero fader MSBs and no zone select |
| HuiCoreDecoders.HuiCoreDecoder.Reset | Sources/MIDIKitControlSurfaces/HUI/HUIDecoder/HUICoreDecoder.swift:37-45 | reset restores eight zero fader MSBs and no zone select |
| HuiCoreDecoders.HuiCoreDecoder.ParseControlStatus | Sources/MIDIKitControlSurfaces/HUI/HUIDecoder/HUICoreDecoder.swift:272-439 | the method's result and new state are those of ControlStep on the old state |
| HuiCoreDecoders.HuiCoreDecoder.Decode | Sources/MIDIKitControlSurfaces/HUI/HUIDecoder/HUICoreDecoder.swift:70-113 | the method's result and new state are those of DecodeEvent on the old state |
| HuiParsers.ResetState | Sources/MIDIKitControlSurfaces/HUI/HUIParser/HUIParser.swift:36-52 | after reset the eight time-display cells are blanks, the eight large-display zones the default text, the eight fader MSBs zero, and no zone select is held |
| HuiParsers.TimeWrite | Sources/MIDIKitControlSurfaces/HUI/HUIParser/HUIParser.swift:186-205 | writing up to eight time codes (rightmost first) fills cell 7 - i with code i's character, "?" for an unknown code, and keeps the other cells; more than eight codes index past the display and trap |
| HuiParsers.LargeWrite | Sources/MIDIKitControlSurfaces/HUI/HUIParser/HUIParser.swift:162-181 | writing 11-byte large-display blocks succeeds exactly when every zone byte is inside the display and every letter inside the table; the display keeps its size |
| HuiParsers.LargeWriteKeepsOthers | Sources/MIDIKitControlSurfaces/HUI/HUIParser/HUIParser.swift:162-181 | a zone no block names keeps its text |
| HuiParsers.LargeWriteLastWins | Sources/MIDIKitControlSurfaces/HUI/HUIParser/HUIParser.swift:162-181 | a zone gets the rendered letters of the last block naming it |
| HuiParsers.SysExSpec | Sources/MIDIKitControlSurfaces/HUI/HUIParser/HUIParser.swift:98-217 | a SysEx content leaves the fader MSBs and the zone select untouched, and when it does not trap the display state stays well formed |
| HuiParsers.ControlSpec | Sources/MIDIKitControlSurfaces/HUI/HUIParser/HUIParser.swift:220-347 | a control message never traps, keeps the state well formed and leaves both displays untouched |
| HuiParsers.LevelSpec | Sources/MIDIKitControlSurfaces/HUI/HUIParser/HUIParser.swift:350-379 | a level-meter message reports its note as the channel, right exactly when the value is 0x10 or more, and the low nibble as the level |
| HuiParsers.MidiInSpec | Sources/MIDIKitControlSurfaces/HUI/HUIParser/HUIParser.swift:58-93 | a MIDI event that does not trap leaves the parser state well formed |
| HuiParsers.PortMessageClearsZone | Sources/MIDIKitControlSurfaces/HUI/HUIParser/HUIParser.swift:283-345 | a port message always leaves the state as it was except that no zone select is held |
| HuiParsers.SwitchFromTwoMessages | Sources/MIDIKitControlSurfaces/HUI/HUIParser/HUIParser.swift:270-336 | a zone select then a port message with state nibble 0 or 4 report the switch of that zone and port, "on" for nibble 4, and clear the zone select |
| HuiParsers.FaderLevelFromTwoMessages | Sources/MIDIKitControlSurfaces/HUI/HUIParser/HUIParser.swift:232-252 | an MSB on controller 0-7 then an LSB on 0x20 + channel report the fader level MSB * 128 + LSB |
| HuiParsers.FaderRoundTrip | Sources/MIDIKitControlSurfaces/HUI/HUIParser/HUIParser.swift:232-252 | the two events of HuiWire.EncodeFader are parsed back into that fader's level |
| HuiParsers.OtherChannelsIgnored | Sources/MIDIKitControlSurfaces/HUI/HUIParser/HUIParser.swift:220-226 | control and level-meter messages on any MIDI channel but the first are ignored and change nothing |
| HuiParsers.SmallDisplayRoundTrip | Sources/MIDIKitControlSurfaces/HUI/HUIParser/HUIParser.swift:116-151 | a small-display message made by HuiWire.EncodeSmallDisplay reports the rendered text for that channel strip (0-7) or as select-assign text (8) and changes no state |
| HuiParsers.LargeDisplayRoundTrip | Sources/MIDIKitControlSurfaces/HUI/HUIParser/HUIParser.swift:153-184 | a large-display slice made by HuiWire.EncodeLargeDisplaySlice replaces that zone's text with the rendered letters and reports the whole display |
| HuiParsers.TimeDisplayRoundTrip | Sources/MIDIKitControlSurfaces/HUI/HUIParser/HUIParser.swift:186-208 | a time-display message made by HuiWire.EncodeTimeDisplay fills the cells right to left with its characters, keeps the rest and reports the display |
| HuiParsers.UnguardedInputsTrap | Sources/MIDIKitControlSurfaces/HUI/HUIParser/HUIParser.swift:162-200 | a large-display zone byte of 8 or more, more than eight time codes, or an empty large-display payload trap (index or range out of bounds) |
| HuiParsers.HuiParser.constructor | Sources/MIDIKitControlSurfaces/HUI/HUIParser/HUIParser.swift:28-33 | a new parser holds its constants and tables and the reset state |
| HuiParsers.HuiParser.Reset | Sources/MIDIKitControlSurfaces/HUI/HUIParser/HUIParser.swift:36-52 | reset puts the reset state back |
| HuiParsers.HuiParser.MidiIn | Sources/MIDIKitControlSurfaces/HUI/HUIParser/HUIParser.swift:58-93 | the events reported and the new state are those of MidiInSpec on the old state |
| HuiParsers.HuiParser.ParseSysExContent | Sources/MIDIKitControlSurfaces/HUI/HUIParser/HUIParser.swift:98-217 | the loops that render and store display text compute exactly SysExSpec |
| HuiParsers.HuiParser.ParseControlStatusMessage | Sources/MIDIKitControlSurfaces/HUI/HUIParser/HUIParser.swift:220-347 | the control-message handling computes exactly the MidiInSpec result and new state |
| HuiParsers.HuiParser.ParseLevelMetersMessage | Sources/MIDIKitControlSurfaces/HUI/HUIParser/HUIParser.swift:350-379 | a level-meter message reports exactly what MidiInSpec says and leaves the state as it is |
| HuiLegacyParsers.ConstantTables | Sources/MIDIKit/HUI/HUI/Constants.swift:65-128 | the small and large character tables have 128 entries and the time table 0x31 |
| HuiLegacyParsers.ResetState | Sources/MIDIKit/HUI/HUI/Parser/Parser.swift:47-53 | after reset both displays are eight empty strings, the nine fader MSB slots zero and no zone select is held |
| HuiLegacyParsers.NonEnd | Sources/MIDIKit/HUI/HUI/Parser/Parser.swift:166-167 | the time-display loop skips exactly the SysEx end bytes: nothing else is dropped and no end byte is kept |
| HuiLegacyParsers.LargeLoop | Sources/MIDIKit/HUI/HUI/Parser/Parser.swift:145-157 | the block loop, when it does not trap, leaves the display its size |
| HuiLegacyParsers.LargeLoopAgreesWithParser | Sources/MIDIKit/HUI/HUI/Parser/Parser.swift:145-157 | on eleven-byte blocks ending with 0xF7 the legacy loop stores exactly what HuiParsers.LargeWrite stores, traps included |
| HuiLegacyParsers.SmallSpec | Sources/MIDIKit/HUI/HUI/Parser/Parser.swift:106-133 | a small-display message changes no state and reports text only when it is seven bytes long with a channel byte 0-8 |
| HuiLegacyParsers.LargeSpec | Sources/MIDIKit/HUI/HUI/Parser/Parser.swift:135-159 | a large-display message changes the large display and nothing else |
| HuiLegacyParsers.TimeSpec | Sources/MIDIKit/HUI/HUI/Parser/Parser.swift:161-186 | a time-display message changes the time display and nothing else |
| HuiLegacyParsers.SysExSpec | Sources/MIDIKit/HUI/HUI/Parser/Parser.swift:92-192 | a SysEx message leaves the fader MSBs and the zone select untouched, and the state stays well formed when it does not trap |
| HuiLegacyParsers.FaderSpec | Sources/MIDIKit/HUI/HUI/Parser/Parser.swift:278-303 | a fader message never fails and keeps nine fader slots |
| HuiLegacyParsers.SwitchSpec | Sources/MIDIKit/HUI/HUI/Parser/Parser.swift:224-271 | a switch message never fails and keeps the state well formed |
| HuiLegacyParsers.ControlAsWritten | Sources/MIDIKit/HUI/HUI/Parser/Parser.swift:197-276 | the control handling as written never fails and keeps the state well formed |
| HuiLegacyParsers.ControlSpec | Sources/MIDIKit/HUI/HUI/Parser/Parser.swift:197-276 | the corrected control handling agrees with the code as written on every data byte except the fader LSBs 0x20-0x27 |
| HuiLegacyParsers.LevelSpec | Sources/MIDIKit/HUI/HUI/Parser/Parser.swift:307-328 | a level-meter message changes nothing and reports one level exactly when it has three bytes and its channel fits four bits |
| HuiLegacyParsers.MidiInSpec | Sources/MIDIKit/HUI/HUI/Parser/Parser.swift:65-90 | corrected `midiIn(data:)` (control messages through the corrected ControlSpec, which routes the fader LSBs 0x20-0x27): a message that does not trap leaves the parser state well formed |
| HuiLegacyParsers.PingOnly | Sources/MIDIKit/HUI/HUI/Parser/Parser.swift:67-71 | the host ping reports the ping alone and changes nothing |
| HuiLegacyParsers.FaderLevelNeverReportedAsWritten | Sources/MIDIKit/HUI/HUI/Parser/Parser.swift:206-219 | as written, no control message ever reports a fader level |
| HuiLegacyParsers.FaderMoveLostAsWritten | Sources/MIDIKit/HUI/HUI/Parser/Parser.swift:206-219 | as written, an MSB 0x10 on channel 0 then its LSB 0x05 report nothing |
| HuiLegacyParsers.FaderLevelFromTwoMessages | Sources/MIDIKit/HUI/HUI/Parser/Parser.swift:278-303 | in the corrected parser an MSB then an LSB on 0x20 + channel report the fader level MSB * 128 + LSB |
| HuiLegacyParsers.SwitchFromTwoMessages | Sources/MIDIKit/HUI/HUI/Parser/Parser.swift:227-268 | a zone select then a port message report the switch exactly when the state nibble is 0 or 4 ("on" for 4), report nothing otherwise, and leave no zone select |
| HuiLegacyParsers.PortMessageClearsZone | Sources/MIDIKit/HUI/HUI/Parser/Parser.swift:233-236 | a port message always clears the zone select and changes nothing else |
| HuiLegacyParsers.SmallDisplayRoundTrip | Sources/MIDIKit/HUI/HUI/Parser/Parser.swift:106-133 | a small-display message with four 7-bit codes reports their rendered text for that channel strip (0-7) or as select-assign text (8) and changes no state |
| HuiLegacyParsers.TimeDisplayRoundTrip | Sources/MIDIKit/HUI/HUI/Parser/Parser.swift:161-186 | a time-display message of 1-8 codes ending with 0xF7 fills the cells right to left with their characters and keeps the rest |
| HuiLegacyParsers.NonEndOfTerminated | Sources/MIDIKit/HUI/HUI/Parser/Parser.swift:166-167 | codes followed by the end byte are written as the codes themselves |
| HuiLegacyParsers.LargeDisplayAgreesWithParser | Sources/MIDIKit/HUI/HUI/Parser/Parser.swift:135-159 | a well-formed large-display message succeeds exactly when HuiParsers.LargeWrite does and stores what it stores |
| HuiLegacyParsers.UnguardedInputsTrap | Sources/MIDIKit/HUI/HUI/Parser/Parser.swift:145-162 | a time-display message with nothing after its type byte, and a large-display block not followed by 0xF7, trap |
| HuiLegacyParsers.WriteTimeCodes | Sources/MIDIKit/HUI/HUI/Parser/Parser.swift:164-184 | the time-display loop computes exactly HuiParsers.TimeWrite on the codes that are not end bytes |
| HuiLegacyParsers.LegacyParser.constructor | Sources/MIDIKit/HUI/HUI/Parser/Parser.swift:37-43 | a new parser holds the constant tables and the reset state |
| HuiLegacyParsers.LegacyParser.Reset | Sources/MIDIKit/HUI/HUI/Parser/Parser.swift:47-53 | reset puts the reset state back |
| HuiLegacyParsers.LegacyParser.MidiIn | Sources/MIDIKit/HUI/HUI/Parser/Parser.swift:65-90 | corrected `midiIn(data:)`: the events reported and the new state are those of the corrected MidiInSpec on the old state; as written, the fader LSBs 0x20-0x27 are never routed (ControlAsWritten) |
| HuiLegacyParsers.LegacyParser.ParseSysEx | Sources/MIDIKit/HUI/HUI/Parser/Parser.swift:92-192 | the SysEx handling computes exactly SysExSpec |
| HuiLegacyParsers.LegacyParser.ParseSmallDisplay | Sources/MIDIKit/HUI/HUI/Parser/Parser.swift:106-133 | the small-display handling reports exactly what SmallSpec says |
| HuiLegacyParsers.LegacyParser.ParseLargeDisplay | Sources/MIDIKit/HUI/HUI/Parser/Parser.swift:135-159 | the block loop computes exactly LargeSpec |
| HuiLegacyParsers.LegacyParser.ParseTimeDisplay | Sources/MIDIKit/HUI/HUI/Parser/Parser.swift:161-186 | the time-display loop computes exactly TimeSpec |
| HuiLegacyParsers.LegacyParser.ParseControlStatusMessage | Sources/MIDIKit/HUI/HUI/Parser/Parser.swift:197-276 | corrected control handling: computes exactly the corrected MidiInSpec, with the fader LSBs routed to the fader parser, which the code as written does not do |
| HuiLegacyParsers.LegacyParser.ParseFaderLevel | Sources/MIDIKit/HUI/HUI/Parser/Parser.swift:278-303 | the fader handling computes exactly FaderSpec |
| HuiLegacyParsers.LegacyParser.ParseLevelMetersMessage | Sources/MIDIKit/HUI/HUI/Parser/Parser.swift:307-328 | a level-meter message reports exactly what LevelSpec says and changes nothing |
| Midi1Parsers.Exactly7 | Sources/MIDIKit/Parser/MIDI1Parser.swift:377-379 | a data byte converts to a 7-bit value exactly when it is below 128, and keeps its value |
| Midi1Parsers.FourteenBits | Sources/MIDIKit/Parser/MIDI1Parser.swift:455-456 | a pitch-bend or song-position value is the MSB's low seven bits times 128 plus the LSB's low seven bits |
| Midi1Parsers.FourteenBitsRoundTrip | Sources/MIDIKit/Parser/MIDI1Parser.swift:455-456 | splitting a 14-bit value into its two 7-bit halves and joining them gives it back |
| Midi1Parsers.SystemMessage | Sources/MIDIKit/Parser/MIDI1Parser.swift:464-530 | a system message yields at most one event |
| Midi1Parsers.ParseSingleMessage | Sources/MIDIKit/Parser/MIDI1Parser.swift:360-541 | a message yields at most one event and none when empty or headed by a data byte; a note, aftertouch or CC message yields one exactly when it has two data bytes below 128, a program change or channel aftertouch exactly when it has one, a pitch bend exactly when it has two |
| Midi1Parsers.SingleMessageRoundTrip | Sources/MIDIKit/Parser/MIDI1Parser.swift:360-541 | every event other than SysEx is read back from its own MIDI 1.0 bytes |
| Midi1Parsers.ExpectedMatchesMessage | Sources/MIDIKit/Parser/MIDI1Parser.swift:81-103 | the number of data bytes a channel-voice status makes the stream wait for is exactly the number the single-message parser needs to produce an event |
| Midi1Parsers.Flush | Sources/MIDIKit/Parser/MIDI1Parser.swift:112-116 | handing over the message in progress parses its bytes and empties the buffer, nothing else |
| Midi1Parsers.RealTimeEvents | Sources/MIDIKit/Parser/MIDI1Parser.swift:212-303 | the bytes 0xF8-0xFF yield only real-time events |
| Midi1Parsers.SystemCommonCore | Sources/MIDIKit/Parser/MIDI1Parser.swift:139-210 | every system-common status clears the running status |
| Midi1Parsers.ChannelStatusStep | Sources/MIDIKit/Parser/MIDI1Parser.swift:126-137 | a channel-voice status flushes the message in progress, becomes the running status and starts a new message expecting one data byte for 0xC and 0xD and two otherwise |
| Midi1Parsers.SystemCommonStep | Sources/MIDIKit/Parser/MIDI1Parser.swift:139-210 | a system-common status flushes the message in progress and clears the running status |
| Midi1Parsers.RealTimeStep | Sources/MIDIKit/Parser/MIDI1Parser.swift:212-303 | a real-time byte leaves the parser state untouched and yields one event, except the undefined 0xF9 and 0xFD which yield none |
| Midi1Parsers.RunningStatusPrefix | Sources/MIDIKit/Parser/MIDI1Parser.swift:313-318 | a data byte arriving with an empty buffer and a running status starts a message with that status |
| Midi1Parsers.Step | Sources/MIDIKit/Parser/MIDI1Parser.swift:118-351 | one byte of the main loop leaves the old running status, none, or that byte; a real-time byte (0xF8 and up) leaves the parser state unchanged, and a data byte keeps the running status |
| Midi1Parsers.DataByteStep | Sources/MIDIKit/Parser/MIDI1Parser.swift:310-337 | a data byte never changes the running status or the expectation; unexpected bytes are dropped, and a message is parsed exactly when its last expected data byte arrives |
| Midi1Parsers.RealTimeTransparent | Sources/MIDIKit/Parser/MIDI1Parser.swift:212-303 | removing the real-time bytes from a stream changes neither the final state nor the other events |
| Midi1Parsers.ParsedEvents | Sources/MIDIKit/Parser/MIDI1Parser.swift:58-70 | an empty packet yields no events and keeps the running status |
| Midi1Parsers.ParsedEventsIgnoreRealTime | Sources/MIDIKit/Parser/MIDI1Parser.swift:58-352 | real-time bytes inside a packet do not change its other events or the running status it leaves |
| Midi1Parsers.RunningStatusFromInput | Sources/MIDIKit/Parser/MIDI1Parser.swift:118-351 | the running status after a stream is none, the one it started with, or a channel-voice status byte of the stream |
| Midi1Parsers.RunningStatusStream | Sources/MIDIKit/Parser/MIDI1Parser.swift:126-337 | a status byte followed by pairs of data bytes yields one message per pair under that running status |
| Midi1Parsers.RunningStatusPacket | Sources/MIDIKit/Parser/MIDI1Parser.swift:58-352 | a packet of one two-data-byte status and several byte pairs yields one event per pair and leaves that status as the running status |
| Midi1Parsers.StepByte | Sources/MIDIKit/Parser/MIDI1Parser.swift:118-339 | one pass of the loop body computes exactly Step, appending its events |
| Midi1Parsers.ParseBytes | Sources/MIDIKit/Parser/MIDI1Parser.swift:58-352 | the parsing loop computes exactly ParsedEvents: the events and the running status left behind |
| Midi1Parsers.Parser.constructor | Sources/MIDIKit/Parser/MIDI1Parser.swift:25 | a new parser holds no running status |
| Midi1Parsers.Parser.ParsedEventsIn | Sources/MIDIKit/Parser/MIDI1Parser.swift:42-53 | parsing a packet returns the events of ParsedEvents and keeps the running status it leaves for the next packet |
| Midi1EventParsers.ByteAt | Sources/MIDIKit/Events/Parser/MIDI1Parser.swift:191-192 | the safe subscript yields a byte exactly when the index is inside the message, and that byte |
| Midi1EventParsers.Seven | Sources/MIDIKit/Events/Parser/MIDI1Parser.swift:197-199 | the trapping 7-bit conversion traps exactly on a present byte above 0x7F, and otherwise passes a present byte through unchanged |
| Midi1EventParsers.SevenPair | Sources/MIDIKit/Events/Parser/MIDI1Parser.swift:197-199 | two data bytes convert in order: the first above 0x7F traps, the second traps only when the first is present, and both present give the pair |
| Midi1EventParsers.SystemOnly | Sources/MIDIKit/Events/Parser/MIDI1Parser.swift:291-332 | a system status that is not system common yields at most one event |
| Midi1EventParsers.SplitStep | Sources/MIDIKit/Events/Parser/MIDI1Parser.swift:189-345 | each pass of the splitter advances inside the message, by the status byte plus the data bytes of one message under the shared status, consumes the whole buffer for SysEx and yields at most one event |
| Midi1EventParsers.Prefixed | Sources/MIDIKit/Events/Parser/MIDI1Parser.swift:60-61 | events gathered before a splitter result are kept in front of it, and a trap stays a trap |
| Midi1EventParsers.SplitMessages | Sources/MIDIKit/Events/Parser/MIDI1Parser.swift:180-348 | the splitting loop computes exactly ParseUniform |
| Midi1EventParsers.SplitPairs | Sources/MIDIKit/Events/Parser/MIDI1Parser.swift:189-256 | under a note, aftertouch or CC status every further pair of data bytes is one more message of that status |
| Midi1EventParsers.UniformRunningStatus | Sources/MIDIKit/Events/Parser/MIDI1Parser.swift:177-256 | a status followed by several pairs of data bytes splits into one event per pair, in order |
| Midi1EventParsers.SysExTakesWholeBuffer | Sources/MIDIKit/Events/Parser/MIDI1Parser.swift:259-267 | a buffer starting with 0xF0 is one SysEx event (or none when it does not decode) |
| Midi1EventParsers.WellFormedSplitNeverTraps | Sources/MIDIKit/Events/Parser/MIDI1Parser.swift:189-345 | a buffer whose data bytes are all below 0x80 never makes the splitter trap |
| Midi1EventParsers.Flushed | Sources/MIDIKit/Events/Parser/MIDI1Parser.swift:58-64 | handing over the message empties the message and the queue and keeps the running status |
| Midi1EventParsers.FlushOrder | Sources/MIDIKit/Events/Parser/MIDI1Parser.swift:58-64 | the flushed events are the split message followed by the queued real-time events, and the flush traps exactly when the split does |
| Midi1EventParsers.ChannelStatusStep | Sources/MIDIKit/Events/Parser/MIDI1Parser.swift:72-82 | a channel-voice status flushes what came before, starts a new message and becomes the running status exactly for note off, note on and CC |
| Midi1EventParsers.RealTimeStep | Sources/MIDIKit/Events/Parser/MIDI1Parser.swift:108-133 | a real-time byte is queued behind the message in progress; Timing Clock, Active Sensing and System Reset clear the running status, the others keep it |
| Midi1EventParsers.DataByteStep | Sources/MIDIKit/Events/Parser/MIDI1Parser.swift:139-158 | a data byte extends the message, starts one with the running status, or, with neither, ends the packet |
| Midi1EventParsers.RunAppend | Sources/MIDIKit/Events/Parser/MIDI1Parser.swift:66-162 | the parser's state after one more byte is one Step from the state before it |
| Midi1EventParsers.StoppedRunStays | Sources/MIDIKit/Events/Parser/MIDI1Parser.swift:66-162 | once the packet has trapped or been abandoned, further bytes change nothing |
| Midi1EventParsers.StrayDataByteEndsPacket | Sources/MIDIKit/Events/Parser/MIDI1Parser.swift:149-153 | a data byte with no message in progress and no running status abandons the rest of the packet |
| Midi1EventParsers.RunningStatusOrigin | Sources/MIDIKit/Events/Parser/MIDI1Parser.swift:72-133 | the running status after a stream is the one it started with or a note off, note on or CC status byte of the stream |
| Midi1EventParsers.EmptyPacket | Sources/MIDIKit/Events/Parser/MIDI1Parser.swift:39-42 | an empty packet yields no events and keeps the running status |
| Midi1EventParsers.RealTimeInsideMessage | Sources/MIDIKit/Events/Parser/MIDI1Parser.swift:84-133 | a Start, Continue or Stop inside a two-data-byte message is reported after that message, and the running status survives |
| Midi1EventParsers.NoteOnRun | Sources/MIDIKit/Events/Parser/MIDI1Parser.swift:66-158 | after a complete note-on the message is still held, waiting for more running-status bytes |
| Midi1EventParsers.SystemCommonTrapsAsWritten | Sources/MIDIKit/Events/Parser/MIDI1Parser.swift:84-107 | as written, a note-on followed by a tune request in one packet traps on the 7-bit conversion of 0xF6 |
| Midi1EventParsers.NoteOnFlush | Sources/MIDIKit/Events/Parser/MIDI1Parser.swift:58-64 | a held note-on is handed over as one note-on event |
| Midi1EventParsers.TuneRequestFlush | Sources/MIDIKit/Events/Parser/MIDI1Parser.swift:58-64 | a held tune request is handed over as one tune-request event |
| Midi1EventParsers.SystemCommonCorrected | Sources/MIDIKit/Events/Parser/MIDI1Parser.swift:84-107 | with the flush before a system-common status, the same packet yields the note-on then the tune request |
| Midi1EventParsers.AppendWellFormed | Sources/MIDIKit/Events/Parser/MIDI1Parser.swift:139-158 | appending a data byte (or 0xF7 to a SysEx) keeps the message free of stray status bytes |
| Midi1EventParsers.CorrectedStepWellFormed | Sources/MIDIKit/Events/Parser/MIDI1Parser.swift:66-158 | in the corrected parser every step keeps the message in progress well formed |
| Midi1EventParsers.CorrectedRunWellFormed | Sources/MIDIKit/Events/Parser/MIDI1Parser.swift:66-162 | in the corrected parser the message in progress stays well formed over any stream |
| Midi1EventParsers.CorrectedNeverTraps | Sources/MIDIKit/Events/Parser/MIDI1Parser.swift:32-172 | the corrected parser never traps, whatever the packet and running status |
| Midi1EventParsers.FlushMessage | Sources/MIDIKit/Events/Parser/MIDI1Parser.swift:58-64 | the flush computes exactly FlushEvents |
| Midi1EventParsers.StepByte | Sources/MIDIKit/Events/Parser/MIDI1Parser.swift:66-158 | one pass of the loop body computes exactly the corrected Step |
| Midi1EventParsers.ParseBytes | Sources/MIDIKit/Events/Parser/MIDI1Parser.swift:32-172 | the parsing loop computes exactly the corrected ParsedEvents |
| Midi1EventParsers.Step | Sources/MIDIKit/Events/Parser/MIDI1Parser.swift:66-158 | one byte of the loop leaves the old running status, none, or that byte; a data byte never traps, reports nothing and keeps the running status; the loop ends early only on a data byte with no message in progress and no running status |
| Midi1EventParsers.ParsedEvents | Sources/MIDIKit/Events/Parser/MIDI1Parser.swift:32-172 | an empty packet yields nothing and hands the running status back; otherwise the running status handed back is the one given, none, or a note-off, note-on or control-change status byte of the packet |
| Midi1EventParsers.Parser.constructor | Sources/MIDIKit/Events/Parser/MIDI1Parser.swift:17 | a new parser holds no running status |
| Midi1EventParsers.Parser.ParsedEventsIn | Sources/MIDIKit/Events/Parser/MIDI1Parser.swift:20-26 | corrected parse: returns the events of the corrected ParsedEvents (system common statuses flush first) and keeps its running status for the next packet; as written, 90 40 40 F6 traps |
| UmpFields.High | Sources/MIDIKitIO/Parser/MIDI2Parser.swift:55-57 | the high nibble of a byte is the number of whole sixteens in it |
| UmpFields.Low | Sources/MIDIKitIO/Parser/MIDI2Parser.swift:110 | the low nibble of a byte differs from the byte by a multiple of sixteen |
| UmpFields.Nibbles | Sources/MIDIKitIO/Parser/MIDI2Parser.swift:55-58 | packing two nibbles into a byte gives back each nibble on reading |
| UmpFields.NibblesOfByte | Sources/MIDIKitIO/Parser/MIDI2Parser.swift:55-58 | every byte is rebuilt from its two nibbles |
| UmpFields.MessageTypeRaw | Sources/MIDIKitIO/Parser/MIDI2Parser.swift:57 | every UMP message type has a raw nibble from 0x0 to 0x5 |
| UmpFields.MessageTypeFromRaw | Sources/MIDIKitIO/Parser/MIDI2Parser.swift:57-58 | a raw nibble names a message type exactly when it is at most 0x5, and that type's raw value is the nibble |
| UmpFields.SysExStatusRaw | Sources/MIDIKitIO/Parser/MIDI2Parser.swift:657-658 | every SysEx status field has a raw nibble from 0x0 to 0x3 |
| UmpFields.SysExStatusFromRaw | Sources/MIDIKitIO/Parser/MIDI2Parser.swift:657-658 | a nibble names a SysEx status (complete, start, continue, end) exactly when it is at most 0x3, and that status's raw value is the nibble |
| UmpFields.MixedDataSetStatusFromRaw | Sources/MIDIKitIO/Parser/MIDI2Parser.swift:745-751 | only the nibbles 0x8 and 0x9 name a Mixed Data Set status, and neither of them is a SysEx status |
| UmpFields.UtilityStatusRaw | Sources/MIDIKitIO/Parser/MIDI2Parser.swift:904-905 | every utility status has a raw nibble from 0x0 to 0x2 |
| UmpFields.UtilityStatusFromRaw | Sources/MIDIKitIO/Parser/MIDI2Parser.swift:904-905 | a nibble names a utility status (NoOp, JR Clock, JR Timestamp) exactly when it is at most 0x2, and that status's raw value is the nibble |
| UmpFields.FieldRoundTrips | Sources/MIDIKitIO/Parser/MIDI2Parser.swift:57-58 | reading back the raw value of a message type, a SysEx status or a utility status gives the same field |
| UmpFields.UInt7Exactly | Sources/MIDIKitIO/Parser/MIDI2Parser.swift:279-281 | a byte converts to a 7-bit value exactly when it is below 0x80, and keeps its value |
| UmpFields.Join14Split | Sources/MIDIKitIO/Parser/MIDI2Parser.swift:203-207 | splitting a 14-bit value built from an MSB and an LSB gives back the two 7-bit halves |
| UmpFields.Join14 | Sources/MIDIKitCore/Types/UInt14.swift:108-112 | the 14-bit value built from a 7-bit pair holds the MSB as its whole 128s and the LSB as the remainder |
| UmpFields.Split14 | Sources/MIDIKitCore/Types/UInt14.swift:139-143 | the 7-bit pair read from a 14-bit value rebuilds it as MSB * 128 + LSB |
| UmpFields.Split14Join | Sources/MIDIKitIO/Parser/MIDI2Parser.swift:358-375 | every 14-bit value is rebuilt from its two 7-bit halves |
| UmpFields.Join14IsUInt7Pair | Sources/MIDIKitCore/Types/UInt14.swift:108-143 | the UMP parser's 14-bit join and split are exactly `UInt14`'s `init(uInt7Pair:)` and `midiUInt7Pair` as MidiUnsignedInteger models them |
| UmpFields.Word16Split | Sources/MIDIKitIO/Parser/MIDI2Parser.swift:414-422 | splitting a 16-bit word built from two bytes gives back those bytes, most significant first |
| UmpFields.Word16 | Sources/MIDIKitIO/Parser/MIDI2Parser.swift:414-422 | the word built from two bytes holds the first as its whole 256s and the second as the remainder |
| UmpFields.Split16 | Sources/MIDIKitIO/Parser/MIDI2Parser.swift:414-422 | the two bytes read from a 16-bit word rebuild it, most significant first |
| UmpFields.Split16Word | Sources/MIDIKitIO/Parser/MIDI2Parser.swift:414-422 | every 16-bit word is rebuilt from its two bytes |
| UmpFields.Split32 | Sources/MIDIKitIO/Parser/MIDI2Parser.swift:406-413 | a 32-bit word has four bytes |
| UmpFields.Word32Split | Sources/MIDIKitIO/Parser/MIDI2Parser.swift:406-413 | splitting a word built from four bytes gives back those bytes in order |
| UmpFields.Word32 | Sources/MIDIKitIO/Parser/MIDI2Parser.swift:406-413 | the word built from four bytes has the 16-bit word of the first two as its high half and that of the last two as its low half |
| UmpFields.Split32Word | Sources/MIDIKitIO/Parser/MIDI2Parser.swift:406-413 | every 32-bit word is rebuilt from its four bytes |
| Midi2Parsers.ParseSystemRealTimeAndCommon | Sources/MIDIKitIO/Parser/MIDI2Parser.swift:177-260 | a three-byte system message decodes exactly when its status is one MIDIKit defines and every data byte it uses is below 0x80; 0xF0, 0xF4, 0xF5, 0xF7, 0xF9 and 0xFD give nothing, and the event carries the packet's group |
| Midi2Parsers.ParseMidi1ChannelVoice | Sources/MIDIKitIO/Parser/MIDI2Parser.swift:263-380 | a three-byte MIDI 1.0 channel voice message decodes exactly when its status nibble is 0x8 to 0xE and every data byte it uses is below 0x80; the event is a MIDI 1.0 voice event on the packet's channel and group |
| Midi2Parsers.ParameterNumberEvent | Sources/MIDIKitIO/Parser/MIDI2Parser.swift:456-501 | status nibbles 0x2 and 0x4 give an RPN, 0x3 and 0x5 an NRPN, the lower pair absolute and the upper pair relative, keeping the parameter and data bytes, channel and group |
| Midi2Parsers.ParseMidi2ChannelVoice | Sources/MIDIKitIO/Parser/MIDI2Parser.swift:387-636 | only a seven-byte body decodes; status 0x7 is ignored; an RPN or NRPN body decodes exactly when the edition handles them and both parameter bytes are below 0x80 (the earlier edition, Sources/MIDIKit/IO/Parser/MIDI2Parser.swift:377-566, drops every 0x2 to 0x5 body); any result is a channel voice event on the packet's channel and group |
| Midi2Parsers.ParseUtility | Sources/MIDIKitIO/Parser/MIDI2Parser.swift:880-948 | a utility body of at least three bytes decodes exactly when its status is NoOp, JR Clock or JR Timestamp; NoOp has no following bytes, the others hand back the bytes after the third, and the event carries the group |
| Midi2Parsers.Data64 | Sources/MIDIKitIO/Parser/MIDI2Parser.swift:638-715 | a malformed 64-bit data packet changes nothing; only a complete or end packet emits a SysEx7 event; a start packet replaces the buffer with its payload; the buffer changes only on a well-formed start packet or while a message is in progress |
| Midi2Parsers.Data128 | Sources/MIDIKitIO/Parser/MIDI2Parser.swift:717-845 | a malformed 128-bit data packet changes nothing; only a complete or end packet emits a SysEx8 event; every stream other than the packet's own keeps its buffer exactly |
| Midi2Parsers.Parse | Sources/MIDIKitIO/Parser/MIDI2Parser.swift:42-174 | an empty packet or one whose length is not a whole number of words yields no events and leaves the SysEx buffers alone; a packet yields at most one event per word |
| Midi2Parsers.Parser.constructor | Sources/MIDIKitIO/Parser/MIDI2Parser.swift:21-24 | a new parser starts with empty SysEx7 and SysEx8 buffers |
| Midi2Parsers.Parser.ParseData64Bit | Sources/MIDIKitIO/Parser/MIDI2Parser.swift:638-715 | the method's result and its new SysEx7 buffer are those of Data64 on the old buffer, and the SysEx8 buffers do not change |
| Midi2Parsers.Parser.ParseData128Bit | Sources/MIDIKitIO/Parser/MIDI2Parser.swift:717-845 | the method's result and its new SysEx8 buffers are those of Data128 on the old buffers, and the SysEx7 buffer does not change |
| Midi2Parsers.Parser.ParsedEvents | Sources/MIDIKitIO/Parser/MIDI2Parser.swift:42-174 | the events returned and the parser's new buffers are those that Parse gives on the old buffers |
| Midi2Parsers.Parser.ParseWord | Sources/MIDIKitIO/Parser/MIDI2Parser.swift:48-170 | for a packet whose message type is known and not utility, the events returned and the new buffers are those Parse gives on the old buffers |
| Midi2ParserProperties.SystemBytes | Sources/MIDIKitIO/Parser/MIDI2Parser.swift:177-260 | a system event is written as a three-byte UMP system body (the inverse the system parser is checked against) |
| Midi2ParserProperties.Midi1Bytes | Sources/MIDIKitIO/Parser/MIDI2Parser.swift:263-380 | a MIDI 1.0 voice event is written as three bytes whose status byte carries the event's channel in its low nibble |
| Midi2ParserProperties.Midi2Bytes | Sources/MIDIKitIO/Parser/MIDI2Parser.swift:387-636 | a MIDI 2.0 voice event is written as a seven-byte body whose status byte carries the event's channel in its low nibble |
| Midi2ParserProperties.SystemRoundTrip | Sources/MIDIKitIO/Parser/MIDI2Parser.swift:177-260 | parsing the bytes written for any system event gives that event back |
| Midi2ParserProperties.SystemCanonical | Sources/MIDIKitIO/Parser/MIDI2Parser.swift:177-260 | every system body that parses is rewritten, from its event, to the same status and data bytes |
| Midi2ParserProperties.Midi1RoundTrip | Sources/MIDIKitIO/Parser/MIDI2Parser.swift:263-380 | parsing the bytes written for any MIDI 1.0 voice event, on its channel and group, gives that event back |
| Midi2ParserProperties.Midi1Canonical | Sources/MIDIKitIO/Parser/MIDI2Parser.swift:263-380 | every MIDI 1.0 voice body that parses is rewritten, from its event, to the same status and data bytes |
| Midi2ParserProperties.Midi1PitchBendOrder | Sources/MIDIKitIO/Parser/MIDI2Parser.swift:358-375 | a pitch-bend body carries the LSB first and the MSB second, and the value is MSB times 128 plus LSB |
| Midi2ParserProperties.Midi2WordRoundTrip | Sources/MIDIKitIO/Parser/MIDI2Parser.swift:406-413 | the second word read back from a body whose last four bytes are a word's bytes is that word |
| Midi2ParserProperties.Midi2RoundTrip | Sources/MIDIKitIO/Parser/MIDI2Parser.swift:387-636 | in either edition, parsing the seven bytes written for any MIDI 2.0 voice event gives that event back |
| Midi2ParserProperties.EditionsAgree | Sources/MIDIKit/IO/Parser/MIDI2Parser.swift:377-566 | the earlier and the current edition decode every MIDI 2.0 voice body alike except RPN and NRPN bodies |
| Midi2ParserProperties.ParameterNumberMessage | Sources/MIDIKitIO/Parser/MIDI2Parser.swift:456-501 | in the current edition an RPN or NRPN body with 7-bit parameter bytes always decodes: even status nibbles give an RPN, odd an NRPN, 0x2 and 0x3 absolute, 0x4 and 0x5 relative, keeping the parameter bytes and the second word scaled to 14 bits |
| Midi2ParserProperties.SystemPacketRoundTrip | Sources/MIDIKitIO/Parser/MIDI2Parser.swift:85-99 | a one-word system packet built from any system event parses to exactly that event and leaves the SysEx buffers alone |
| Midi2ParserProperties.Midi1PacketRoundTrip | Sources/MIDIKitIO/Parser/MIDI2Parser.swift:101-118 | a one-word MIDI 1.0 voice packet built from any voice event parses to exactly that event and leaves the buffers alone |
| Midi2ParserProperties.Midi2PacketRoundTrip | Sources/MIDIKitIO/Parser/MIDI2Parser.swift:132-149 | a two-word MIDI 2.0 voice packet built from any voice event parses to exactly that event and leaves the buffers alone |
| Midi2ParserProperties.UnknownMessageType | Sources/MIDIKitIO/Parser/MIDI2Parser.swift:57-58 | a packet whose message type nibble is above 0x5 yields no event and changes no buffer |
| Midi2ParserProperties.WrongPacketSize | Sources/MIDIKitIO/Parser/MIDI2Parser.swift:85-171 | a packet of a non-utility type whose length is not that type's packet size yields no event and changes no buffer |
| Midi2ParserProperties.BuffersOnlyForSysEx | Sources/MIDIKitIO/Parser/MIDI2Parser.swift:85-149 | system, MIDI 1.0 and MIDI 2.0 voice packets never change the SysEx buffers |
| Midi2ParserProperties.UtilityPacket | Sources/MIDIKitIO/Parser/MIDI2Parser.swift:62-83 | a utility word yields its event, then the packet continues with the bytes after it, if any |
| Midi2ParserProperties.JrUtility | Sources/MIDIKitIO/Parser/MIDI2Parser.swift:922-947 | a JR Clock or JR Timestamp word decodes to that event with its 16-bit time and hands back the bytes after it |
| Midi2ParserProperties.JrPrefix | Sources/MIDIKitIO/Parser/MIDI2Parser.swift:62-83 | a JR Clock or JR Timestamp word at the head of a packet yields its event ahead of the events of the rest of the packet |
| Midi2ParserProperties.NoOpHasNoFollowers | Sources/MIDIKitIO/Parser/MIDI2Parser.swift:910-920 | a NoOp word at the head of a packet yields only the NoOp event: the rest of the packet is not parsed |
| Midi2ParserProperties.RunAppend | Sources/MIDIKitIO/Parser/MIDI2Parser.swift:42-174 | feeding packets a then b to a stateful parser equals feeding a, then feeding b from the state a left, with the events concatenated |
| Midi2ParserProperties.Data64Packet | Sources/MIDIKitIO/Parser/MIDI2Parser.swift:120-130 | a two-word data packet is handed, without its first byte, to the SysEx7 sub-parser with the packet's group, and only the SysEx7 buffer may change |
| Midi2ParserProperties.SysEx7PacketStep | Sources/MIDIKitIO/Parser/MIDI2Parser.swift:120-130 | every SysEx7 packet, whatever its status, is parsed by the SysEx7 sub-parser on its payload |
| Midi2ParserProperties.SysEx7ContinueStep | Sources/MIDIKitIO/Parser/MIDI2Parser.swift:685-689 | a continue packet appends its payload to a non-empty SysEx7 buffer and yields nothing |
| Midi2ParserProperties.SysEx7ContinuesAppend | Sources/MIDIKitIO/Parser/MIDI2Parser.swift:685-689 | a run of continue packets appends all their payloads, in order, to a non-empty SysEx7 buffer and yields nothing |
| Midi2ParserProperties.SysEx7StartStep | Sources/MIDIKitIO/Parser/MIDI2Parser.swift:679-683 | a start packet replaces the SysEx7 buffer by its payload and yields nothing |
| Midi2ParserProperties.SysEx7EndStep | Sources/MIDIKitIO/Parser/MIDI2Parser.swift:691-713 | an end packet with nothing buffered is ignored; otherwise it empties the buffer and yields the message of buffer plus payload framed by F0 and F7 |
| Midi2ParserProperties.SysEx7MultiPart | Sources/MIDIKitIO/Parser/MIDI2Parser.swift:679-713 | a start, continues and end sequence yields the SysEx7 message made of all the payloads in order, framed by F0 and F7, and leaves the buffer empty |
| Midi2ParserProperties.SysEx7Complete | Sources/MIDIKitIO/Parser/MIDI2Parser.swift:670-677 | a complete packet yields the message of its payload framed by F0 and F7 and leaves the buffers alone |
| Midi2ParserProperties.EmptyStartDropsMessage | Sources/MIDIKitIO/Parser/MIDI2Parser.swift:679-695 | a start packet with no payload leaves the buffer empty, so the end packet after it is ignored and no message is yielded |
| Midi2ParserProperties.Data128Packet | Sources/MIDIKitIO/Parser/MIDI2Parser.swift:151-171 | a four-word data packet is handed, without its first byte, to the SysEx8 sub-parser with the packet's group, and only the SysEx8 buffers may change |
| Midi2ParserProperties.SysEx8PacketStep | Sources/MIDIKitIO/Parser/MIDI2Parser.swift:151-171 | every SysEx8 packet, whatever its status, is parsed by the SysEx8 sub-parser on its payload |
| Midi2ParserProperties.SysEx8ContinueStep | Sources/MIDIKitIO/Parser/MIDI2Parser.swift:799-813 | a continue packet appends its payload to its stream's non-empty buffer and yields nothing |
| Midi2ParserProperties.SysEx8ContinuesAppend | Sources/MIDIKitIO/Parser/MIDI2Parser.swift:799-813 | a run of continue packets on one stream appends all their payloads, in order, to that stream's buffer and yields nothing |
| Midi2ParserProperties.SysEx8StartStep | Sources/MIDIKitIO/Parser/MIDI2Parser.swift:786-797 | a start packet sets its stream's buffer to the stream ID followed by its payload and yields nothing |
| Midi2ParserProperties.SysEx8EndStep | Sources/MIDIKitIO/Parser/MIDI2Parser.swift:815-843 | an end packet on a buffered stream removes that stream's buffer and yields the message of buffer plus payload |
| Midi2ParserProperties.SysEx8MultiPart | Sources/MIDIKitIO/Parser/MIDI2Parser.swift:786-843 | a start, continues and end sequence on one stream yields the SysEx8 message of the stream ID and all the payloads in order, and removes that stream's buffer |
| Midi2ParserProperties.SysEx8UnknownStreamIgnored | Sources/MIDIKitIO/Parser/MIDI2Parser.swift:799-843 | a continue or end packet for a stream with no buffer yields nothing and changes no buffer |
| Midi2ParserProperties.MixedDataSetIgnored | Sources/MIDIKitIO/Parser/MIDI2Parser.swift:745-751 | a Mixed Data Set packet yields no event and changes no buffer |
| Midi2StaticParsers.ParseSystemRealTimeAndCommon | Sources/MIDIKit/Parser/MIDI2Parser.swift:125-205 | a three-byte system body decodes exactly when its status is one MIDIKit defines and every data byte it uses is below 0x80, and the event carries the packet's group |
| Midi2StaticParsers.ParseMidi1ChannelVoice | Sources/MIDIKit/Parser/MIDI2Parser.swift:212-320 | a three-byte MIDI 1.0 voice body decodes exactly when its status nibble is 0x8 to 0xE and every data byte it uses is below 0x80; the event is on the status byte's channel and the packet's group |
| Midi2StaticParsers.ParseData64Bit | Sources/MIDIKit/Parser/MIDI2Parser.swift:327-382 | only a seven-byte complete-status body can decode; one carrying at most five payload bytes yields the SysEx message of its payload framed by F0 and F7 |
| Midi2StaticParsers.ParsedEvents | Sources/MIDIKit/Parser/MIDI2Parser.swift:25-118 | a packet yields at most one event, none when it is empty or not a whole number of words, only for message types 0x1 to 0x3, and system and MIDI 1.0 events carry the packet's group |
| Midi2StaticParsers.UnhandledTypes | Sources/MIDIKit/Parser/MIDI2Parser.swift:46-114 | utility, MIDI 2.0 voice and 128-bit data packets and unknown message types yield no event |
| Midi2StaticParsers.MultiPacketSysExIgnored | Sources/MIDIKit/Parser/MIDI2Parser.swift:368-380 | start, continue and end SysEx7 packets yield no event: this revision has no multi-packet SysEx |
| Midi2StaticParsers.Upgrade | Sources/MIDIKit/Parser/MIDI2Parser.swift:125-320 | every non-SysEx event of this revision maps to an event of the later parser with the same group |
| Midi2StaticParsers.SystemAgreesWithLater | Sources/MIDIKit/Parser/MIDI2Parser.swift:125-205 | this revision's system parser decodes every input to the same event as the later one |
| Midi2StaticParsers.Midi1AgreesWithLater | Sources/MIDIKit/Parser/MIDI2Parser.swift:212-320 | this revision's MIDI 1.0 voice parser decodes every input to the same event as the later one, on the status byte's channel |
| Midi2StaticParsers.CompletePacketBody | Sources/MIDIKit/Parser/MIDI2Parser.swift:347-358 | a complete SysEx7 body states its payload length in the status byte's low nibble and carries the payload after it |
| Midi2StaticParsers.SixByteSysExDroppedAsWritten | Sources/MIDIKit/Parser/MIDI2Parser.swift:351-352 | as written, a complete SysEx7 packet with six payload bytes, the most a packet holds, is dropped |
| Midi2StaticParsers.SixByteSysExExample | Sources/MIDIKit/Parser/MIDI2Parser.swift:351-352 | the packet 30 06 01 02 03 04 05 06 yields nothing as written and its SysEx message once corrected |
| Midi2StaticParsers.CompleteSysExCorrected | Sources/MIDIKit/Parser/MIDI2Parser.swift:349-366 | with the length guard corrected, every complete SysEx7 packet of up to six bytes yields the message of its payload framed by F0 and F7 |
| Midi2StaticParsers.RevisionsAgreeBelowSix | Sources/MIDIKit/Parser/MIDI2Parser.swift:349-366 | the written and the corrected guard agree on every body that does not claim six payload bytes |
| ParameterNumberBundling.HolderStep | Sources/MIDIKitIO/Parser/ParameterNumberEventBundler.swift:108-153 | with an event held, the holder is always emptied and the held event is released unless the new event has a non-zero data entry LSB and the same parameter and data entry MSB; with nothing held, an event whose LSB is zero is held and removed from the stream, any other passes through |
| ParameterNumberBundling.PnStep | Sources/MIDIKitIO/Parser/ParameterNumberEventBundler.swift:81-106 | processing one event keeps at most one held RPN and one held NRPN, only holds an event of the new event's own kind, removes only parameter-number events with a zero LSB, and releases only events that were held |
| ParameterNumberBundling.Marks | Sources/MIDIKitIO/Parser/ParameterNumberEventBundler.swift:56-66 | marking a list of events gives one result per event, each either no change or remove, and keeps the holders valid |
| ParameterNumberBundling.RemoveIndices | Sources/MIDIKitIO/Parser/ParameterNumberEventBundler.swift:54-67 | the indices to remove are exactly the positions marked remove, in increasing order |
| ParameterNumberBundling.Bundle | Sources/MIDIKitIO/Parser/ParameterNumberEventBundler.swift:52-69 | processing a list of events keeps the holders valid |
| ParameterNumberBundling.Bundler.constructor | Sources/MIDIKitIO/Parser/ParameterNumberEventBundler.swift:24-46 | a new bundler holds no RPN and no NRPN |
| ParameterNumberBundling.Bundler.ProcessPn | Sources/MIDIKitIO/Parser/ParameterNumberEventBundler.swift:81-153 | the method's result, released events and new holders are those PnStep gives on the old holders |
| ParameterNumberBundling.Bundler.Process | Sources/MIDIKitIO/Parser/ParameterNumberEventBundler.swift:52-69 | the rewritten event list and the new holders are those Bundle gives on the old holders and the input list |
| ParameterNumberBundling.Bundler.MarkAll | Sources/MIDIKitIO/Parser/ParameterNumberEventBundler.swift:53-66 | the marking loop leaves the holders, released events, indices to remove and edited list that Marks gives |
| ParameterNumberBundling.RemoveMarked | Sources/MIDIKitIO/Parser/ParameterNumberEventBundler.swift:67 | removing the marked indices from the last to the first leaves exactly the events not marked remove, in order |
| ParameterNumberBundling.RemovalOrder | Sources/MIDIKitIO/Parser/ParameterNumberEventBundler.swift:67 | the indices to remove are increasing, so removing them last first never shifts an index yet to be removed |
| ParameterNumberBundling.FirstHalfHeld | Sources/MIDIKitIO/Parser/ParameterNumberEventBundler.swift:140-147 | an RPN or NRPN with a zero data entry LSB and nothing of its kind held is held and removed, and any event of the other kind held is released |
| ParameterNumberBundling.CompletionDropsHeld | Sources/MIDIKitIO/Parser/ParameterNumberEventBundler.swift:128-134 | a second packet with a non-zero LSB that matches the held first packet's parameter and MSB passes through and the held packet is dropped, not released |
| ParameterNumberBundling.TwoPacketSeriesMarks | Sources/MIDIKitIO/Parser/ParameterNumberEventBundler.swift:112-147 | a two-packet RPN or NRPN series marks the first packet for removal and the second as unchanged, holding nothing afterwards |
| ParameterNumberBundling.TwoPacketSeriesBundled | Sources/MIDIKitIO/Parser/ParameterNumberEventBundler.swift:52-153 | a two-packet series is bundled into its second packet alone |
| ParameterNumberBundling.ConsecutiveZeroLsbReleases | Sources/MIDIKitIO/Parser/ParameterNumberEventBundler.swift:119-123 | a zero-LSB event arriving while one of its kind is held releases every held event and holds nothing |
| ParameterNumberBundling.UnrelatedCompleteReleases | Sources/MIDIKitIO/Parser/ParameterNumberEventBundler.swift:135-138 | a non-zero-LSB event that does not match the held event releases every held event and passes through |
| ParameterNumberBundling.OtherEventReleases | Sources/MIDIKitIO/Parser/ParameterNumberEventBundler.swift:89-103 | any event that is neither RPN nor NRPN releases every held event and is itself unchanged |
| ParameterNumberBundling.CompleteEventPassesThrough | Sources/MIDIKitIO/Parser/ParameterNumberEventBundler.swift:148-151 | a non-zero-LSB event with nothing of its kind held passes through, releasing any event of the other kind |
| ParameterNumberBundling.NoParameterNumbersPassThrough | Sources/MIDIKitIO/Parser/ParameterNumberEventBundler.swift:52-69 | a non-empty list with no RPN or NRPN comes out as the held events followed by the list unchanged |
| ParameterNumberBundling.NothingInvented | Sources/MIDIKitIO/Parser/ParameterNumberEventBundler.swift:56-66 | every released or still-held event came from the input list or was held before |
| ParameterNumberBundling.BundleOutputFromInputs | Sources/MIDIKitIO/Parser/ParameterNumberEventBundler.swift:52-69 | every event the bundler outputs came from the input list or was held before |

Six more members model files whose paths contain spaces, which the source column above cannot hold; their sources are given here instead:

- `HuiWire.EncodeDelta` models `Sources/MIDIKitControlSurfaces/HUI/HUI Encode Utilities.swift`, lines 484-493: the encoded byte keeps the delta's magnitude in its low six bits and has bit 6 set exactly when the delta is not negative.
- `HuiWire.DeltaRoundTrip` models `Sources/MIDIKitControlSurfaces/HUI/HUI Encode Utilities.swift`, lines 474-515: decoding an encoded delta gives it back for every delta in -63 ... 63; -64 loses its magnitude and comes back as 0.
- `HuiWire.DeltaByteRoundTrip` models `Sources/MIDIKitControlSurfaces/HUI/HUI Encode Utilities.swift`, lines 484-515: re-encoding a decoded byte gives the byte back, except 0 ("minus zero"), which comes back as 64.
- `HuiWire.EncodeFader` models `Sources/MIDIKitControlSurfaces/HUI/HUI Encode Utilities.swift`, lines 114-132: a fader level is sent as two control changes (MSB on the channel's controller, LSB on controller 0x20 + channel); HuiCoreDecoders.FaderRoundTrip proves the decoder reads the level back.
- `HuiWire.EncodeSwitch` models `Sources/MIDIKitControlSurfaces/HUI/HUI Encode Utilities.swift`, lines 42-78: a switch is sent as two control changes, zone select then port with bit 6 for "on"; HuiCoreDecoders.SwitchRoundTrip proves the decoder reads zone, port and state back.
- `HuiWire.HuiSysEx` models `Sources/MIDIKitControlSurfaces/HUI/HUI Encode Utilities.swift`, lines 435-460: the message is a SysEx7 to the HUI manufacturer whose data is the two sub-IDs followed by the body.
- `HuiWire.EncodeSmallDisplay` models `Sources/MIDIKitControlSurfaces/HUI/HUI Encode Utilities.swift`, lines 412-425: after the sub-IDs come the small-display type byte, the display number and the character codes; HuiParsers.SmallDisplayRoundTrip proves the parser reads it back.
- `HuiWire.EncodeLargeDisplaySlice` models `Sources/MIDIKitControlSurfaces/HUI/HUI Encode Utilities.swift`, lines 347-360: after the sub-IDs come the large-display type byte, the slice index and the character codes; HuiParsers.LargeDisplayRoundTrip proves the parser reads it back.
- `HuiWire.EncodeTimeDisplay` models `Sources/MIDIKitControlSurfaces/HUI/HUI Encode Utilities.swift`, lines 390-400: after the sub-IDs come the time-display type byte and the characters right to left, truncated to the first eight; HuiParsers.TimeDisplayRoundTrip proves the parser reads it back.
- `Midi1Parsers.Midi1Bytes` models `Sources/MIDIKitCore/Events/MIDIEvent/MIDIEvent rawBytes.swift`, lines 12-128: every encoded channel-voice or system event starts with a status byte.

Some members model code that the repository repeats in a second place; the table cites the first, and the same member models the other:

- `EventFilters.DropKindsInternalAsWritten` and `EventFilters.DropKindsInternal`: the `ChannelVoiceMessage` collection's internal `filter(_ kinds:)` and `drop(_ kinds:)` at `Sources/MIDIKitEvents/MIDIEvent/Filter.swift:505-519` repeat the per-category ones, drop defect included.
- `MidiUnsignedInteger.Make`, `Exactly`, `Clamping`, `MaxAs`, `Add`, `Sub`, `Mul` and `Advanced`: the older `Sources/MIDIKitCore/Types/MIDIIntegerProtocol.swift` (lines 53-61, 237-244, 67-73, 192-195, 260-262, 266-268, 246-248 and 177-179) has the same initialisers, operators and methods.
- `MidiUnsignedInteger.Midpoints`: the UInt7 midpoint 64 at `Sources/MIDIKitCore/Types/UInt7.swift:66-67` is half of 2^7, as 8192 is of 2^14.
- `HuiLookups.ParameterInit`: the legacy `MIDI.HUI.Parameter` enum has the same initialiser at `Sources/MIDIKit/HUI/HUI/Parameter/Parameter.swift:382-393`.
- `HuiLookups.StripZone`: `HUISwitch.zoneAndPort` makes the same conversion at `Sources/MIDIKitControlSurfaces/HUI/HUISwitch/HUISwitch.swift:366-370`.
- `MidiUnsignedInteger.WidthConstants`: also `Sources/MIDIKitCore/Types/UInt7.swift:32`, `Sources/MIDIKitCore/Types/UInt9.swift:32`, `Sources/MIDIKitCore/Types/UInt14.swift:39`.
- `OSStatus.NamedCodesInOrder`: also `Sources/MIDIKit/IO/Errors/MIDIOSStatus.swift:100-125`.
- `OSStatus.FromRawValue`: also `Sources/MIDIKitIO/Errors/MIDIOSStatus.swift:137-160`, `Sources/MIDIKit/IO/Errors/MIDIOSStatus.swift:127-150`.
- `OSStatus.ThrowIfOSStatusErr`: also `Sources/MIDIKitIO/Errors/MIDIOSStatus.swift:240-244`, `Sources/MIDIKit/IO/Errors/MIDIOSStatus.swift:247-253`.
- `OSStatus.ThrowIfErr`: also `Sources/MIDIKitIO/Errors/MIDIOSStatus.swift:229-235`, `Sources/MIDIKit/IO/Errors/MIDIOSStatus.swift:232-242`.
- `Timespecs.Add`: also `Sources/MIDIKitSync/Utilities/Timespec.swift:68-76`.
- `Timespecs.Sub`: also `Sources/MIDIKitSync/Utilities/Timespec.swift:80-99`.
- `Timespecs.GreaterIsNotEarlier`: also `Sources/MIDIKitSync/Utilities/Timespec.swift:128-130`.

## Left out

- Input and output: Core MIDI endpoints, connections, threads, locks and logger output are not modelled; the parsers and encoders are modelled on the bytes they are given and the values they return.
- Floating point: `zeroMidpointFloat`, the beat-based `elapsedBeats`, the floating comparisons of `MusicalTimeValue` and the note frequency of `MIDINote` are not modelled.
- Descriptions and debug strings (`description`, `debugDescription`, OSStatus messages) are not modelled.
- Variable-length quantities in Standard MIDI Files are decoded and encoded by a parameter; the codec's own source is not part of this model.
- The SMF track's event decoders and encoders are parameters; their per-event byte layouts are not part of this model.
- Timecode arithmetic used by the MTC encoder (increment, decrement, frame-rate conversion) is a record of parameters, because that library is not part of this model.
- The HUI character tables of the control-surfaces edition (`HUIConstants`, `kCharTables`) are not part of this model; they are passed in as parameters. The legacy edition's tables are passed the same way and tied to the constants that `Constants.swift` lists.
- `split(every:)` is not part of this model; `HuiWire.SplitEvery` models it.
- Building `MIDIEvent.sysEx7` and `MIDIEvent.sysEx8` events from their bytes is a decoder parameter (`Decoders`, `SysExDecoder`); only whether it succeeds and what it returns is used.
- The MIDI 2.0 parser's 32-bit to 14-bit value upscaling (`midi1Value`) is a parameter.
- The UMP field enums (`MIDIUMPMessageType`, `MIDIUMPSysExStatusField`, `MIDIUMPMixedDataSetStatusField`, `MIDIUMPUtilityStatusField`) are not part of this model; `UmpFields` gives their raw values as the parsers use them.
- The UMP encoders (`umpRawWords`) are not part of this model; `Midi2ParserProperties` writes its own reference encoders and proves the parsers invert them.
- The Mode and RPN payload types of `ControllerChange` are not modelled beyond their controller numbers.
- The legacy integer types keep their storage as an unbounded integer; only their range checks are modelled.
- The MIDIKitCore `MIDINote Name` file is not part of this model; the `Name` enumeration (scale offsets, spellings, `init?(_ string:)`, `convert`) follows the legacy `Sources/MIDIKit/MIDINote/MIDINote Name.swift`, lines 31-273, and the table cites the places in MIDIKitCore's `MIDINote.swift` that use it.
- `filterChannelVoiceAndConsolidate` is a parameter of the event filters.
- Midi2Parsers.ParseMidi1ChannelVoice: the `midi1ZeroVelocityAsNoteOff` option of the note-on constructor is not modelled. Only the MIDI 2.0 channel voice path passes `false` (Sources/MIDIKitIO/Parser/MIDI2Parser.swift:544, Sources/MIDIKit/IO/Parser/MIDI2Parser.swift:482), so its note-ons keep their velocity. The MIDI 1.0 channel voice path of both stateful parsers (Sources/MIDIKitIO/Parser/MIDI2Parser.swift:297-302, Sources/MIDIKit/IO/Parser/MIDI2Parser.swift:285-290) leaves the option at its default `true`, with which the constructor turns a velocity-0 note-on into a note-off; the constructor's body is not part of this model, and the model keeps such a message as a note-on of velocity 0. `Midi1Parsers.ParseSingleMessage`, `Midi1EventParsers` and `Midi2StaticParsers.ParseMidi1ChannelVoice` do not pass the option either; whatever the constructor they call does with a velocity of 0 is likewise not modelled, and they keep a note-on of velocity 0.
- Integer width: the model's integers are unbounded, so Swift `Int` overflow traps outside the MIDI integer types are not modelled: `abs(Int.min)` and the products `bar * beatsPerBar * ppq` in `MusicalTimeValue`, `timespec` second arithmetic, and note-number arithmetic in `MIDINote` past `Int.max`.
- ParameterNumberBundling.Bundler.Process: the timer of `EventHolder` is not modelled, so a held event is released only by the next event, never by the timer expiring; `EventHolder` is not part of this model.
- ParameterNumberBundling.Bundler.ProcessPn: the data entry LSB is modelled as always present, which is how the MIDI 2.0 parser builds RPN and NRPN events.
- SmfTrack.TrackRoundTrip: the round trip is stated only for events whose encoding fits the 512-byte read-ahead of `Sources/MIDIKitSMF/MIDIFile/Chunk/Track.swift:135`. The encoder writes longer events, such as a long SysEx, and SmfTrack.ReadAheadHidesLongEvent shows the decoder rejects any it cannot decode from 512 bytes. Whether a real SysEx decoder needs more is up to the event decoders, which are parameters here, so this is not listed as a finding.
- SmfChunks.AsciiBytes, SmfChunks.AsciiString, SmfChunks.ToAscii: the ASCII helpers `toASCIIBytes`/`toASCIIData`, `asciiDataToString` and `convertToASCII` are not part of this model. Their behaviour is assumed: one output per input character, '?' for a non-ASCII character, nil for any byte of 128 or more. `SmfChunks.MakeUnrecognized` and `SmfChunks.UnrecognizedRoundTrip` rest on these assumptions. The model also counts a string's length in Dafny characters, while the `count` that `init(id:)` pads or cuts by counts Swift grapheme clusters, so an identifier with combining characters is measured differently.
- `bundleRPNAndNRPNDataEntryLSB` is not modelled: the bundler's code never reads it.

## Findings

| source | as written | input that shows it | evidently intended | confidence | as-written member | corrected member |
|---|---|---|---|---|---|---|
| Sources/MIDIKitSMF/MusicalTimeValue/MusicalTimeValue.swift:104-111 | with beat divisions, the leftover ticks are the ticks within the beat modulo the division length, ignoring the divisions already counted | 11 ticks, PPQ 10, 3 divisions per beat, 4 beats per bar: bar 0, beat 1, division 0, ticks 2, which reads back as 12 ticks | leftover ticks are those after the last whole division, so `elapsedTicks()` gives the count back | not executed | MusicalTime.AsWrittenLosesTicks | MusicalTime.ElapsedTicksRoundTrip |
| Sources/MIDIKitSMF/MusicalTimeValue/MusicalTimeValue.swift:155-164 | the conditional binds looser than `+`, so a negative value displays as "-" alone | any negative value | the sign followed by the joined components | not executed | MusicalTime.NegativeDisplaysBareSign | MusicalTime.StringValueKeepsComponents |
| Sources/MIDIKitCore/Types/MIDIUnsignedInteger.swift:73-75 | truncates to the storage width, then range-checks, so storage-sized values above the maximum trap | UInt7(truncatingIfNeeded: 200) | truncation to the type's own bit width, 72 | not executed | MidiUnsignedInteger.TruncatingIfNeededTraps | MidiUnsignedInteger.Truncating |
| Sources/MIDIKitCore/Types/MIDIUnsignedInteger.swift:187-189 | converts the distance to the unsigned storage type, which traps for negative distances | UInt7 5 advanced by -1 | stepping back, 4 | not executed | MidiUnsignedInteger.AdvancedBackwardTraps | MidiUnsignedInteger.AdvancedChecked |
| Sources/MIDIKitCore/Types/MIDIUnsignedInteger.swift:232-234 | shifts the storage without masking, so the value can leave the type's range | UInt7 64 <<= 1 stores 128 | the shifted value kept within the type's bits, 0 | not executed | MidiUnsignedInteger.ShiftLeftAssignLeavesRange | MidiUnsignedInteger.ShiftLeftAssign |
| Sources/MIDIKitEvents/MIDIEvent/Filter.swift:266-273 | the channel voice branch of `drop(pattern:)` keeps an event when the consolidated pattern accepts it, the same test as `filter(pattern:)` | one note-on and a pattern whose consolidated first entry accepts note-on: both `filter(pattern:)` and `drop(pattern:)` return it | drop a channel voice event exactly when `filter(pattern:)` keeps it, as the system and raw branches do | not executed | EventFilters.DropPatternAsWrittenKeepsAccepted | EventFilters.FilterDropPatternPartition |
| Sources/MIDIKitEvents/MIDIEvent/Filter.swift:494-499 | the drop filter keeps an event when any listed kind differs from it; the `ChannelVoiceMessage` collection's drop at lines 514-519 repeats the same test | dropping an event's own kind together with any other kind keeps the event; dropping no kinds drops everything | keep an event exactly when it is of none of the listed kinds | not executed | EventFilters.DropInternalAsWrittenKeepsListedKind | EventFilters.InternalFilterDropPartition |
| Sources/MIDIKitSMF/MIDIFile/Chunk/UnrecognizedChunk.swift:27-41 | the reserved identifiers are checked before the identifier is cut to four characters | "MThdX" becomes "MThd" | the check applies to the identifier as stored | not executed | SmfChunks.TruncationReachesReserved | SmfChunks.NormaliseIdentifier |
| Sources/MIDIKitControlSurfaces/HUI/HUIDecoder/HUICoreDecoder.swift:221-236 | every large-display slice takes its letters from the first slice's offset | two slices, for zones 0 and 1 | each slice takes its own ten letters | not executed | HuiCoreDecoders.LargeDisplaySecondSliceLetters | HuiCoreDecoders.LargeDisplayKeepsSliceLetters |
| Sources/MIDIKitControlSurfaces/HUI/HUIDecoder/HUICoreDecoder.swift:170-213 | the range `1...0` is formed when nothing follows the display type byte, which traps | a small-display message with an empty payload after its type byte | reject the message as malformed | not executed | HuiCoreDecoders.EmptyDisplayMessageTraps | HuiCoreDecoders.ParseSysEx |
| Sources/MIDIKit/HUI/HUI/Parser/Parser.swift:206-219 | only data bytes 0x00 to 0x07 reach the fader parser, so the LSB messages 0x20 to 0x27 that complete a fader move never do | B0 00 10 then B0 20 05 | report fader 0 at level 0x10 times 128 plus 5 | not executed | HuiLegacyParsers.FaderMoveLostAsWritten | HuiLegacyParsers.FaderLevelFromTwoMessages |
| Sources/MIDIKit/Events/Parser/MIDI1Parser.swift:84-107 | system common status bytes are appended to the message in progress without flushing it first | 90 40 40 F6 traps converting 0xF6 to a 7-bit value | flush the message in progress before a system common status | not executed | Midi1EventParsers.SystemCommonTrapsAsWritten | Midi1EventParsers.CorrectedNeverTraps |
| Sources/MIDIKit/Parser/MIDI2Parser.swift:351-352 | a complete SysEx7 packet needs two bytes beyond its payload, so a full six-byte payload is dropped | 30 06 01 02 03 04 05 06 | accept payloads of zero to six bytes | not executed | Midi2StaticParsers.SixByteSysExExample | Midi2StaticParsers.CompleteSysExCorrected |
