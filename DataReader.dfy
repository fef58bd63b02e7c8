/**
 * `PassiveDataReader`: sequential reading of a byte buffer that is never
 * modified, through a read offset that the reading methods advance.
 * `advanceBy` is unchecked, so the offset may leave the buffer; reads from
 * such an offset fail, except that a 0-byte read always succeeds.
 */
module DataReaders {
  import opened Wrappers
  import opened ByteOrder

  datatype ReadError =
    | PastEndOfStream
    | InvalidByteCount
      /** Swift's runtime trap for subscripting a buffer at a negative offset. */
    | IndexOutOfRange

  /** A successful read: the bytes and how far the offset moves. */
  datatype Chunk = Chunk(bytes: seq<Byte>, advanceCount: int)

  /**
   * `data(bytes:)`: the bytes a read of `count` bytes (all remaining bytes
   * when `count` is nil) at `offset` returns, and how far it advances.
   */
  function Peek(data: seq<Byte>, offset: int, count: Option<int>): (r: Result<Chunk, ReadError>)
    ensures count == Some(0) ==> r == Success(Chunk([], 0))
    ensures count.Some? && count.value < 0 ==> r == Failure(InvalidByteCount)
    ensures r.Success? && count != Some(0) ==>
              0 <= offset && offset + r.value.advanceCount <= |data| &&
              1 <= r.value.advanceCount &&
              r.value.bytes == data[offset..offset + r.value.advanceCount]
    ensures r.Success? && count.Some? ==> r.value.advanceCount == count.value
    ensures r.Success? && count.None? ==> offset + r.value.advanceCount == |data|
    ensures count.Some? && count.value != 0 && count.value > |data| - offset ==> r.Failure?
    ensures count.Some? && 0 < count.value && 0 <= offset && offset + count.value <= |data| ==>
              r.Success?
  {
    if count == Some(0) then Success(Chunk([], 0))
    else if count.Some? && count.value < 0 then Failure(InvalidByteCount)
    else
      var remaining := |data| - offset;
      var n := if count.Some? then count.value else remaining;
      if n > remaining then Failure(PastEndOfStream)
      else if !(0 <= offset < |data| && 0 <= offset + n - 1 < |data|) then Failure(PastEndOfStream)
      else Success(Chunk(data[offset..offset + n], n))
  }

  /** Reading all remaining bytes when none remain fails, unlike a 0-byte read. */
  lemma ReadRestAtEnd(data: seq<Byte>)
    ensures Peek(data, |data|, None) == Failure(PastEndOfStream)
    ensures Peek(data, |data|, Some(0)).Success?
  {
  }

  /** `dataByte()`: the byte at the offset. */
  function PeekByte(data: seq<Byte>, offset: int): (r: Result<Byte, ReadError>)
    ensures r.Success? <==> 0 <= offset < |data|
    ensures r.Success? ==> r.value == data[offset]
    ensures offset >= |data| ==> r == Failure(PastEndOfStream)
  {
    if |data| - offset <= 0 then Failure(PastEndOfStream)
    else if offset < 0 then Failure(IndexOutOfRange)
    else Success(data[offset])
  }

  /** A single-byte read returns what a one-byte `Peek` returns. */
  lemma PeekByteAgrees(data: seq<Byte>, offset: int)
    requires 0 <= offset
    ensures PeekByte(data, offset).Success? <==> Peek(data, offset, Some(1)).Success?
    ensures PeekByte(data, offset).Success? ==>
              Peek(data, offset, Some(1)).value.bytes == [PeekByte(data, offset).value]
  {
  }

  class DataReader {
    const data: seq<Byte>
    var readOffset: int

    constructor (data: seq<Byte>)
      ensures this.data == data && readOffset == 0
    {
      this.data := data;
      readOffset := 0;
    }

    function RemainingByteCount(): (n: int)
      reads this
      ensures readOffset + n == |data|
    {
      |data| - readOffset
    }

    method Reset()
      modifies this
      ensures readOffset == 0
    {
      readOffset := 0;
    }

    /** Unchecked: the offset may move outside the data. */
    method AdvanceBy(count: int)
      modifies this
      ensures readOffset == old(readOffset) + count
    {
      readOffset := readOffset + count;
    }

    method ReadByte() returns (r: Result<Byte, ReadError>)
      modifies this
      ensures r == PeekByte(data, old(readOffset))
      ensures readOffset == if r.Success? then old(readOffset) + 1 else old(readOffset)
    {
      r := PeekByte(data, readOffset);
      if r.Success? {
        readOffset := readOffset + 1;
      }
    }

    function NonAdvancingReadByte(): (r: Result<Byte, ReadError>)
      reads this
      ensures r.Success? <==> 0 <= readOffset < |data|
      ensures r.Success? ==> r.value == data[readOffset]
    {
      PeekByte(data, readOffset)
    }

    method Read(count: Option<int>) returns (r: Result<seq<Byte>, ReadError>)
      modifies this
      ensures var p := Peek(data, old(readOffset), count);
              (p.Success? ==> r == Success(p.value.bytes) &&
                              readOffset == old(readOffset) + p.value.advanceCount) &&
              (p.Failure? ==> r == Failure(p.error) && readOffset == old(readOffset))
    {
      var p := Peek(data, readOffset, count);
      if p.Success? {
        readOffset := readOffset + p.value.advanceCount;
        r := Success(p.value.bytes);
      } else {
        r := Failure(p.error);
      }
    }

    function NonAdvancingRead(count: Option<int>): (r: Result<seq<Byte>, ReadError>)
      reads this
      ensures r.Success? <==> Peek(data, readOffset, count).Success?
      ensures r.Success? ==> r.value == Peek(data, readOffset, count).value.bytes
    {
      var p := Peek(data, readOffset, count);
      if p.Success? then Success(p.value.bytes) else Failure(p.error)
    }
  }

  /** Two reads in a row return the same bytes as one read of both counts. */
  lemma ConsecutiveReads(data: seq<Byte>, offset: int, m: int, n: int)
    requires 0 < m && 0 < n
    requires Peek(data, offset, Some(m)).Success?
    requires Peek(data, offset + m, Some(n)).Success?
    ensures Peek(data, offset, Some(m + n)).Success?
    ensures Peek(data, offset, Some(m + n)).value.bytes ==
              Peek(data, offset, Some(m)).value.bytes + Peek(data, offset + m, Some(n)).value.bytes
  {
    assert data[offset..offset + m + n] == data[offset..offset + m] + data[offset + m..offset + m + n];
  }
}
