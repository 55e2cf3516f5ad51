/**
 The receive and send buffer of a connection (Net/src/TcpBuffer.cpp, Net/include/TcpBuffer.h): an array
 with a reserved space in front, the bytes that can be read, and the space that can be written.

 What it keeps is a queue of bytes.  A pointer into the array is an index.  The system call that fills
 the two parts of a scatter read is a parameter: the bytes that it delivers.
 */
module TcpBuffer {
  import opened Options

  newtype Byte = x: int | 0 <= x < 0x100

  ghost predicate OccursAt(bytes: seq<Byte>, border: seq<Byte>, k: nat) {
    k + |border| <= |bytes| && bytes[k..k + |border|] == border
  }

  class TcpBuffer {
    var buffer: array<Byte>
    const prependSize: nat
    var readIndex: nat
    var writeIndex: nat

    /** What check_index_validity asserts, and that the indices stay inside the array. */
    ghost predicate Valid()
      reads this
    {
      prependSize <= readIndex <= writeIndex <= buffer.Length
    }

    /** The bytes that can be read. */
    ghost function Contents(): (bytes: seq<Byte>)
      reads this, buffer
      requires Valid()
      ensures |bytes| == ReadableSize()
    {
      buffer[readIndex..writeIndex]
    }

    constructor (initialSize: nat := 1024, prependSize: nat := 8)
      ensures Valid() && fresh(buffer) && Contents() == []
      ensures this.prependSize == prependSize && buffer.Length == prependSize + initialSize
      ensures readIndex == writeIndex == prependSize
    {
      buffer := new Byte[prependSize + initialSize](_ => 0);
      this.prependSize := prependSize;
      readIndex, writeIndex := prependSize, prependSize;
    }

    function ReadableSize(): nat
      reads this
      requires Valid()
    {
      writeIndex - readIndex
    }

    function WritableSize(): nat
      reads this
      requires Valid()
    {
      buffer.Length - writeIndex
    }

    function PrependableSize(): nat
      reads this
    {
      readIndex
    }

    /** Moves the readable bytes to the front of the usable space, so that all the free space is behind them. */
    method ReusePrependableSpace()
      requires Valid()
      modifies this`readIndex, this`writeIndex, buffer
      ensures Valid() && Contents() == old(Contents()) && readIndex == prependSize
    {
      var readable := ReadableSize();
      ghost var contents := Contents();
      var i := 0;
      while i < readable
        invariant 0 <= i <= readable
        invariant Valid() && readIndex == old(readIndex) && writeIndex == old(writeIndex)
        invariant buffer[prependSize..prependSize + i] == contents[..i]
        invariant buffer[readIndex + i..writeIndex] == contents[i..]
        modifies buffer
      {
        assert buffer[readIndex + i] == buffer[readIndex + i..writeIndex][0];
        buffer[prependSize + i] := buffer[readIndex + i];
        i := i + 1;
      }
      readIndex := prependSize;
      writeIndex := readIndex + readable;
    }

    /** The array with more room at its end, as a vector's resize makes it; with the size it has it stays. */
    method Resize(size: nat)
      requires Valid() && size >= buffer.Length
      modifies this`buffer
      ensures Valid() && buffer.Length == size
      ensures if size == old(buffer.Length) then buffer == old(buffer) else fresh(buffer)
      ensures Contents() == old(Contents())
    {
      if size == buffer.Length {
        return;
      }
      var bigger := new Byte[size](_ => 0);
      forall k | 0 <= k < buffer.Length {
        bigger[k] := buffer[k];
      }
      buffer := bigger;
    }

    /** Makes room for `size` more bytes: by moving the readable ones when that frees enough, or else by a
        larger array. */
    method Expend(size: nat)
      requires Valid()
      modifies this`buffer, this`readIndex, this`writeIndex, buffer
      ensures Valid() && Contents() == old(Contents())
      ensures WritableSize() >= size
      ensures buffer.Length >= old(buffer.Length)
      ensures buffer == old(buffer) || fresh(buffer)
      ensures buffer == old(buffer) <==> old(WritableSize() + PrependableSize()) >= size + prependSize
      ensures fresh(buffer) ==> WritableSize() == size
    {
      if WritableSize() + PrependableSize() > size + prependSize {
        ReusePrependableSpace();
      } else {
        ReusePrependableSpace();
        Resize(writeIndex + size);
      }
    }

    method EnsureWritableBytes(len: nat)
      requires Valid()
      modifies this`buffer, this`readIndex, this`writeIndex, buffer
      ensures Valid() && Contents() == old(Contents()) && WritableSize() >= len
      ensures buffer == old(buffer) || fresh(buffer)
      ensures buffer.Length >= old(buffer.Length)
      ensures old(WritableSize()) >= len ==> buffer == old(buffer) && readIndex == old(readIndex) && writeIndex == old(writeIndex)
    {
      if WritableSize() < len {
        Expend(len);
      }
    }

    /** Copies bytes to where they can be written. */
    method CopyIn(data: seq<Byte>)
      requires Valid() && |data| <= WritableSize()
      modifies buffer
      ensures Contents() == old(Contents()) && buffer[writeIndex..writeIndex + |data|] == data
    {
      forall k | 0 <= k < |data| {
        buffer[writeIndex + k] := data[k];
      }
    }

    method Append(data: seq<Byte>)
      requires Valid()
      modifies this`buffer, this`readIndex, this`writeIndex, buffer
      ensures Valid() && Contents() == old(Contents()) + data
      ensures buffer == old(buffer) || fresh(buffer)
      ensures buffer.Length >= old(buffer.Length)
    {
      EnsureWritableBytes(|data|);
      CopyIn(data);
      HasWritten(|data|);
    }

    /** Bytes that were put behind the readable ones become readable. */
    method HasWritten(len: nat)
      requires Valid() && len <= WritableSize()
      modifies this`writeIndex
      ensures Valid() && Contents() == old(Contents()) + old(buffer[writeIndex..writeIndex + len])
      ensures writeIndex == old(writeIndex) + len
    {
      writeIndex := writeIndex + len;
    }

    /** Takes back the last bytes written. */
    method Unwrite(len: nat)
      requires Valid() && len <= ReadableSize()
      modifies this`writeIndex
      ensures Valid() && Contents() == old(Contents())[..old(ReadableSize()) - len]
      ensures writeIndex == old(writeIndex) - len
    {
      writeIndex := writeIndex - len;
      assert buffer[readIndex..writeIndex] == old(buffer[readIndex..writeIndex])[..writeIndex - readIndex];
    }

    /** Drops bytes from the front; an empty buffer starts over. */
    method Consume(size: nat)
      requires Valid() && size <= ReadableSize()
      modifies this`readIndex, this`writeIndex
      ensures Valid() && Contents() == old(Contents())[size..]
      ensures old(ReadableSize()) == size ==> readIndex == writeIndex == prependSize
    {
      if size < ReadableSize() {
        readIndex := readIndex + size;
      } else {
        readIndex, writeIndex := prependSize, prependSize;
      }
    }

    /** Drops bytes from the front and tells where they are, or nothing when there are too few. */
    method Retrieve(size: nat) returns (from: Option<nat>)
      requires Valid()
      modifies this`readIndex, this`writeIndex
      ensures Valid() && (from.Some? <==> size <= old(ReadableSize()))
      ensures match from
        case Some(k) => k + size <= buffer.Length && buffer[k..k + size] == old(Contents())[..size] &&
                        Contents() == old(Contents())[size..]
        case None => Contents() == old(Contents()) && readIndex == old(readIndex) && writeIndex == old(writeIndex)
    {
      if size <= ReadableSize() {
        from := Some(readIndex);
        assert buffer[readIndex..readIndex + size] == buffer[readIndex..writeIndex][..size];
        Consume(size);
      } else {
        from := None;
      }
    }

    /** appendFormFd: `received` is what the read delivers, into the writable space and, when that is smaller than the
        extra buffer of 65536 bytes, into this as well. */
    method AppendFromFd(received: Option<seq<Byte>>) returns (n: int)
      requires Valid()
      requires received.Some? ==> |received.value| <= WritableSize() + if WritableSize() < 65536 then 65536 else 0
      modifies this`buffer, this`readIndex, this`writeIndex, buffer
      ensures Valid() && buffer.Length >= old(buffer.Length)
      ensures buffer == old(buffer) || fresh(buffer)
      ensures match received
        case Some(data) => n == |data| && Contents() == old(Contents()) + data
        case None => n < 0 && Contents() == old(Contents())
    {
      if received.None? {
        return -1;
      }
      var data := received.value;
      var writable := WritableSize();
      n := |data|;
      var inPlace := if n <= writable then n else writable;
      assert data == data[..inPlace] + data[inPlace..];
      CopyIn(data[..inPlace]);
      if n > 0 {
        if n <= writable {
          HasWritten(n);
        } else {
          HasWritten(writable);
          assert Contents() == old(Contents()) + data[..writable];
          Append(data[writable..]);
        }
      }
    }

    /** Where the first occurrence of the border starts, counted from the first readable byte; the number of
        readable bytes when there is none. */
    method FindBorder(border: seq<Byte>) returns (len: nat)
      requires Valid()
      ensures len <= ReadableSize()
      ensures forall k :: 0 <= k < len ==> !OccursAt(Contents(), border, k)
      ensures OccursAt(Contents(), border, len) || (len == ReadableSize() && border != [])
    {
      len := 0;
      var readable := ReadableSize();
      var bytes := buffer[readIndex..writeIndex];
      while len + |border| <= readable
        invariant len <= readable + 1
        invariant forall k :: 0 <= k < len ==> !OccursAt(Contents(), border, k)
      {
        if bytes[len..len + |border|] == border {
          return;
        }
        len := len + 1;
      }
      len := readable;
    }

    /** clear and reset put both indices to 8, whatever the reserved space is: the indices stay valid
        exactly when the reserved space is at most 8 and the array at least 8 bytes large. */
    method Clear()
      modifies this`readIndex, this`writeIndex
      ensures readIndex == writeIndex == 8
      ensures Valid() <==> prependSize <= 8 <= buffer.Length
      ensures Valid() ==> Contents() == []
    {
      readIndex := 8;
      writeIndex := 8;
    }
  }

  /** A buffer with a larger reserved space is not valid any more after clear. */
  method ClearedTooLow() returns (b: TcpBuffer)
    ensures b.prependSize == 16 && b.readIndex == 8 && !b.Valid()
  {
    b := new TcpBuffer(1024, 16);
    b.Clear();
  }
}
