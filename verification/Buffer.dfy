/** The growable network buffer (src/net/Buffer.h, src/net/Buffer.cpp). */
module NetBuffer {
  import opened Bytes

  const CHEAP_PREPEND: nat := 8
  const INITIAL_SIZE: nat := 1024
  const EXTRA_BUF: nat := 65536

  /** What `readv` reports: an errno, or the octets the kernel delivered. */
  datatype ReadResult = Failed(errno: int) | Received(octets: seq<byte>)

  /** A CRLF starts at offset `i` of `s`. */
  predicate CrlfAt(s: seq<byte>, i: nat)
  {
    i + 1 < |s| && s[i] == 13 && s[i + 1] == 10
  }

  class Buffer {
    var data: array<byte>
    var readerIndex: nat
    var writerIndex: nat

    /** Indices ordered and in range; the prepend area always exists. */
    ghost predicate Valid()
      reads this
    {
      readerIndex <= writerIndex <= data.Length && CHEAP_PREPEND <= data.Length
    }

    /** The readable octets, which is all a client of the buffer can observe. */
    ghost function Contents(): (s: seq<byte>)
      requires Valid()
      reads this, data
    {
      data[readerIndex..writerIndex]
    }

    constructor (initSize: nat := INITIAL_SIZE)
      ensures Valid() && fresh(data) && Contents() == []
      ensures readerIndex == CHEAP_PREPEND && data.Length == CHEAP_PREPEND + initSize
    {
      data := new byte[CHEAP_PREPEND + initSize](_ => 0);
      readerIndex, writerIndex := CHEAP_PREPEND, CHEAP_PREPEND;
    }

    function ReadableBytes(): nat
      requires Valid()
      reads this
    {
      writerIndex - readerIndex
    }

    function WritableBytes(): nat
      requires Valid()
      reads this
    {
      data.Length - writerIndex
    }

    method RetrieveAll()
      requires Valid()
      modifies this
      ensures Valid() && data == old(data) && Contents() == []
    {
      readerIndex, writerIndex := CHEAP_PREPEND, CHEAP_PREPEND;
    }

    method Retrieve(len: nat)
      requires Valid() && len <= ReadableBytes()
      modifies this
      ensures Valid() && data == old(data)
      ensures Contents() == old(Contents())[len..]
    {
      if len < ReadableBytes() {
        readerIndex := readerIndex + len;
      } else {
        RetrieveAll();
      }
    }

    method RetrieveAsString(len: nat) returns (result: seq<byte>)
      requires Valid() && len <= ReadableBytes()
      modifies this
      ensures Valid() && data == old(data)
      ensures result + Contents() == old(Contents()) && |result| == len
    {
      result := data[readerIndex..readerIndex + len];
      Retrieve(len);
    }

    /** `std::copy` of foreign octets into the vector, from index `at` on. */
    method CopyIn(at: nat, octets: seq<byte>)
      requires at + |octets| <= data.Length
      modifies data
      ensures data[..] == old(data[..at]) + octets + old(data[at + |octets|..])
    {
      var i := 0;
      while i < |octets|
        invariant i <= |octets|
        invariant data[..at] == old(data[..at])
        invariant data[at..at + i] == octets[..i]
        invariant data[at + i..] == old(data[at + i..])
      {
        data[at + i] := octets[i];
        i := i + 1;
      }
    }

    /** `buffer_.resize(size)` for a larger size: the vector moves, its octets stay. */
    method Resize(size: nat)
      requires data.Length <= size
      modifies this`data
      ensures fresh(data) && data.Length == size
      ensures forall k :: 0 <= k < old(data.Length) ==> data[k] == old(data[k])
    {
      var grown := new byte[size](_ => 0);
      var i := 0;
      while i < data.Length
        modifies grown
        invariant i <= data.Length
        invariant forall k :: 0 <= k < i ==> grown[k] == data[k]
      {
        grown[i] := data[i];
        i := i + 1;
      }
      data := grown;
    }

    /** The forward `std::copy` of the readable octets to the cheap-prepend mark. The source lies
        strictly above the target, so every octet is read before it is overwritten. */
    method Compact()
      requires Valid() && CHEAP_PREPEND < readerIndex
      modifies this`readerIndex, this`writerIndex, data
      ensures Valid() && Contents() == old(Contents())
      ensures readerIndex == CHEAP_PREPEND
    {
      var readable := ReadableBytes();
      var i := 0;
      while i < readable
        modifies data
        invariant i <= readable
        invariant data[CHEAP_PREPEND..CHEAP_PREPEND + i] == old(Contents())[..i]
        invariant data[readerIndex + i..writerIndex] == old(Contents())[i..]
      {
        assert data[readerIndex + i] == data[readerIndex + i..writerIndex][0];
        data[CHEAP_PREPEND + i] := data[readerIndex + i];
        i := i + 1;
      }
      readerIndex := CHEAP_PREPEND;
      writerIndex := readerIndex + readable;
    }

    /** Compacts when the free space at both ends suffices, otherwise resizes; called only when the
        writable tail is too short, and then compaction only happens with the reader index strictly
        above the cheap-prepend mark (which is what makes the forward copy safe). */
    method MakeSpace(len: nat)
      requires Valid() && WritableBytes() < len
      modifies this, data
      ensures Valid() && Contents() == old(Contents())
      ensures WritableBytes() >= len
      ensures data == old(data) ==> old(readerIndex) > CHEAP_PREPEND == readerIndex
      ensures data != old(data) ==> fresh(data) && readerIndex == old(readerIndex)
    {
      if WritableBytes() + readerIndex < len + CHEAP_PREPEND {
        Resize(writerIndex + len);
      } else {
        Compact();
      }
    }

    method EnsureWritableBytes(len: nat)
      requires Valid()
      modifies this, data
      ensures Valid() && Contents() == old(Contents())
      ensures WritableBytes() >= len
      ensures data == old(data) || fresh(data)
    {
      if WritableBytes() < len {
        MakeSpace(len);
      }
    }

    method HasWritten(len: nat)
      requires Valid() && len <= WritableBytes()
      modifies this`writerIndex
      ensures Valid() && writerIndex == old(writerIndex) + len
    {
      writerIndex := writerIndex + len;
    }

    method Append(octets: seq<byte>)
      requires Valid()
      modifies this, data
      ensures Valid() && Contents() == old(Contents()) + octets
      ensures data == old(data) || fresh(data)
    {
      EnsureWritableBytes(|octets|);
      CopyIn(writerIndex, octets);
      HasWritten(|octets|);
    }

    method Prepend(octets: seq<byte>)
      requires Valid() && |octets| <= readerIndex
      modifies this, data
      ensures Valid() && data == old(data)
      ensures Contents() == octets + old(Contents())
    {
      readerIndex := readerIndex - |octets|;
      CopyIn(readerIndex, octets);
    }

    /** Two-part scatter read: the tail of the vector first, then a 64 KiB stack buffer. `io` is
        the kernel's answer, never longer than the space offered to it. */
    method ReadFd(io: ReadResult) returns (n: int)
      requires Valid()
      requires io.Received? ==>
        |io.octets| <= WritableBytes() + (if WritableBytes() < EXTRA_BUF then EXTRA_BUF else 0)
      modifies this, data
      ensures Valid() && (data == old(data) || fresh(data))
      ensures io.Failed? ==> n == -1 && Contents() == old(Contents())
      ensures io.Received? ==> n == |io.octets| && Contents() == old(Contents()) + io.octets
    {
      match io {
        case Failed(_) =>
          n := -1;
        case Received(octets) =>
          n := |octets|;
          var writable := WritableBytes();
          if n <= writable {
            CopyIn(writerIndex, octets);
            writerIndex := writerIndex + n;
          } else {
            var extrabuf := octets[writable..];
            CopyIn(writerIndex, octets[..writable]);
            writerIndex := data.Length;
            assert Contents() == old(Contents()) + octets[..writable];
            Append(extrabuf);
            assert octets == octets[..writable] + extrabuf;
          }
      }
    }

    /** `std::search` for CRLF over the readable part; -1 stands for the null pointer. */
    method FindCRLF() returns (at: int)
      requires Valid()
      ensures at >= 0 ==> CrlfAt(Contents(), at) && forall j: nat :: j < at ==> !CrlfAt(Contents(), j)
      ensures at < 0 ==> at == -1 && forall j: nat :: !CrlfAt(Contents(), j)
    {
      var i := 0;
      while i + 1 < ReadableBytes()
        invariant 0 <= i
        invariant forall j: nat :: j < i ==> !CrlfAt(Contents(), j)
      {
        if data[readerIndex + i] == 13 && data[readerIndex + i + 1] == 10 {
          return i;
        }
        i := i + 1;
      }
      return -1;
    }
  }
}
