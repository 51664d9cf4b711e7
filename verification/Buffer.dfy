/**
 The growable byte queue of include/net/Buffer.h and src/net/Buffer.cc: one
 array, a reader and a writer index, and a compaction that reuses read space.
 A byte is a char; its code is the byte's value.
 */
module ByteBuffer {

  const CHEAP_PREPEND := 8
  const INITIAL_SIZE := 1024
  const EXTRA_SIZE := 65536

  // What readv returns: bytes, or an error.
  datatype ReadResult = Data(bytes: seq<char>) | Failed

  // Copy data into a from position at on; the rest of a keeps its bytes.
  method Fill(a: array<char>, at: nat, data: seq<char>)
    requires at + |data| <= a.Length
    modifies a
    ensures a[..at] == old(a[..at]) && a[at..at + |data|] == data
    ensures a[at + |data|..] == old(a[at + |data|..])
  {
    forall i | 0 <= i < |data| {
      a[at + i] := data[i];
    }
  }

  // std::copy within one array, downwards: upward order reads every byte before overwriting it.
  method Slide(a: array<char>, from: nat, n: nat, to: nat)
    requires to <= from && from + n <= a.Length
    modifies a
    ensures a[to..to + n] == old(a[from..from + n])
  {
    ghost var was := a[..];
    for i := 0 to n
      invariant a[to..to + i] == was[from..from + i]
      invariant a[to + i..] == was[to + i..]
    {
      assert a[from + i] == a[to + i..][from - to] == was[to + i..][from - to];
      a[to + i] := a[from + i];
      assert was[from..from + i + 1] == was[from..from + i] + [was[from + i]];
    }
  }

  class Buffer {
    var buffer: array<char>
    var readerIndex: nat
    var writerIndex: nat

    ghost predicate Valid()
      reads this
    {
      CHEAP_PREPEND <= readerIndex <= writerIndex <= buffer.Length
    }

    // The readable bytes, oldest first: the queue the buffer stands for.
    function Contents(): seq<char>
      requires Valid()
      reads this, buffer
    {
      buffer[readerIndex..writerIndex]
    }

    function ReadableBytes(): (n: nat)
      requires Valid()
      reads this, buffer
      ensures n == |Contents()|
    {
      writerIndex - readerIndex
    }

    function WritableBytes(): nat
      requires Valid()
      reads this
    {
      buffer.Length - writerIndex
    }

    constructor (initialSize: nat := INITIAL_SIZE)
      ensures Valid() && Contents() == [] && fresh(buffer)
    {
      buffer := new char[CHEAP_PREPEND + initialSize](_ => '\0');
      readerIndex, writerIndex := CHEAP_PREPEND, CHEAP_PREPEND;
    }

    // Asking for more than there is empties the buffer.
    method Retrieve(len: nat)
      requires Valid()
      modifies this`readerIndex, this`writerIndex
      ensures Valid()
      ensures Contents() == if len < |old(Contents())| then old(Contents())[len..] else []
    {
      if len < ReadableBytes() {
        readerIndex := readerIndex + len;
      } else {
        RetrieveAll();
      }
    }

    method RetrieveAll()
      requires Valid()
      modifies this`readerIndex, this`writerIndex
      ensures Valid() && Contents() == []
    {
      readerIndex := CHEAP_PREPEND;
      writerIndex := CHEAP_PREPEND;
    }

    method RetrieveAsString(len: nat) returns (result: string)
      requires Valid() && len <= |Contents()|
      modifies this`readerIndex, this`writerIndex
      ensures Valid() && result + Contents() == old(Contents()) && |result| == len
    {
      result := buffer[readerIndex..readerIndex + len];
      Retrieve(len);
    }

    // The bytes past the writer index become readable when it moves over them.
    lemma Extended(upTo: nat)
      requires Valid() && writerIndex <= upTo <= buffer.Length
      ensures buffer[readerIndex..upTo] == buffer[..writerIndex][readerIndex..] + buffer[writerIndex..upTo]
      ensures Contents() == buffer[..writerIndex][readerIndex..]
    {}

    // Grow the array, or slide the readable bytes down over what has been read.
    method MakeSpace(len: nat)
      requires Valid() && WritableBytes() < len
      modifies this, buffer
      ensures Valid() && Contents() == old(Contents()) && WritableBytes() >= len
      ensures buffer == old(buffer) || fresh(buffer)
    {
      if WritableBytes() + readerIndex < len + CHEAP_PREPEND {
        var grown := new char[writerIndex + len](_ => '\0');
        forall i | 0 <= i < buffer.Length {
          grown[i] := buffer[i];
        }
        assert grown[readerIndex..writerIndex] == buffer[readerIndex..writerIndex];
        buffer := grown;
      } else {
        var readable := ReadableBytes();
        Slide(buffer, readerIndex, readable, CHEAP_PREPEND);
        readerIndex := CHEAP_PREPEND;
        writerIndex := readerIndex + readable;
      }
    }

    method EnsureWritableBytes(len: nat)
      requires Valid()
      modifies this, buffer
      ensures Valid() && Contents() == old(Contents()) && WritableBytes() >= len
      ensures buffer == old(buffer) || fresh(buffer)
    {
      if WritableBytes() < len {
        MakeSpace(len);
      }
    }

    // Bytes land in the free space and the writer index moves past them.
    method Commit(data: seq<char>)
      requires Valid() && |data| <= WritableBytes()
      modifies this`writerIndex, buffer
      ensures Valid() && Contents() == old(Contents()) + data
      ensures writerIndex == old(writerIndex) + |data|
    {
      Extended(writerIndex);
      Fill(buffer, writerIndex, data);
      Extended(writerIndex + |data|);
      writerIndex := writerIndex + |data|;
    }

    method Append(data: seq<char>)
      requires Valid()
      modifies this, buffer
      ensures Valid() && Contents() == old(Contents()) + data
      ensures buffer == old(buffer) || fresh(buffer)
    {
      EnsureWritableBytes(|data|);
      Commit(data);
    }

    // The most readv may deliver: the free space, and 64 KiB more when that is smaller.
    ghost function ReadLimit(): nat
      requires Valid()
      reads this
    {
      WritableBytes() + if WritableBytes() < EXTRA_SIZE then EXTRA_SIZE else 0
    }

    // Read what the kernel has, into the free space first and a stack buffer second.
    method ReadFd(input: ReadResult) returns (n: int)
      requires Valid() && (input.Data? ==> |input.bytes| <= ReadLimit())
      modifies this, buffer
      ensures Valid()
      ensures input.Failed? ==> n == -1 && Contents() == old(Contents())
      ensures input.Data? ==> n == |input.bytes| && Contents() == old(Contents()) + input.bytes
      ensures buffer == old(buffer) || fresh(buffer)
    {
      if input.Failed? {
        return -1;
      }
      ghost var was := Contents();
      var writable := WritableBytes();
      var bytes := input.bytes;
      n := |bytes|;
      if n <= writable {
        Commit(bytes);
      } else {
        // readv filled the whole tail, then the stack buffer.
        Commit(bytes[..writable]);
        assert writerIndex == buffer.Length;
        var extra := new char[EXTRA_SIZE](_ => '\0');
        Fill(extra, 0, bytes[writable..]);
        Append(extra[..n - writable]);
        assert (was + bytes[..writable]) + bytes[writable..] == was + bytes;
      }
    }
  }
}
