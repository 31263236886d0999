// muduo::net::Buffer: a growable byte array split into a prependable
// header, the readable content and writable space, with
// 0 <= readerIndex <= writerIndex <= size.
module NetBuffer {
  import opened Bytes
  import StringPieces

  const kCheapPrepend: nat := 8
  const kInitialSize: nat := 1024
  const CR: byte := 13
  const LF: byte := 10

  /** s[i], s[i+1] is "\r\n". */
  predicate CRLFAt(s: seq<byte>, i: int)
  {
    0 <= i && i + 1 < |s| && s[i] == CR && s[i + 1] == LF
  }

  /** Copies data into a at index at, leaving every byte before at as it was. */
  method CopyInto(a: array<byte>, at: nat, data: seq<byte>)
    requires at + |data| <= a.Length
    modifies a
    ensures a[..at] == old(a[..at]) && a[at..at + |data|] == data
  {
    var i := 0;
    while i < |data|
      invariant 0 <= i <= |data|
      invariant forall k :: 0 <= k < at ==> a[k] == old(a[k])
      invariant forall k :: 0 <= k < i ==> a[at + k] == data[k]
    {
      a[at + i] := data[i];
      i := i + 1;
    }
    assert a[at..at + |data|] == data;
  }

  /** A new array of the given size starting with a's bytes (vector::resize). */
  method Grown(a: array<byte>, size: nat) returns (g: array<byte>)
    requires a.Length <= size
    ensures fresh(g) && g.Length == size && g[..a.Length] == a[..]
  {
    g := new byte[size];
    var i := 0;
    while i < a.Length
      invariant 0 <= i <= a.Length
      invariant forall k :: 0 <= k < i ==> g[k] == a[k]
    {
      g[i] := a[i];
      i := i + 1;
    }
    assert g[..a.Length] == a[..];
  }

  /** Moves n bytes from index from down to index to (std::copy towards the front). */
  method MoveDown(a: array<byte>, to: nat, from: nat, n: nat)
    requires to <= from && from + n <= a.Length
    modifies a
    ensures a[to..to + n] == old(a[from..from + n])
  {
    ghost var content := a[from..from + n];
    var i := 0;
    while i < n
      invariant 0 <= i <= n
      invariant forall k :: 0 <= k < i ==> a[to + k] == content[k]
      invariant forall k :: i <= k < n ==> a[from + k] == content[k]
    {
      a[to + i] := a[from + i];
      i := i + 1;
    }
    assert a[to..to + n] == content;
  }

  /** A slice inside a kept prefix is kept. */
  lemma SliceOfPrefix(a: seq<byte>, b: seq<byte>, i: nat, j: nat)
    requires |b| <= |a| && a[..|b|] == b && i <= j <= |b|
    ensures a[i..j] == b[i..j]
  {
    assert forall k :: i <= k < j ==> a[k] == a[..|b|][k];
  }

  class Buffer {
    var buffer: array<byte>
    var readerIndex: nat
    var writerIndex: nat

    ghost predicate Valid()
      reads this
    {
      kCheapPrepend <= buffer.Length && readerIndex <= writerIndex <= buffer.Length
    }

    /** The readable content, [readerIndex, writerIndex). */
    function Readable(): seq<byte>
      reads this, buffer
      requires Valid()
    {
      buffer[readerIndex..writerIndex]
    }

    function ReadableBytes(): (n: nat)
      reads this
      requires Valid()
      ensures n == writerIndex - readerIndex
    {
      writerIndex - readerIndex
    }

    function WritableBytes(): (n: nat)
      reads this
      requires Valid()
      ensures n == buffer.Length - writerIndex
    {
      buffer.Length - writerIndex
    }

    function PrependableBytes(): (n: nat)
      reads this
      requires Valid()
      ensures n == readerIndex
    {
      readerIndex
    }

    /**
     * The three zones: readableBytes counts the readable content, and the
     * prependable, readable and writable zones together make up the buffer.
     */
    lemma ZoneSizes()
      requires Valid()
      ensures ReadableBytes() == |Readable()|
      ensures PrependableBytes() + ReadableBytes() + WritableBytes() == buffer.Length
      ensures PrependableBytes() + ReadableBytes() == writerIndex
    {
    }

    constructor ()
      ensures Valid() && fresh(buffer)
      ensures buffer.Length == kCheapPrepend + kInitialSize
      ensures readerIndex == kCheapPrepend && writerIndex == kCheapPrepend
      ensures Readable() == [] && WritableBytes() == kInitialSize
      ensures PrependableBytes() == kCheapPrepend
    {
      buffer := new byte[kCheapPrepend + kInitialSize];
      readerIndex := kCheapPrepend;
      writerIndex := kCheapPrepend;
    }

    /** Exchanges storage and indices with rhs. */
    method Swap(rhs: Buffer)
      requires Valid() && rhs.Valid()
      modifies this, rhs
      ensures Valid() && rhs.Valid()
      ensures buffer == old(rhs.buffer) && rhs.buffer == old(buffer)
      ensures readerIndex == old(rhs.readerIndex) && rhs.readerIndex == old(readerIndex)
      ensures writerIndex == old(rhs.writerIndex) && rhs.writerIndex == old(writerIndex)
      ensures Readable() == old(rhs.Readable()) && rhs.Readable() == old(Readable())
    {
      buffer, rhs.buffer := rhs.buffer, buffer;
      readerIndex, rhs.readerIndex := rhs.readerIndex, readerIndex;
      writerIndex, rhs.writerIndex := rhs.writerIndex, writerIndex;
    }

    /**
     * findCRLF(start): the position of the first "\r\n" that starts at or
     * after start and ends before writerIndex, or None (NULL).
     */
    method FindCRLFFrom(start: nat) returns (r: Option<nat>)
      requires Valid() && readerIndex <= start <= writerIndex
      ensures r.Some? ==> start <= r.value && CRLFAt(buffer[..writerIndex], r.value)
      ensures forall i :: start <= i < (if r.Some? then r.value else writerIndex) ==> !CRLFAt(buffer[..writerIndex], i)
    {
      var i := start;
      while i + 1 < writerIndex
        invariant start <= i <= writerIndex
        invariant forall j :: start <= j < i ==> !CRLFAt(buffer[..writerIndex], j)
      {
        if buffer[i] == CR && buffer[i + 1] == LF {
          return Some(i);
        }
        i := i + 1;
      }
      return None;
    }

    /** findCRLF(): search from the start of the readable content. */
    method FindCRLF() returns (r: Option<nat>)
      requires Valid()
      ensures r.Some? ==> readerIndex <= r.value && CRLFAt(buffer[..writerIndex], r.value)
      ensures forall i :: readerIndex <= i < (if r.Some? then r.value else writerIndex) ==> !CRLFAt(buffer[..writerIndex], i)
    {
      r := FindCRLFFrom(readerIndex);
    }

    method RetrieveAll()
      requires Valid()
      modifies this
      ensures Valid() && buffer == old(buffer)
      ensures readerIndex == kCheapPrepend && writerIndex == kCheapPrepend
      ensures Readable() == []
    {
      readerIndex := kCheapPrepend;
      writerIndex := kCheapPrepend;
    }

    /** Consumes len readable bytes; consuming all of them resets both indices. */
    method Retrieve(len: nat)
      requires Valid() && len <= ReadableBytes()
      modifies this
      ensures Valid() && buffer == old(buffer)
      ensures Readable() == old(Readable())[len..]
      ensures if len < old(ReadableBytes())
              then readerIndex == old(readerIndex) + len && writerIndex == old(writerIndex)
              else readerIndex == kCheapPrepend && writerIndex == kCheapPrepend
    {
      if len < ReadableBytes() {
        readerIndex := readerIndex + len;
      } else {
        RetrieveAll();
      }
    }

    /** retrieveUntil(end): consume up to the position end. */
    method RetrieveUntil(end: nat)
      requires Valid() && readerIndex <= end <= writerIndex
      modifies this
      ensures Valid() && buffer == old(buffer)
      ensures Readable() == old(buffer[end..writerIndex])
    {
      Retrieve(end - readerIndex);
    }

    method RetrieveInt32()
      requires Valid() && 4 <= ReadableBytes()
      modifies this
      ensures Valid() && buffer == old(buffer) && Readable() == old(Readable())[4..]
    {
      Retrieve(4);
    }

    method RetrieveInt16()
      requires Valid() && 2 <= ReadableBytes()
      modifies this
      ensures Valid() && buffer == old(buffer) && Readable() == old(Readable())[2..]
    {
      Retrieve(2);
    }

    method RetrieveInt8()
      requires Valid() && 1 <= ReadableBytes()
      modifies this
      ensures Valid() && buffer == old(buffer) && Readable() == old(Readable())[1..]
    {
      Retrieve(1);
    }

    /** Takes the first len readable bytes out as a string. */
    method RetrieveAsString(len: nat) returns (s: seq<byte>)
      requires Valid() && len <= ReadableBytes()
      modifies this
      ensures Valid() && buffer == old(buffer)
      ensures s + Readable() == old(Readable()) && |s| == len
    {
      s := buffer[readerIndex..readerIndex + len];
      Retrieve(len);
    }

    method RetrieveAllAsString() returns (s: seq<byte>)
      requires Valid()
      modifies this
      ensures Valid() && buffer == old(buffer)
      ensures s == old(Readable()) && Readable() == []
    {
      s := RetrieveAsString(ReadableBytes());
    }

    /** toStringPiece(): a view of the whole readable content. */
    method ToStringPiece() returns (p: StringPieces.StringPiece)
      requires Valid()
      ensures fresh(p) && p.Valid() && p.View() == Readable()
    {
      p := new StringPieces.StringPiece.FromRange(buffer[readerIndex..writerIndex], writerIndex - readerIndex);
    }

    /**
     * Makes room for len more bytes (called only when fewer are writable):
     * grow the vector when prependable plus writable space is too small,
     * otherwise slide the readable bytes down to kCheapPrepend.
     */
    method MakeSpace(len: nat)
      requires Valid() && WritableBytes() < len
      modifies this, buffer
      ensures Valid() && WritableBytes() >= len
      ensures Readable() == old(Readable())
      ensures if old(WritableBytes() + PrependableBytes()) < len + kCheapPrepend
              then fresh(buffer) && buffer.Length == old(writerIndex) + len
                   && readerIndex == old(readerIndex) && writerIndex == old(writerIndex)
                   && buffer[..old(buffer.Length)] == old(buffer[..])
              else buffer == old(buffer) && readerIndex == kCheapPrepend
                   && writerIndex == kCheapPrepend + old(ReadableBytes())
    {
      if WritableBytes() + PrependableBytes() < len + kCheapPrepend {
        // vector::resize keeps the old bytes and zero-fills the rest
        assert buffer.Length < writerIndex + len;
        ghost var content := buffer[..];
        var grown := Grown(buffer, writerIndex + len);
        SliceOfPrefix(grown[..], content, readerIndex, writerIndex);
        buffer := grown;
      } else {
        // the assertion in the source: room exists only if data moved up
        assert kCheapPrepend < readerIndex;
        var readable := ReadableBytes();
        ghost var content := buffer[readerIndex..writerIndex];
        MoveDown(buffer, kCheapPrepend, readerIndex, readable);
        readerIndex := kCheapPrepend;
        writerIndex := readerIndex + readable;
        assert Readable() == content;
      }
    }

    /** Guarantees len writable bytes without changing the content. */
    method EnsureWritableBytes(len: nat)
      requires Valid()
      modifies this, buffer
      ensures Valid() && WritableBytes() >= len
      ensures Readable() == old(Readable())
      ensures buffer == old(buffer) || fresh(buffer)
      ensures if old(WritableBytes()) >= len
              then buffer == old(buffer) && readerIndex == old(readerIndex) && writerIndex == old(writerIndex)
                   && unchanged(buffer)
              else if old(WritableBytes() + PrependableBytes()) < len + kCheapPrepend
              then fresh(buffer) && buffer.Length == old(writerIndex) + len
                   && readerIndex == old(readerIndex) && writerIndex == old(writerIndex)
              else buffer == old(buffer) && readerIndex == kCheapPrepend
                   && writerIndex == kCheapPrepend + old(ReadableBytes())
    {
      if WritableBytes() < len {
        MakeSpace(len);
      }
    }

    /** Commits len bytes already copied to the writable area. */
    method HasWritten(len: nat)
      requires Valid() && len <= WritableBytes()
      modifies this
      ensures Valid() && buffer == old(buffer) && readerIndex == old(readerIndex)
      ensures writerIndex == old(writerIndex) + len
      ensures Readable() == old(Readable()) + buffer[old(writerIndex)..writerIndex]
    {
      writerIndex := writerIndex + len;
    }

    /** append(data, len) */
    method Append(data: seq<byte>)
      requires Valid()
      modifies this, buffer
      ensures Valid() && Readable() == old(Readable()) + data
      ensures buffer == old(buffer) || fresh(buffer)
      ensures readerIndex == old(readerIndex) || readerIndex == kCheapPrepend
      ensures old(WritableBytes()) >= |data| ==>
                buffer == old(buffer) && readerIndex == old(readerIndex)
                && writerIndex == old(writerIndex) + |data|
    {
      EnsureWritableBytes(|data|);
      ghost var before := buffer[..writerIndex];
      assert Readable() == before[readerIndex..];
      CopyInto(buffer, writerIndex, data);
      assert Readable() == before[readerIndex..];
      HasWritten(|data|);
      assert buffer[writerIndex - |data|..writerIndex] == data;
    }

    /** append(const StringPiece&) */
    method AppendPiece(str: StringPieces.StringPiece)
      requires Valid() && str.Valid()
      modifies this, buffer
      ensures Valid() && Readable() == old(Readable()) + old(str.View())
      ensures buffer == old(buffer) || fresh(buffer)
      ensures readerIndex == old(readerIndex) || readerIndex == kCheapPrepend
      ensures old(WritableBytes()) >= old(str.length) ==>
                buffer == old(buffer) && readerIndex == old(readerIndex)
                && writerIndex == old(writerIndex) + old(str.length)
    {
      Append(str.View());
    }

    method AppendInt32(x: int)
      requires Valid() && InSignedRange(x, 4)
      modifies this, buffer
      ensures Valid() && Readable() == old(Readable()) + EncodeSigned(x, 4)
    {
      Append(EncodeSigned(x, 4));
    }

    method AppendInt16(x: int)
      requires Valid() && InSignedRange(x, 2)
      modifies this, buffer
      ensures Valid() && Readable() == old(Readable()) + EncodeSigned(x, 2)
    {
      Append(EncodeSigned(x, 2));
    }

    method AppendInt8(x: int)
      requires Valid() && InSignedRange(x, 1)
      modifies this, buffer
      ensures Valid() && Readable() == old(Readable()) + EncodeSigned(x, 1)
    {
      Append(EncodeSigned(x, 1));
    }

    /** The network-order integer in the first n readable bytes. */
    method PeekInt(n: nat) returns (x: int)
      requires Valid() && 0 < n <= ReadableBytes()
      ensures InSignedRange(x, n)
      ensures EncodeSigned(x, n) == Readable()[..n]
    {
      x := DecodeSigned(buffer[readerIndex..readerIndex + n]);
      EncodeDecodeSigned(buffer[readerIndex..readerIndex + n]);
    }

    method PeekInt32() returns (x: int)
      requires Valid() && 4 <= ReadableBytes()
      ensures InSignedRange(x, 4) && EncodeSigned(x, 4) == Readable()[..4]
    {
      x := PeekInt(4);
    }

    method PeekInt16() returns (x: int)
      requires Valid() && 2 <= ReadableBytes()
      ensures InSignedRange(x, 2) && EncodeSigned(x, 2) == Readable()[..2]
    {
      x := PeekInt(2);
    }

    method PeekInt8() returns (x: int)
      requires Valid() && 1 <= ReadableBytes()
      ensures InSignedRange(x, 1) && EncodeSigned(x, 1) == Readable()[..1]
    {
      x := PeekInt(1);
    }

    method ReadInt32() returns (x: int)
      requires Valid() && 4 <= ReadableBytes()
      modifies this
      ensures Valid() && buffer == old(buffer)
      ensures InSignedRange(x, 4) && EncodeSigned(x, 4) + Readable() == old(Readable())
    {
      x := PeekInt32();
      RetrieveInt32();
    }

    method ReadInt16() returns (x: int)
      requires Valid() && 2 <= ReadableBytes()
      modifies this
      ensures Valid() && buffer == old(buffer)
      ensures InSignedRange(x, 2) && EncodeSigned(x, 2) + Readable() == old(Readable())
    {
      x := PeekInt16();
      RetrieveInt16();
    }

    method ReadInt8() returns (x: int)
      requires Valid() && 1 <= ReadableBytes()
      modifies this
      ensures Valid() && buffer == old(buffer)
      ensures InSignedRange(x, 1) && EncodeSigned(x, 1) + Readable() == old(Readable())
    {
      x := PeekInt8();
      RetrieveInt8();
    }

    /** prepend(data, len): write data just before the readable content. */
    method Prepend(data: seq<byte>)
      requires Valid() && |data| <= PrependableBytes()
      modifies this, buffer
      ensures Valid() && buffer == old(buffer) && writerIndex == old(writerIndex)
      ensures readerIndex == old(readerIndex) - |data|
      ensures Readable() == data + old(Readable())
    {
      readerIndex := readerIndex - |data|;
      var i := 0;
      while i < |data|
        invariant 0 <= i <= |data|
        invariant forall k :: 0 <= k < i ==> buffer[readerIndex + k] == data[k]
        invariant buffer[readerIndex + |data|..writerIndex] == old(Readable())
        modifies buffer
      {
        buffer[readerIndex + i] := data[i];
        i := i + 1;
      }
      assert buffer[readerIndex..readerIndex + |data|] == data;
      assert Readable() == buffer[readerIndex..readerIndex + |data|] + buffer[readerIndex + |data|..writerIndex];
    }

    method PrependInt32(x: int)
      requires Valid() && InSignedRange(x, 4) && 4 <= PrependableBytes()
      modifies this, buffer
      ensures Valid() && Readable() == EncodeSigned(x, 4) + old(Readable())
    {
      Prepend(EncodeSigned(x, 4));
    }

    method PrependInt16(x: int)
      requires Valid() && InSignedRange(x, 2) && 2 <= PrependableBytes()
      modifies this, buffer
      ensures Valid() && Readable() == EncodeSigned(x, 2) + old(Readable())
    {
      Prepend(EncodeSigned(x, 2));
    }

    method PrependInt8(x: int)
      requires Valid() && InSignedRange(x, 1) && 1 <= PrependableBytes()
      modifies this, buffer
      ensures Valid() && Readable() == EncodeSigned(x, 1) + old(Readable())
    {
      Prepend(EncodeSigned(x, 1));
    }

    /**
     * shrink(reserve): move the content into a fresh Buffer that has at
     * least reserve writable bytes after it, and swap with it.
     */
    method Shrink(reserve: nat)
      requires Valid()
      modifies this
      ensures Valid() && fresh(buffer)
      ensures Readable() == old(Readable())
      ensures readerIndex == kCheapPrepend && WritableBytes() >= reserve
    {
      var other := new Buffer();
      other.EnsureWritableBytes(ReadableBytes() + reserve);
      var piece := ToStringPiece();
      other.AppendPiece(piece);
      Swap(other);
    }
  }
}
