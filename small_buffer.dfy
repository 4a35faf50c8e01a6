/** SmallBuffer<N>: a buffer whose bytes live in a small vector with inline
    room for N of them. The vector's elements hold the committed bytes first
    and then whatever space the last reserve_space opened; committed_size_
    marks the boundary. The read and write helpers of the BufferReader and
    BufferWriter capabilities are methods here, each calling this class's
    primitives the way the C++ helper does. */
module InlineBuffer {
  import opened Bytes
  import opened BufferReader
  import opened BufferWriter

  /** The erase(begin, begin + k) of a vector with count elements: the
      elements from k on move down to the front, in order. */
  method ShiftDown(a: array<uint8>, k: nat, count: nat)
    requires k <= count <= a.Length
    modifies a
    ensures a[..count - k] == old(a[k..count])
  {
    var i := 0;
    while i < count - k
      invariant 0 <= i <= count - k
      invariant forall j :: 0 <= j < i ==> a[j] == old(a[j + k])
      invariant forall j :: i <= j < a.Length ==> a[j] == old(a[j])
    {
      a[i] := a[i + k];
      i := i + 1;
    }
  }

  class SmallBuffer {
    /** The inline capacity N. */
    const inline: nat
    /** The vector's storage; its length is the vector's capacity. */
    var buf: array<uint8>
    /** The vector's element count, buf_.size(). */
    var len: nat
    /** committed_size_: how many of the leading elements are readable. */
    var committedSize: nat

    ghost predicate Valid()
      reads this
    {
      committedSize <= len <= buf.Length && inline <= buf.Length
    }

    /** SmallBuffer(): an empty vector with its inline storage. */
    constructor (n: nat)
      ensures Valid() && fresh(buf)
      ensures inline == n && buf.Length == n && len == 0 && committedSize == 0
    {
      inline := n;
      buf := new uint8[n];
      len, committedSize := 0, 0;
    }

    // ---- BufferReader primitives ----

    /** size(): committed_size_, the number of readable elements. */
    function Size(): (r: nat)
      reads this, buf
      requires Valid()
      ensures r == |Data()| && r <= len
    {
      committedSize
    }

    /** data(): the committed elements, front first. */
    function Data(): (r: seq<uint8>)
      reads this, buf
      requires Valid()
      ensures |r| == committedSize && forall i :: 0 <= i < |r| ==> r[i] == buf[i]
    {
      buf[..committedSize]
    }

    /** drain(n): clamps n to the committed size, erases that many elements
        from the front of the vector (the later ones, committed or only
        reserved, move down) and lowers committed_size_ by the same amount. */
    method Drain(n: nat)
      requires Valid()
      modifies this, buf
      ensures Valid() && buf == old(buf)
      ensures committedSize == old(committedSize) - Min(n, old(Size()))
      ensures len == old(len) - Min(n, old(Size()))
      ensures buf[..len] == old(buf[..len])[Min(n, old(Size()))..]
      ensures Data() == old(Data())[Min(n, old(Size()))..]
    {
      var k := Min(n, committedSize);
      ShiftDown(buf, k, len);
      assert buf[..committedSize - k] == old(buf[..len])[k..][..committedSize - k];
      len := len - k;
      committedSize := committedSize - k;
    }

    // ---- BufferReader helpers ----

    function Empty(): (r: bool)
      reads this, buf
      requires Valid()
      ensures r <==> Data() == []
    {
      Size() == 0
    }

    function ToString(): (r: string)
      reads this, buf
      requires Valid()
      ensures |r| == Size()
      ensures forall i :: 0 <= i < |r| ==> r[i] as int == Data()[i]
    {
      AsString(Data())
    }

    function StartsWith(needle: seq<uint8>): (r: bool)
      reads this, buf
      requires Valid()
      ensures r <==> |needle| <= Size() && Data()[..|needle|] == needle
    {
      BufferReader.StartsWith(Data(), needle)
    }

    /** to_buf(tgt, n): copies the first k = min(n, size()) bytes to the
        caller's memory (which is not the buffer's own storage), drains them
        and returns k. Nothing else of tgt changes. */
    method ToBuf(tgt: array<uint8>, n: nat) returns (k: nat)
      requires Valid() && tgt != buf
      requires Min(n, Size()) <= tgt.Length
      modifies this, buf, tgt
      ensures Valid() && buf == old(buf)
      ensures k == Min(n, old(Size()))
      ensures tgt[..k] == old(Data())[..k]
      ensures tgt[k..] == old(tgt[k..])
      ensures Data() == old(Data())[k..]
      ensures len == old(len) - k && buf[..len] == old(buf[..len])[k..]
    {
      k := Min(n, Size());
      var i := 0;
      while i < k
        modifies tgt
        invariant 0 <= i <= k
        invariant tgt[..i] == buf[..i]
        invariant tgt[k..] == old(tgt[k..])
      {
        tgt[i] := buf[i];
        i := i + 1;
      }
      Drain(k);
    }

    /** to_uint8(): reads one byte into a zero-initialised uint8_t. */
    method ToUint8() returns (r: uint8)
      requires Valid()
      modifies this, buf
      ensures Valid() && buf == old(buf)
      ensures Read(r, Data()) == ReadUint(old(Data()), 1)
      ensures len == old(len) - Min(1, old(Size()))
      ensures buf[..len] == old(buf[..len])[Min(1, old(Size()))..]
    {
      var tmp := new uint8[1](_ => 0);
      var _ := ToBuf(tmp, 1);
      r := tmp[0];
      assert tmp[..] == old(Data())[..Min(1, old(Size()))] + Zeros(1 - Min(1, old(Size())));
    }

    /** to_uintW(): W bytes (fewer if fewer are buffered) copied into a
        zero-initialised W-byte integer, then converted from network order. */
    method ReadWidth(w: nat) returns (r: nat)
      requires Valid()
      modifies this, buf
      ensures Valid() && buf == old(buf)
      ensures Read(r, Data()) == ReadUint(old(Data()), w)
      ensures len == old(len) - Min(w, old(Size()))
      ensures buf[..len] == old(buf[..len])[Min(w, old(Size()))..]
    {
      var tmp := new uint8[w](_ => 0);
      var k := ToBuf(tmp, w);
      assert tmp[..] == tmp[..k] + tmp[k..];
      assert tmp[k..] == Zeros(w - k);
      r := FromBigEndian(tmp[..]);
    }

    method ToUint16() returns (r: uint16)
      requires Valid()
      modifies this, buf
      ensures Valid() && buf == old(buf)
      ensures Read(r, Data()) == ReadUint(old(Data()), 2)
      ensures len == old(len) - Min(2, old(Size()))
      ensures buf[..len] == old(buf[..len])[Min(2, old(Size()))..]
    {
      r := ReadWidth(2);
    }

    method ToUint32() returns (r: uint32)
      requires Valid()
      modifies this, buf
      ensures Valid() && buf == old(buf)
      ensures Read(r, Data()) == ReadUint(old(Data()), 4)
      ensures len == old(len) - Min(4, old(Size()))
      ensures buf[..len] == old(buf[..len])[Min(4, old(Size()))..]
    {
      r := ReadWidth(4);
    }

    method ToUint64() returns (r: uint64)
      requires Valid()
      modifies this, buf
      ensures Valid() && buf == old(buf)
      ensures Read(r, Data()) == ReadUint(old(Data()), 8)
      ensures len == old(len) - Min(8, old(Size()))
      ensures buf[..len] == old(buf[..len])[Min(8, old(Size()))..]
    {
      r := ReadWidth(8);
    }

    // ---- BufferWriter primitives ----

    /** reserve_space(n): resizes the vector to committed_size_ + n elements
        (new elements are zero; a vector that outgrows its capacity moves to
        larger storage, keeping its elements) and returns the storage, the
        offset committed_size_ where the writable region starts, and the
        capacity left from there, capacity() - committed_size_, which is at
        least the n elements opened (ReserveProtocol shows what committing
        more than n would do). */
    method ReserveSpace(n: nat) returns (region: array<uint8>, offset: nat, avail: nat)
      requires Valid()
      modifies this, buf
      ensures Valid() && region == buf && (buf == old(buf) || fresh(buf))
      ensures old(buf.Length) <= buf.Length
      ensures len <= old(buf.Length) ==> buf == old(buf)
      ensures offset == committedSize == old(committedSize)
      ensures len == committedSize + n
      ensures n == len - committedSize && avail == buf.Length - committedSize && n <= avail
      ensures forall i :: 0 <= i < Min(old(len), len) ==> buf[i] == old(buf[i])
      ensures forall i :: old(len) <= i < len ==> buf[i] == 0
      ensures Data() == old(Data())
    {
      var m := committedSize + n;
      if buf.Length < m {
        var from, count := buf, len;
        var bigger := new uint8[m](i reads from => if i < count then from[i] else 0);
        buf := bigger;
      } else if len < m {
        for i := len to m
          modifies buf
          invariant forall j :: 0 <= j < len ==> buf[j] == old(buf[j])
          invariant forall j :: len <= j < i ==> buf[j] == 0
        {
          buf[i] := 0;
        }
      }
      len := m;
      region, offset, avail := buf, committedSize, buf.Length - committedSize;
    }

    /** commit_space(n): the next n elements after the committed ones become
        readable; n may not exceed what the last reserve_space opened. */
    method CommitSpace(n: nat)
      requires Valid() && committedSize + n <= len
      modifies this
      ensures Valid() && buf == old(buf) && len == old(len)
      ensures committedSize == old(committedSize) + n
      ensures Data() == old(Data()) + buf[old(committedSize)..committedSize]
    {
      committedSize := committedSize + n;
    }

    // ---- BufferWriter helpers ----

    /** add(span): reserve, copy the span in, commit exactly its length. */
    method Add(span: seq<uint8>)
      requires Valid()
      modifies this, buf
      ensures Valid() && (buf == old(buf) || fresh(buf))
      ensures old(buf.Length) <= buf.Length
      ensures old(committedSize) + |span| <= old(buf.Length) ==> buf == old(buf)
      ensures Data() == old(Data()) + span
      ensures len == committedSize
    {
      var region, offset, avail := ReserveSpace(|span|);
      var i := 0;
      while i < |span|
        modifies region
        invariant 0 <= i <= |span|
        invariant region[..offset] == old(Data())
        invariant region[offset..offset + i] == span[..i]
      {
        region[offset + i] := span[i];
        i := i + 1;
      }
      assert buf[..offset + |span|] == old(Data()) + span by {
        assert buf[..offset + |span|] == buf[..offset] + buf[offset..offset + |span|];
      }
      CommitSpace(|span|);
    }

    method PushBack(ch: uint8)
      requires Valid()
      modifies this, buf
      ensures Valid() && (buf == old(buf) || fresh(buf))
      ensures old(buf.Length) <= buf.Length
      ensures old(committedSize) + 1 <= old(buf.Length) ==> buf == old(buf)
      ensures Data() == old(Data()) + [ch]
      ensures len == committedSize
    {
      Add([ch]);
    }

    method AddUint8(v: uint8)
      requires Valid()
      modifies this, buf
      ensures Valid() && (buf == old(buf) || fresh(buf))
      ensures old(buf.Length) <= buf.Length
      ensures old(committedSize) + 1 <= old(buf.Length) ==> buf == old(buf)
      ensures Data() == old(Data()) + [v]
      ensures len == committedSize
    {
      Add([v]);
    }

    method AddUint16(v: uint16)
      requires Valid()
      modifies this, buf
      ensures Valid() && (buf == old(buf) || fresh(buf))
      ensures old(buf.Length) <= buf.Length
      ensures old(committedSize) + 2 <= old(buf.Length) ==> buf == old(buf)
      ensures Data() == old(Data()) + ToBigEndian(v, 2)
      ensures len == committedSize
    {
      Add(ToBigEndian(v, 2));
    }

    method AddHton16(v: uint16)
      requires Valid()
      modifies this, buf
      ensures Valid() && (buf == old(buf) || fresh(buf))
      ensures old(buf.Length) <= buf.Length
      ensures old(committedSize) + 2 <= old(buf.Length) ==> buf == old(buf)
      ensures Data() == old(Data()) + ToBigEndian(v, 2)
      ensures len == committedSize
    {
      AddUint16(v);
    }

    method AddUint32(v: uint32)
      requires Valid()
      modifies this, buf
      ensures Valid() && (buf == old(buf) || fresh(buf))
      ensures old(buf.Length) <= buf.Length
      ensures old(committedSize) + 4 <= old(buf.Length) ==> buf == old(buf)
      ensures Data() == old(Data()) + ToBigEndian(v, 4)
      ensures len == committedSize
    {
      Add(ToBigEndian(v, 4));
    }

    /** eadd_hton32: the header's own spelling of the 32-bit alias. */
    method EaddHton32(v: uint32)
      requires Valid()
      modifies this, buf
      ensures Valid() && (buf == old(buf) || fresh(buf))
      ensures old(buf.Length) <= buf.Length
      ensures old(committedSize) + 4 <= old(buf.Length) ==> buf == old(buf)
      ensures Data() == old(Data()) + ToBigEndian(v, 4)
      ensures len == committedSize
    {
      AddUint32(v);
    }

    method AddUint64(v: uint64)
      requires Valid()
      modifies this, buf
      ensures Valid() && (buf == old(buf) || fresh(buf))
      ensures old(buf.Length) <= buf.Length
      ensures old(committedSize) + 8 <= old(buf.Length) ==> buf == old(buf)
      ensures Data() == old(Data()) + ToBigEndian(v, 8)
      ensures len == committedSize
    {
      Add(ToBigEndian(v, 8));
    }

    method AddHton64(v: uint64)
      requires Valid()
      modifies this, buf
      ensures Valid() && (buf == old(buf) || fresh(buf))
      ensures old(buf.Length) <= buf.Length
      ensures old(committedSize) + 8 <= old(buf.Length) ==> buf == old(buf)
      ensures Data() == old(Data()) + ToBigEndian(v, 8)
      ensures len == committedSize
    {
      AddUint64(v);
    }

    /** add_port: the port's network-order octets, copied as they are. */
    method AddPort(port: Port)
      requires Valid()
      modifies this, buf
      ensures Valid() && (buf == old(buf) || fresh(buf))
      ensures old(buf.Length) <= buf.Length
      ensures old(committedSize) + 2 <= old(buf.Length) ==> buf == old(buf)
      ensures Data() == old(Data()) + port.Network()
      ensures len == committedSize
    {
      Add(port.Network());
    }
  }
}
