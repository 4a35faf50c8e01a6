/** Buffer: the growable byte queue that peer connections read into and write
    from. The libevent evbuffer behind it is modelled by what it holds, the
    queued bytes in order; the read and write helpers of the BufferReader and
    BufferWriter capabilities are methods here, each calling the primitives
    (Size, Data, Drain, ReserveSpace, CommitSpace) the way the C++ helper does. */
module GrowableBuffer {
  import opened Bytes
  import opened BufferReader
  import opened BufferWriter

  class Buffer {
    /** The queued bytes, front first (the evbuffer's contents). */
    var contents: seq<uint8>
    /** The writable region handed out by the last ReserveSpace and not yet
        committed; empty when there is none. Its bytes are arbitrary until the
        caller writes them. */
    var reserved: array<uint8>

    /** Buffer(): a fresh evbuffer holds nothing. */
    constructor ()
      ensures contents == [] && reserved.Length == 0
    {
      contents := [];
      reserved := new uint8[0];
    }

    /** Buffer(data): an empty buffer to which data is added. */
    constructor FromData(data: seq<uint8>)
      ensures contents == data
    {
      contents := [];
      reserved := new uint8[0];
      new;
      Add(data);
    }

    // ---- BufferReader primitives ----

    /** size(): how many bytes are queued. */
    function Size(): (r: nat)
      reads this
      ensures r == |Data()|
    {
      |contents|
    }

    /** data(): the readable bytes, made contiguous by a pullup. */
    function Data(): (r: seq<uint8>)
      reads this
      ensures r == contents
    {
      contents
    }

    /** drain(n): evbuffer_drain discards the first n bytes, or all of them
        when fewer are queued. */
    method Drain(n: nat)
      modifies this
      ensures contents == old(contents)[Min(n, old(Size()))..]
      ensures reserved == old(reserved)
    {
      contents := contents[Min(n, |contents|)..];
    }

    /** clear(): drains everything. */
    method Clear()
      modifies this
      ensures contents == [] && reserved == old(reserved)
    {
      Drain(Size());
    }

    // ---- BufferReader helpers ----

    function Empty(): (r: bool)
      reads this
      ensures r <==> Data() == []
    {
      Size() == 0
    }

    function ToString(): (r: string)
      reads this
      ensures |r| == Size()
      ensures forall i :: 0 <= i < |r| ==> r[i] as int == Data()[i]
    {
      AsString(Data())
    }

    function StartsWith(needle: seq<uint8>): (r: bool)
      reads this
      ensures r <==> |needle| <= Size() && Data()[..|needle|] == needle
    {
      BufferReader.StartsWith(Data(), needle)
    }

    /** to_buf(tgt, n): copies the first k = min(n, size()) bytes to the
        caller's memory, drains them and returns k. Nothing else of tgt
        changes. */
    method ToBuf(tgt: array<uint8>, n: nat) returns (k: nat)
      requires Min(n, Size()) <= tgt.Length
      modifies this, tgt
      ensures k == Min(n, old(Size()))
      ensures tgt[..k] == old(contents)[..k]
      ensures tgt[k..] == old(tgt[k..])
      ensures contents == old(contents)[k..]
      ensures reserved == old(reserved)
    {
      k := Min(n, Size());
      var i := 0;
      while i < k
        modifies tgt
        invariant 0 <= i <= k
        invariant tgt[..i] == contents[..i]
        invariant tgt[k..] == old(tgt[k..])
      {
        tgt[i] := contents[i];
        i := i + 1;
      }
      Drain(k);
    }

    /** to_uint8(): reads one byte into a zero-initialised uint8_t. */
    method ToUint8() returns (r: uint8)
      modifies this
      ensures Read(r, contents) == ReadUint(old(contents), 1)
      ensures reserved == old(reserved)
    {
      var tmp := new uint8[1](_ => 0);
      var _ := ToBuf(tmp, 1);
      r := tmp[0];
      assert tmp[..] == old(contents)[..Min(1, |old(contents)|)] + Zeros(1 - Min(1, |old(contents)|));
    }

    /** to_uintW(): W bytes (fewer if fewer are buffered) copied into a
        zero-initialised W-byte integer, then converted from network order. */
    method ReadWidth(w: nat) returns (r: nat)
      modifies this
      ensures Read(r, contents) == ReadUint(old(contents), w)
      ensures reserved == old(reserved)
    {
      var tmp := new uint8[w](_ => 0);
      var k := ToBuf(tmp, w);
      assert tmp[..] == tmp[..k] + tmp[k..];
      assert tmp[k..] == Zeros(w - k);
      r := FromBigEndian(tmp[..]);
    }

    method ToUint16() returns (r: uint16)
      modifies this
      ensures Read(r, contents) == ReadUint(old(contents), 2)
      ensures reserved == old(reserved)
    {
      r := ReadWidth(2);
    }

    method ToUint32() returns (r: uint32)
      modifies this
      ensures Read(r, contents) == ReadUint(old(contents), 4)
      ensures reserved == old(reserved)
    {
      r := ReadWidth(4);
    }

    method ToUint64() returns (r: uint64)
      modifies this
      ensures Read(r, contents) == ReadUint(old(contents), 8)
      ensures reserved == old(reserved)
    {
      r := ReadWidth(8);
    }

    // ---- BufferWriter primitives ----

    /** reserve_space(n): evbuffer_reserve_space hands out a writable region
        of at least n bytes behind the queued ones; nothing becomes readable. */
    method ReserveSpace(n: nat) returns (region: array<uint8>, avail: nat)
      modifies this
      ensures fresh(region) && region == reserved
      ensures avail == region.Length && n <= avail
      ensures contents == old(contents)
    {
      region := new uint8[n];
      reserved := region;
      avail := n;
    }

    /** commit_space(n): the first n bytes of the reserved region become the
        newest readable bytes, and the reservation is used up. */
    method CommitSpace(n: nat)
      requires n <= reserved.Length
      modifies this
      ensures contents == old(contents) + old(reserved[..n])
      ensures reserved.Length == 0
    {
      contents := contents + reserved[..n];
      reserved := new uint8[0];
    }

    /** reserve(n): pre-grows the evbuffer's capacity; the queued bytes do not
        change. */
    method Reserve(n: nat)
      ensures contents == old(contents) && reserved == old(reserved)
    {
    }

    // ---- BufferWriter helpers ----

    /** add(span): reserve, copy the span in, commit exactly its length. */
    method Add(span: seq<uint8>)
      modifies this
      ensures contents == old(contents) + span
      ensures reserved.Length == 0
    {
      var region, avail := ReserveSpace(|span|);
      var i := 0;
      while i < |span|
        modifies region
        invariant 0 <= i <= |span|
        invariant region[..i] == span[..i]
      {
        region[i] := span[i];
        i := i + 1;
      }
      assert region[..|span|] == span;
      CommitSpace(|span|);
    }

    method PushBack(ch: uint8)
      modifies this
      ensures contents == old(contents) + [ch]
      ensures reserved.Length == 0
    {
      Add([ch]);
    }

    method AddUint8(v: uint8)
      modifies this
      ensures contents == old(contents) + [v]
      ensures reserved.Length == 0
    {
      Add([v]);
    }

    method AddUint16(v: uint16)
      modifies this
      ensures contents == old(contents) + ToBigEndian(v, 2)
      ensures reserved.Length == 0
    {
      Add(ToBigEndian(v, 2));
    }

    method AddHton16(v: uint16)
      modifies this
      ensures contents == old(contents) + ToBigEndian(v, 2)
      ensures reserved.Length == 0
    {
      AddUint16(v);
    }

    method AddUint32(v: uint32)
      modifies this
      ensures contents == old(contents) + ToBigEndian(v, 4)
      ensures reserved.Length == 0
    {
      Add(ToBigEndian(v, 4));
    }

    /** eadd_hton32: the header's own spelling of the 32-bit alias. */
    method EaddHton32(v: uint32)
      modifies this
      ensures contents == old(contents) + ToBigEndian(v, 4)
      ensures reserved.Length == 0
    {
      AddUint32(v);
    }

    method AddUint64(v: uint64)
      modifies this
      ensures contents == old(contents) + ToBigEndian(v, 8)
      ensures reserved.Length == 0
    {
      Add(ToBigEndian(v, 8));
    }

    method AddHton64(v: uint64)
      modifies this
      ensures contents == old(contents) + ToBigEndian(v, 8)
      ensures reserved.Length == 0
    {
      AddUint64(v);
    }

    /** add_port: the port's network-order octets, copied as they are. */
    method AddPort(port: Port)
      modifies this
      ensures contents == old(contents) + port.Network()
      ensures reserved.Length == 0
    {
      Add(port.Network());
    }
  }
}
