/** Callers of the two buffers that use nothing but the buffers' contracts:
    the documented behaviours of the buffer layer, shown on fresh buffers. */
module Scenarios {
  import opened Bytes
  import opened BufferReader
  import opened BufferWriter
  import opened GrowableBuffer
  import opened InlineBuffer

  /** Three push_backs into a SmallBuffer with inline room for 8, then
      drain(2): one byte is left, and it is the third one pushed. */
  method SmallBufferDrainExample(a: uint8, b: uint8, c: uint8) returns (size: nat, front: uint8)
    ensures size == 1 && front == c
  {
    var sb := new SmallBuffer(8);
    sb.PushBack(a);
    sb.PushBack(b);
    sb.PushBack(c);
    sb.Drain(2);
    size := sb.Size();
    front := sb.Data()[0];
  }

  /** reserve_space(1) on a fresh SmallBuffer with inline room for 8 keeps
      the inline storage and reports all 8 elements as writable, although it
      opened only one. */
  method SmallBufferReserveReportsCapacity() returns (avail: nat, sameStorage: bool, count: nat)
    ensures avail == 8 && sameStorage && count == 1
  {
    var sb := new SmallBuffer(8);
    var inlineStore := sb.buf;
    var region, offset;
    region, offset, avail := sb.ReserveSpace(1);
    sameStorage := sb.buf == inlineStore;
    count := sb.len - sb.Size();
  }

  /** add_uint32(0x01020304) queues 01 02 03 04; to_uint32() decodes the
      same number and leaves the buffer empty. */
  method Uint32Example() returns (raw: seq<uint8>, value: uint32, emptyAfter: bool)
    ensures raw == [0x01, 0x02, 0x03, 0x04]
    ensures value == 0x0102_0304 && emptyAfter
  {
    var b := new Buffer();
    b.AddUint32(0x0102_0304);
    raw := b.Data();
    BufferWriter.Uint32Example();
    assert raw[..4] == raw;
    value := b.ToUint32();
    FromToBigEndian(0x0102_0304, 4);
    emptyAfter := b.Empty();
  }

  /** add_port for port 6881 queues exactly 1A E1. */
  method PortExample() returns (raw: seq<uint8>)
    ensures raw == [0x1A, 0xE1]
  {
    var b := new Buffer();
    b.AddPort(Port(6881));
    raw := b.Data();
    BufferWriter.PortExample();
  }

  /** Bytes already queued are read first; after them the 16-bit value
      written comes back, and the buffer is as empty as before. */
  method Uint16RoundTrip(prefix: seq<uint8>, v: uint16) returns (head: seq<uint8>, r: uint16, sizeAfter: nat)
    ensures head == prefix && r == v && sizeAfter == 0
  {
    var b := new Buffer.FromData(prefix);
    b.AddUint16(v);
    var tgt := new uint8[|prefix|];
    var k := b.ToBuf(tgt, |prefix|);
    head := tgt[..];
    assert b.Data() == ToBigEndian(v, 2);
    assert b.Data()[..2] == b.Data();
    r := b.ToUint16();
    FromToBigEndian(v, 2);
    sizeAfter := b.Size();
  }

  /** The same round trip through a SmallBuffer, for 32 and 64 bits in turn:
      each to_uintW returns what the matching add_uintW wrote. */
  method SmallBufferRoundTrip(x: uint32, y: uint64) returns (rx: uint32, ry: uint64, emptyAfter: bool)
    ensures rx == x && ry == y && emptyAfter
  {
    var sb := new SmallBuffer(8);
    sb.AddUint32(x);
    sb.AddHton64(y);
    assert sb.Data() == ToBigEndian(x, 4) + ToBigEndian(y, 8);
    assert sb.Data()[..4] == ToBigEndian(x, 4);
    rx := sb.ToUint32();
    FromToBigEndian(x, 4);
    assert sb.Data() == ToBigEndian(y, 8);
    assert sb.Data()[..8] == sb.Data();
    ry := sb.ToUint64();
    FromToBigEndian(y, 8);
    emptyAfter := sb.Empty();
  }

  /** drain(n) on a buffer holding data leaves |data| - n bytes, and the
      buffer is empty exactly when everything was drained. */
  method DrainCountsDown(data: seq<uint8>, n: nat) returns (size: nat, empty: bool)
    requires n <= |data|
    ensures size == |data| - n
    ensures empty <==> n == |data|
  {
    var b := new Buffer.FromData(data);
    b.Drain(n);
    size := b.Size();
    empty := b.Empty();
  }

  /** starts_with and to_string do not consume: asking them leaves the bytes
      where they were, and an over-long needle is answered false. */
  method PeekDoesNotConsume(data: seq<uint8>, needle: seq<uint8>)
      returns (starts: bool, text: string, sizeAfter: nat)
    ensures starts <==> |needle| <= |data| && data[..|needle|] == needle
    ensures |text| == |data| && forall i :: 0 <= i < |text| ==> text[i] as int == data[i]
    ensures sizeAfter == |data|
  {
    var b := new Buffer.FromData(data);
    starts := b.StartsWith(needle);
    text := b.ToString();
    sizeAfter := b.Size();
  }
}
