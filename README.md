# libtransmission byte buffers, modelled in Dafny

This project models the byte-buffer layer of Transmission's peer-wire stack, `libtransmission/tr-buffer.h`:

- the read capability `BufferReader`: `empty`, `to_string`, `starts_with`, `to_buf` and `to_uint8/16/32/64`, all built on `size`, `data` and `drain`;
- the write capability `BufferWriter`: `add`, `push_back`, `add_uint8/16/32/64`, the `add_hton*` aliases and `add_port`, all built on `reserve_space` and `commit_space`;
- the growable `Buffer` over a libevent `evbuffer`;
- the inline `SmallBuffer<N>` over a small vector and a `committed_size_` cursor.

A buffer's meaning throughout is its readable bytes, front first. Reads copy bytes out and then consume them. Writes append. Multi-byte integers travel in network (big-endian) byte order.

Modules:

- `Bytes` — octet and fixed-width integer types; `Min`, the clamp that `to_buf` and `drain` apply; the big-endian encoding `ToBigEndian` and decoding `FromBigEndian`, with their round trips in both directions.
- `BufferReader` — the reader helpers' logic over the readable bytes: `Equal` (the `std::equal` in `starts_with`), `StartsWith`, `AsString` and `ReadUint` (what one `to_uintW` returns and leaves behind).
- `BufferWriter` — the `Port` value that `add_port` takes, and the worked encodings.
- `RoundTrip` — runs of `add_uintW` followed by the matching `to_uintW` calls.
- `GrowableBuffer` — class `Buffer`. The evbuffer is modelled as a `seq` of bytes, `contents`. `reserved` is the region the last `reserve_space` handed out.
- `InlineBuffer` — class `SmallBuffer`. It holds the vector's storage `buf`, whose length is the vector's capacity. `len` is the vector's element count and `committedSize` is `committed_size_`. `Valid()` keeps `committedSize <= len <= buf.Length`.
- `ReserveProtocol` — the reserve/commit protocol of `SmallBuffer` on the whole vector state, as written and corrected (see Findings).
- `Scenarios` — callers that build fresh buffers and use only the contracts. They cover the documented examples and the round trips.

The model does not use Dafny traits for the two capabilities. Each buffer class instead carries the reader and writer helpers as its own methods. Every helper's body calls that class's primitives as the C++ helper does: `to_uint32` goes through `to_buf`, and `to_buf` goes through `drain`; `add_uint32` goes through `add`, and `add` goes through `reserve_space` and `commit_space`. The helpers' meaning is written once, in `Bytes`, `BufferReader` and `BufferWriter`, and both classes state their contracts in those terms.

A short `to_uintW` (fewer than W bytes buffered) is not an error in the code, and its result is fully determined: the integer is zero-initialised, the first `k = min(W, size())` bytes are copied over its first bytes, and the result is converted from network order. That value does not depend on the host: it is the big-endian value of the available bytes followed by zero bytes. `ReadUint` models exactly this, with no precondition. `BufferReader.ShortRead` states what it gives.

## Model

| member | source | states |
|---|---|---|
| `Bytes.ToBigEndian` | libtransmission/tr-buffer.h:154-180 | the network-order form of a value has exactly the width's number of octets |
| `Bytes.FromBigEndian` | libtransmission/tr-buffer.h:94-113 | the value read from w network-order octets is below 256^w, so it fits the w-octet result type |
| `Bytes.FromToBigEndian` | libtransmission/tr-buffer.h:94-113 | decoding the network-order octets of any value that fits in w octets gives that value back |
| `Bytes.ToFromBigEndian` | libtransmission/tr-buffer.h:154-180 | encoding the value of any w octets gives those same octets back, so every octet string is some value's encoding |
| `Bytes.FromBigEndianInjective` | libtransmission/tr-buffer.h:94-113 | two octet strings of one width that decode to the same value are equal |
| `Bytes.FromBigEndianZeroPadded` | libtransmission/tr-buffer.h:94-113 | each trailing zero octet multiplies the decoded value by 256 |
| `BufferReader.Equal` | libtransmission/tr-buffer.h:76 | `std::equal(needle, data)` holds iff the needle equals the same-length prefix of the data |
| `BufferReader.StartsWith` | libtransmission/tr-buffer.h:70-77 | true iff the needle is no longer than the readable bytes and equals their prefix; false for a longer needle |
| `BufferReader.AsString` | libtransmission/tr-buffer.h:65-68 | the string has one char per readable byte, each with that byte's code |
| `Bytes.Min` | libtransmission/tr-buffer.h:81 | the count `to_buf` copies is at most the request and at most the size, and equals one of them |
| `BufferReader.ReadUint` | libtransmission/tr-buffer.h:87-113 | one `to_uintW` drains `min(W, size)` bytes and returns a value below 256^W; with W bytes buffered, that value is the big-endian value of the first W bytes |
| `BufferReader.ShortRead` | libtransmission/tr-buffer.h:94-113 | with fewer than W bytes buffered, `to_uintW` drains them all and returns their value followed by zero bytes, without an error |
| `BufferWriter.Port.Network` | libtransmission/tr-buffer.h:187-191 | a port's network form is two octets, high byte first, whose big-endian value is the port number |
| `BufferWriter.Uint32Example` | libtransmission/tr-buffer.h:165-169 | `0x01020304` is encoded as `01 02 03 04` |
| `BufferWriter.PortExample` | libtransmission/tr-buffer.h:187-191 | port 6881 is encoded as `1A E1` |
| `BufferWriter.EncodingDeterminesValue` | libtransmission/tr-buffer.h:154-180 | two values that fit in w octets have the same encoding iff they are equal |
| `RoundTrip.ReadAll` | libtransmission/tr-buffer.h:87-113 | a run of reads returns one value per read and never leaves more bytes than it found |
| `RoundTrip.ReadAfterWriteOne` | libtransmission/tr-buffer.h:87-113 | `add_uintW(v)` then `to_uintW()` returns v and consumes exactly the W octets written, leaving what followed them |
| `RoundTrip.ReadAfterWrite` | libtransmission/tr-buffer.h:87-180 | a run of `add_uintW` calls followed by the matching `to_uintW` calls returns every value in order and leaves exactly the bytes queued after them; with nothing queued after them the buffer ends empty, as it was before the writes |
| `GrowableBuffer.Buffer.constructor` | libtransmission/tr-buffer.h:201 | a new buffer is empty and has no reservation |
| `GrowableBuffer.Buffer.FromData` | libtransmission/tr-buffer.h:205-209 | a buffer built from data holds exactly that data |
| `GrowableBuffer.Buffer.Size` | libtransmission/tr-buffer.h:214-217 | the number of queued bytes |
| `GrowableBuffer.Buffer.Data` | libtransmission/tr-buffer.h:248-256 | the queued bytes, front first |
| `GrowableBuffer.Buffer.Drain` | libtransmission/tr-buffer.h:224-227 | removes the first `min(n, size())` bytes and keeps the rest in order |
| `GrowableBuffer.Buffer.Clear` | libtransmission/tr-buffer.h:219-222 | leaves the buffer empty |
| `GrowableBuffer.Buffer.Empty` | libtransmission/tr-buffer.h:40-43 | true iff there are no readable bytes |
| `GrowableBuffer.Buffer.ToString` | libtransmission/tr-buffer.h:65-68 | returns every readable byte as a char, without draining |
| `GrowableBuffer.Buffer.StartsWith` | libtransmission/tr-buffer.h:70-77 | true iff the needle fits in the readable bytes and equals their prefix, without draining |
| `GrowableBuffer.Buffer.ToBuf` | libtransmission/tr-buffer.h:79-85 | copies the first `k = min(n, size())` bytes into the target, leaves the rest of the target alone, drains exactly k bytes and returns k |
| `GrowableBuffer.Buffer.ToUint8` | libtransmission/tr-buffer.h:87-92 | returns and drains what `ReadUint` gives for width 1 |
| `GrowableBuffer.Buffer.ReadWidth` | libtransmission/tr-buffer.h:94-113 | the shared body of `to_uint16/32/64`: reads into a zero-initialised integer of the width through `to_buf`, as `ReadUint` states |
| `GrowableBuffer.Buffer.ToUint16` | libtransmission/tr-buffer.h:94-99 | returns and drains what `ReadUint` gives for width 2 |
| `GrowableBuffer.Buffer.ToUint32` | libtransmission/tr-buffer.h:101-106 | returns and drains what `ReadUint` gives for width 4 |
| `GrowableBuffer.Buffer.ToUint64` | libtransmission/tr-buffer.h:108-113 | returns and drains what `ReadUint` gives for width 8 |
| `GrowableBuffer.Buffer.ReserveSpace` | libtransmission/tr-buffer.h:292-297 | hands out a fresh writable region of at least n bytes and leaves the readable bytes unchanged |
| `GrowableBuffer.Buffer.CommitSpace` | libtransmission/tr-buffer.h:299-305 | appends the first n bytes of the reserved region and uses up the reservation |
| `GrowableBuffer.Buffer.Reserve` | libtransmission/tr-buffer.h:264-267 | leaves the readable bytes unchanged |
| `GrowableBuffer.Buffer.Add` | libtransmission/tr-buffer.h:130-141 | appends exactly the span after the old bytes |
| `GrowableBuffer.Buffer.PushBack` | libtransmission/tr-buffer.h:143-147 | appends exactly one byte |
| `GrowableBuffer.Buffer.AddUint8` | libtransmission/tr-buffer.h:149-152 | appends exactly one byte |
| `GrowableBuffer.Buffer.AddUint16` | libtransmission/tr-buffer.h:154-158 | appends the value's two big-endian octets |
| `GrowableBuffer.Buffer.AddHton16` | libtransmission/tr-buffer.h:160-163 | the same effect as `AddUint16` |
| `GrowableBuffer.Buffer.AddUint32` | libtransmission/tr-buffer.h:165-169 | appends the value's four big-endian octets |
| `GrowableBuffer.Buffer.EaddHton32` | libtransmission/tr-buffer.h:171-174 | the same effect as `AddUint32` |
| `GrowableBuffer.Buffer.AddUint64` | libtransmission/tr-buffer.h:176-180 | appends the value's eight big-endian octets |
| `GrowableBuffer.Buffer.AddHton64` | libtransmission/tr-buffer.h:182-185 | the same effect as `AddUint64` |
| `GrowableBuffer.Buffer.AddPort` | libtransmission/tr-buffer.h:187-191 | appends the port's two network-order octets as they are |
| `InlineBuffer.SmallBuffer.constructor` | libtransmission/tr-buffer.h:317 | a new small buffer is empty, with inline storage for N bytes |
| `InlineBuffer.SmallBuffer.Size` | libtransmission/tr-buffer.h:323-326 | `committed_size_`, never more than the vector's element count |
| `InlineBuffer.SmallBuffer.Data` | libtransmission/tr-buffer.h:328-336 | the first `committed_size_` elements of `buf_` |
| `InlineBuffer.ShiftDown` | libtransmission/tr-buffer.h:342 | `buf_.erase(begin, begin + k)`: the elements from k on move, in order, to the front of the storage |
| `InlineBuffer.SmallBuffer.Drain` | libtransmission/tr-buffer.h:338-344 | clamps n to the committed size, shifts the later elements down to the front and lowers the cursor and the element count by exactly the clamped amount |
| `InlineBuffer.SmallBuffer.Empty` | libtransmission/tr-buffer.h:40-43 | true iff there are no committed bytes |
| `InlineBuffer.SmallBuffer.ToString` | libtransmission/tr-buffer.h:65-68 | returns every committed byte as a char, without draining |
| `InlineBuffer.SmallBuffer.StartsWith` | libtransmission/tr-buffer.h:70-77 | true iff the needle fits in the committed bytes and equals their prefix, without draining |
| `InlineBuffer.SmallBuffer.ToBuf` | libtransmission/tr-buffer.h:79-85 | copies the first `k = min(n, size())` committed bytes into the target, drains exactly k bytes, lowers the element count by k keeping the uncommitted elements after the committed ones, and returns k |
| `InlineBuffer.SmallBuffer.ToUint8` | libtransmission/tr-buffer.h:87-92 | returns and drains what `ReadUint` gives for width 1 |
| `InlineBuffer.SmallBuffer.ReadWidth` | libtransmission/tr-buffer.h:94-113 | the shared body of `to_uint16/32/64` over the inline store, as `ReadUint` states |
| `InlineBuffer.SmallBuffer.ToUint16` | libtransmission/tr-buffer.h:94-99 | returns and drains what `ReadUint` gives for width 2 |
| `InlineBuffer.SmallBuffer.ToUint32` | libtransmission/tr-buffer.h:101-106 | returns and drains what `ReadUint` gives for width 4 |
| `InlineBuffer.SmallBuffer.ToUint64` | libtransmission/tr-buffer.h:108-113 | returns and drains what `ReadUint` gives for width 8 |
| `InlineBuffer.SmallBuffer.ReserveSpace` | libtransmission/tr-buffer.h:346-350 | resizes the vector to `committed_size_ + n` elements; new elements are zero and the kept ones are unchanged; returns the region starting at offset `committed_size_`, and reports `capacity() - committed_size_` writable bytes, at least the n elements it opened; when the new size fits the old capacity the storage stays where it was, and the capacity never shrinks |
| `InlineBuffer.SmallBuffer.CommitSpace` | libtransmission/tr-buffer.h:352-355 | raises the committed size by exactly n and makes the next n reserved elements readable |
| `InlineBuffer.SmallBuffer.Add` | libtransmission/tr-buffer.h:130-141 | appends exactly the span after the committed bytes; the storage stays where it was when the span fits the capacity, and the capacity never shrinks |
| `InlineBuffer.SmallBuffer.PushBack` | libtransmission/tr-buffer.h:143-147 | appends exactly one byte |
| `InlineBuffer.SmallBuffer.AddUint8` | libtransmission/tr-buffer.h:149-152 | appends exactly one byte |
| `InlineBuffer.SmallBuffer.AddUint16` | libtransmission/tr-buffer.h:154-158 | appends the value's two big-endian octets |
| `InlineBuffer.SmallBuffer.AddHton16` | libtransmission/tr-buffer.h:160-163 | the same effect as `AddUint16` |
| `InlineBuffer.SmallBuffer.AddUint32` | libtransmission/tr-buffer.h:165-169 | appends the value's four big-endian octets |
| `InlineBuffer.SmallBuffer.EaddHton32` | libtransmission/tr-buffer.h:171-174 | the same effect as `AddUint32` |
| `InlineBuffer.SmallBuffer.AddUint64` | libtransmission/tr-buffer.h:176-180 | appends the value's eight big-endian octets |
| `InlineBuffer.SmallBuffer.AddHton64` | libtransmission/tr-buffer.h:182-185 | the same effect as `AddUint64` |
| `InlineBuffer.SmallBuffer.AddPort` | libtransmission/tr-buffer.h:187-191 | appends the port's two network-order octets as they are |
| `ReserveProtocol.Resize` | libtransmission/tr-buffer.h:348 | `buf_.resize(m)`: the vector then has m elements within its storage, keeps its first `min(size, m)` elements, zeroes the added ones and leaves `committed_size_` alone |
| `ReserveProtocol.ReserveAsWritten` | libtransmission/tr-buffer.h:346-350 | resizes to `committed_size_ + n` and reports `capacity() - committed_size_` writable bytes, which is at least n and may be more |
| `ReserveProtocol.Reserve` | libtransmission/tr-buffer.h:346-350 | the corrected `reserve_space`: the same resize, reporting exactly the n elements it added behind the committed ones |
| `ReserveProtocol.Write` | libtransmission/tr-buffer.h:132-139 | the writer's copy lands at the offset given and leaves the bytes before it unchanged |
| `ReserveProtocol.Commit` | libtransmission/tr-buffer.h:352-355 | `commit_space(n)` raises `committed_size_` by n and touches nothing else |
| `ReserveProtocol.Readable` | libtransmission/tr-buffer.h:323-336 | the readable bytes are `committed_size_` long |
| `ReserveProtocol.ReserveOneOfEight` | libtransmission/tr-buffer.h:346-350 | in an empty `SmallBuffer<8>`, `reserve_space(1)` makes the vector one element long and reports 8 writable bytes |
| `ReserveProtocol.WriteFourOfEight` | libtransmission/tr-buffer.h:352-355 | writing `01 02 03 04` into that region and committing 4 leaves `committed_size_` at 4 while the vector holds one element |
| `ReserveProtocol.ReserveTwoAfterFour` | libtransmission/tr-buffer.h:346-350 | the next `reserve_space(2)` turns the readable bytes into `01 00 00 00` |
| `ReserveProtocol.AsWrittenLosesCommittedBytes` | libtransmission/tr-buffer.h:346-355 | in a `SmallBuffer<8>`, `reserve_space(1)` reports 8 writable bytes; committing 4 of them puts `committed_size_` past the vector's end, and the next `reserve_space(2)` turns the committed `01 02 03 04` into `01 00 00 00` |
| `ReserveProtocol.ReserveKeepsCommitted` | libtransmission/tr-buffer.h:346-355 | with the corrected `reserve_space`, committing no more than it reports keeps `committed_size_` within the vector, the readable bytes become the old ones followed by what was written, and the next `reserve_space` keeps all of them |
| `Scenarios.SmallBufferDrainExample` | libtransmission/tr-buffer.h:338-355 | three `push_back`s into a `SmallBuffer<8>` and then `drain(2)` leave one byte, the third one pushed |
| `Scenarios.SmallBufferReserveReportsCapacity` | libtransmission/tr-buffer.h:346-350 | `reserve_space(1)` on a fresh `SmallBuffer<8>` keeps the inline storage, opens one element and reports 8 writable bytes |
| `Scenarios.Uint32Example` | libtransmission/tr-buffer.h:101-106 | `add_uint32(0x01020304)` queues `01 02 03 04`; `to_uint32()` then returns `0x01020304` and leaves the buffer empty |
| `Scenarios.PortExample` | libtransmission/tr-buffer.h:187-191 | `add_port` for port 6881 queues exactly `1A E1` |
| `Scenarios.Uint16RoundTrip` | libtransmission/tr-buffer.h:79-99 | after bytes that were already queued are read out by `to_buf`, `to_uint16` returns the `add_uint16` value and leaves the buffer empty |
| `Scenarios.SmallBufferRoundTrip` | libtransmission/tr-buffer.h:101-113 | in a `SmallBuffer`, `add_uint32` then `add_hton64`, read back by `to_uint32` then `to_uint64`, return both values and leave it empty |
| `Scenarios.DrainCountsDown` | libtransmission/tr-buffer.h:224-227 | `drain(n)` with n at most the size leaves `size - n` bytes, and the buffer is empty iff n was the whole size |
| `Scenarios.PeekDoesNotConsume` | libtransmission/tr-buffer.h:65-77 | `starts_with` and `to_string` answer from the buffered bytes and leave the size unchanged |

## Left out

- `Buffer::to_socket` and `Buffer::add_socket` (tr-buffer.h:229-241, 269-290): these are non-blocking socket I/O through libevent, with `tr_error` reporting. The socket layer is not part of this model.
- `Buffer::pullup`, `pullup_sv`, the pointer returned by `data()`, and `begin`/`end` (tr-buffer.h:45-63, 243-262): these expose raw pointers into the evbuffer and promise how long they stay valid. The model gives only the readable bytes (`Data()`).
- The segment chain inside `evbuffer`, and the second `evbuffer_reserve_space` inside `Buffer::commit_space`: libevent is not part of this model. `Buffer` is only its byte sequence.
- GrowableBuffer.Buffer.Reserve: capacity is not modelled. The contract says only that the bytes do not change. The wrap-around of `n_bytes - size()` when `n_bytes < size()` is not modelled.
- GrowableBuffer.Buffer.ReserveSpace: hands out exactly n bytes. libevent may hand out more, and the contract allows more.
- InlineBuffer.SmallBuffer.ReserveSpace: when the vector outgrows its capacity, the body moves it to storage of exactly the size that was asked for. The growth policy of `sfl::small_vector` is not modelled, so in that case the contract promises only fresh storage at least the new size; when the new size fits, the storage and capacity are promised unchanged.
- InlineBuffer.SmallBuffer.CommitSpace: n may not exceed the n elements the last `reserve_space` opened, although `reserve_space` reports `capacity() - committed_size_`, which can be more. The class therefore keeps the corrected protocol's discipline. What committing more does is modelled in `ReserveProtocol` (see Findings).
- InlineBuffer.SmallBuffer.ToBuf: the target must not be the buffer's own storage. In the C++ code that overlap would be undefined behaviour.
- `sfl::small_vector` moves and copies, the deleted copy and move operations, and the inline-to-heap fallback as a memory-ownership mechanism: these are C++ ownership details. The model has one object per buffer and no aliasing between buffers.
- `tr_port` (net.h) and the byte-order primitives `htons`/`ntohs`/`htonl`/`ntohl`/`tr_htonll`/`tr_ntohll` (utils.h) are not part of this model. `Port` holds a host-order number, and its network form is that number's two big-endian octets. The conversions that pair up with a raw memory copy are modelled by what they put on the wire: `ToBigEndian` and `FromBigEndian`.
- `push_back` accepts any one-byte type in C++. The model takes an octet.

## Findings

| source | as written | input that shows it | evidently intended | confidence | as-written member | corrected member |
|---|---|---|---|---|---|---|
| libtransmission/tr-buffer.h:346-350 | `SmallBuffer::reserve_space` resizes the vector to `committed_size_ + n` but reports `capacity() - committed_size_` writable bytes. A writer that commits all it is told it may write puts `committed_size_` past the vector's end, and the next `resize` zeroes committed bytes (and a later `drain` erases past `end()`). `BufferWriter::add` commits only its span's length, so it is not affected. | `SmallBuffer<8>`: `reserve_space(1)` reports 8; write `01 02 03 04`, `commit_space(4)`; `reserve_space(2)` leaves the readable bytes `01 00 00 00` | report n, the number of elements the resize added behind the committed ones | high (not executed) | `ReserveProtocol.AsWrittenLosesCommittedBytes` | `ReserveProtocol.ReserveKeepsCommitted` |
