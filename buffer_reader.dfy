/** The read helpers that the BufferReader capability derives from its three
    primitives size(), data() and drain(). Each function here takes the
    buffer's readable bytes (what data() shows, size() long) and gives the
    answer of one helper; the buffer classes call them and state their
    results in these terms. */
module BufferReader {
  import opened Bytes

  /** What a consuming read leaves behind: the value decoded and the bytes that
      remain readable afterwards. */
  datatype Read = Read(value: nat, rest: seq<uint8>)

  /** std::equal over the needle: every byte of a matches the byte at the same
      position of b. */
  function Equal(a: seq<uint8>, b: seq<uint8>): (r: bool)
    requires |a| <= |b|
    ensures r <==> a == b[..|a|]
  {
    if a == [] then true else a[0] == b[0] && Equal(a[1..], b[1..])
  }

  /** starts_with: the length test comes first, so a needle longer than the
      readable bytes is answered false without looking past the end. */
  function StartsWith(bytes: seq<uint8>, needle: seq<uint8>): (r: bool)
    ensures r <==> |needle| <= |bytes| && bytes[..|needle|] == needle
  {
    |needle| <= |bytes| && Equal(needle, bytes)
  }

  /** to_string: every readable byte reinterpreted as one char. */
  function AsString(bytes: seq<uint8>): (r: string)
    ensures |r| == |bytes|
    ensures forall i :: 0 <= i < |r| ==> r[i] as int == bytes[i]
  {
    seq(|bytes|, i requires 0 <= i < |bytes| => bytes[i] as char)
  }

  /** to_uintW: a zero-initialised w-byte integer receives the first
      Min(w, |bytes|) readable bytes, is converted from network order, and
      those bytes are drained. */
  function ReadUint(bytes: seq<uint8>, w: nat): (r: Read)
    ensures r.rest == bytes[Min(w, |bytes|)..]
    ensures r.value < Pow256(w)
    ensures w <= |bytes| ==> r.value == FromBigEndian(bytes[..w])
  {
    var k := Min(w, |bytes|);
    var tmp := bytes[..k] + Zeros(w - k);
    assert w <= |bytes| ==> tmp == bytes[..w];
    Read(FromBigEndian(tmp), bytes[k..])
  }

  /** A read with fewer than w bytes buffered consumes all of them and yields
      their value followed by zero bytes: no error is raised. */
  lemma ShortRead(bytes: seq<uint8>, w: nat)
    requires |bytes| < w
    ensures ReadUint(bytes, w) == Read(FromBigEndian(bytes) * Pow256(w - |bytes|), [])
  {
    assert bytes[..|bytes|] == bytes;
    FromBigEndianZeroPadded(bytes, w - |bytes|);
  }
}
