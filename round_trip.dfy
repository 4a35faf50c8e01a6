/** Writes followed by reads: the buffer is a FIFO of octets, so a run of
    add_uintW calls followed by the matching to_uintW calls in the same order
    gives back every value and leaves behind exactly what followed them. */
module RoundTrip {
  import opened Bytes
  import opened BufferReader

  /** One fixed-width integer field: its width in octets and its value. */
  datatype Field = Field(width: nat, value: nat)

  predicate Fits(f: Field) {
    f.value < Pow256(f.width)
  }

  /** The octets a run of add_uintW calls appends, in call order. */
  function Written(fs: seq<Field>): seq<uint8>
  {
    if fs == [] then [] else ToBigEndian(fs[0].value, fs[0].width) + Written(fs[1..])
  }

  function Widths(fs: seq<Field>): (r: seq<nat>)
    ensures |r| == |fs| && forall i :: 0 <= i < |fs| ==> r[i] == fs[i].width
  {
    seq(|fs|, i requires 0 <= i < |fs| => fs[i].width)
  }

  function Values(fs: seq<Field>): (r: seq<nat>)
    ensures |r| == |fs| && forall i :: 0 <= i < |fs| ==> r[i] == fs[i].value
  {
    seq(|fs|, i requires 0 <= i < |fs| => fs[i].value)
  }

  /** The values a run of to_uintW calls of the given widths returns, and the
      bytes still readable after the last of them. */
  function ReadAll(widths: seq<nat>, bytes: seq<uint8>): (r: (seq<nat>, seq<uint8>))
    ensures |r.0| == |widths|
    ensures |r.1| <= |bytes|
  {
    if widths == [] then ([], bytes)
    else
      var first := ReadUint(bytes, widths[0]);
      var later := ReadAll(widths[1..], first.rest);
      ([first.value] + later.0, later.1)
  }

  /** One write then one read of the same width gives the value back and
      consumes exactly the octets written. */
  lemma ReadAfterWriteOne(f: Field, tail: seq<uint8>)
    requires Fits(f)
    ensures ReadUint(ToBigEndian(f.value, f.width) + tail, f.width) == Read(f.value, tail)
  {
    var enc := ToBigEndian(f.value, f.width);
    assert (enc + tail)[..f.width] == enc;
    assert (enc + tail)[f.width..] == tail;
    FromToBigEndian(f.value, f.width);
  }

  /** The round trip for a whole run of fields. With an empty tail the reads
      give back every value and leave the buffer as empty as before the
      writes. */
  lemma {:induction false} ReadAfterWrite(fs: seq<Field>, tail: seq<uint8>)
    requires forall i :: 0 <= i < |fs| ==> Fits(fs[i])
    ensures ReadAll(Widths(fs), Written(fs) + tail) == (Values(fs), tail)
  {
    if fs != [] {
      var f := fs[0];
      var rest := Written(fs[1..]) + tail;
      var bytes := ToBigEndian(f.value, f.width) + rest;
      assert Written(fs) + tail == bytes;
      ReadAfterWriteOne(f, rest);
      var ws := Widths(fs);
      assert ws[0] == f.width && ws[1..] == Widths(fs[1..]);
      ReadAfterWrite(fs[1..], tail);
      assert ReadAll(ws, bytes) == ([f.value] + Values(fs[1..]), tail);
      assert Values(fs) == [f.value] + Values(fs[1..]);
    } else {
      assert Widths(fs) == [] && Values(fs) == [];
      assert Written(fs) + tail == tail;
    }
  }
}
