/** The reserve/commit protocol of SmallBuffer on the whole vector state: the
    storage (as long as the vector's capacity), the vector's element count and
    committed_size_. It shows what happens to a writer that commits as much
    space as reserve_space reports, and what reserve_space must report for the
    committed bytes to stay safe. A SmallBuffer's state is
    Vector(buf[..], len, committedSize), and Consistent is its Valid() without
    the bound on the inline capacity; Resize and Commit are what the bodies
    of SmallBuffer.ReserveSpace and SmallBuffer.CommitSpace do to that state. */
module ReserveProtocol {
  import opened Bytes

  datatype Vector = Vector(store: seq<uint8>, size: nat, committed: nat)

  /** The state SmallBuffer relies on: the committed elements lie within the
      vector, and the vector within its storage. */
  predicate Consistent(v: Vector) {
    v.committed <= v.size <= |v.store|
  }

  /** The readable bytes: the first committed_size_ bytes of the storage. */
  function Readable(v: Vector): (r: seq<uint8>)
    requires v.committed <= |v.store|
    ensures |r| == v.committed
  {
    v.store[..v.committed]
  }

  /** buf_.resize(m): keeps the first min(size, m) elements, zeroes the ones it
      adds, and moves to storage of exactly m elements when the capacity is too
      small. committed_size_ is not touched. */
  function Resize(v: Vector, m: nat): (r: Vector)
    requires v.size <= |v.store|
    ensures r.size == m && m <= |r.store| && r.committed == v.committed
    ensures |v.store| <= |r.store|
    ensures forall i :: 0 <= i < Min(v.size, m) ==> r.store[i] == v.store[i]
    ensures forall i :: v.size <= i < m ==> r.store[i] == 0
  {
    if |v.store| < m then Vector(v.store[..v.size] + Zeros(m - v.size), m, v.committed)
    else if v.size < m then Vector(v.store[..v.size] + Zeros(m - v.size) + v.store[m..], m, v.committed)
    else v.(size := m)
  }

  /** reserve_space(n) as written: resize to committed_size_ + n and report
      capacity() - committed_size_ bytes as writable. */
  function ReserveAsWritten(v: Vector, n: nat): (r: (Vector, nat))
    requires v.size <= |v.store| && v.committed <= |v.store|
    ensures r.0 == Resize(v, v.committed + n)
    ensures r.1 == |r.0.store| - v.committed && n <= r.1
  {
    var t := Resize(v, v.committed + n);
    (t, |t.store| - v.committed)
  }

  /** reserve_space(n) corrected: the same resize, reporting as writable only
      the n elements it added behind the committed ones. */
  function Reserve(v: Vector, n: nat): (r: (Vector, nat))
    requires v.size <= |v.store|
    ensures r.0 == Resize(v, v.committed + n)
    ensures r.1 == n && r.0.size == v.committed + r.1
  {
    (Resize(v, v.committed + n), n)
  }

  /** The writer fills the reserved region from offset on. */
  function Write(v: Vector, offset: nat, bytes: seq<uint8>): (r: Vector)
    requires offset + |bytes| <= |v.store|
    ensures r.size == v.size && r.committed == v.committed && |r.store| == |v.store|
    ensures r.store[offset..offset + |bytes|] == bytes
    ensures forall i :: 0 <= i < offset ==> r.store[i] == v.store[i]
  {
    v.(store := v.store[..offset] + bytes + v.store[offset + |bytes|..])
  }

  /** commit_space(n): committed_size_ += n, unchecked. */
  function Commit(v: Vector, n: nat): (r: Vector)
    ensures r.committed == v.committed + n && r.store == v.store && r.size == v.size
  {
    v.(committed := v.committed + n)
  }

  /** The storage of a SmallBuffer<8> after 01 02 03 04 was written at the
      front. */
  const Written8: seq<uint8> := [1, 2, 3, 4, 0, 0, 0, 0]

  lemma ReserveOneOfEight()
    ensures ReserveAsWritten(Vector(Zeros(8), 0, 0), 1) == (Vector(Zeros(8), 1, 0), 8)
  {
    var z := Zeros(8);
    assert z[..0] + Zeros(1) + z[1..] == z;
  }

  lemma WriteFourOfEight()
    ensures Commit(Write(Vector(Zeros(8), 1, 0), 0, [1, 2, 3, 4]), 4) == Vector(Written8, 1, 4)
  {
    var z := Zeros(8);
    assert z[..0] + [1, 2, 3, 4] + z[4..] == Written8;
  }

  lemma ReserveTwoAfterFour()
    ensures Readable(ReserveAsWritten(Vector(Written8, 1, 4), 2).0) == [1, 0, 0, 0]
  {
    var st := Written8[..1] + Zeros(5) + Written8[6..];
    assert ReserveAsWritten(Vector(Written8, 1, 4), 2).0 == Vector(st, 6, 4);
    assert st[..4] == [1, 0, 0, 0];
  }

  /** As written: a SmallBuffer<8> reserves 1 byte and is told 8 are
      writable; the writer commits 4. committed_size_ then passes the vector's
      end, and the next reserve_space(2) zeroes three committed bytes. */
  lemma AsWrittenLosesCommittedBytes()
    ensures ReserveAsWritten(Vector(Zeros(8), 0, 0), 1).1 == 8
    ensures var v := Commit(Write(ReserveAsWritten(Vector(Zeros(8), 0, 0), 1).0, 0, [1, 2, 3, 4]), 4);
            !Consistent(v)
            && Readable(v) == [1, 2, 3, 4]
            && Readable(ReserveAsWritten(v, 2).0) == [1, 0, 0, 0]
  {
    ReserveOneOfEight();
    WriteFourOfEight();
    ReserveTwoAfterFour();
    assert Written8[..4] == [1, 2, 3, 4];
  }

  /** Corrected: a writer that commits no more than reserve_space reports
      keeps the vector consistent, its committed bytes are the old ones
      followed by what it wrote, and the next reserve_space keeps all of
      them. */
  lemma ReserveKeepsCommitted(v: Vector, bytes: seq<uint8>, k: nat, n2: nat)
    requires Consistent(v) && k <= Reserve(v, |bytes|).1
    ensures var v1 := Commit(Write(Reserve(v, |bytes|).0, v.committed, bytes), k);
            Consistent(v1)
            && Readable(v1) == Readable(v) + bytes[..k]
            && Readable(Reserve(v1, n2).0) == Readable(v1)
  {
    var r := Reserve(v, |bytes|).0;
    var w := Write(r, v.committed, bytes);
    var v1 := Commit(w, k);
    assert Readable(v1) == w.store[..v.committed] + w.store[v.committed..v.committed + k];
    assert w.store[v.committed..v.committed + k] == bytes[..k];
    assert w.store[..v.committed] == Readable(v);
    var r2 := Reserve(v1, n2).0;
    assert Readable(r2) == Readable(v1);
  }
}
