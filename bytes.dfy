/** Octets and the network (big-endian) byte order used by every multi-byte
    field the buffer layer reads or writes.

    The C++ code converts between host and network order with htons/ntohs,
    htonl/ntohl and tr_htonll/tr_ntohll and then copies the integer's raw
    memory. Whatever the host's own order, the bytes that reach the buffer are
    the value's big-endian representation, so the model states that directly
    with ToBigEndian and FromBigEndian. */
module Bytes {

  /** One octet (std::byte / uint8_t). */
  type uint8 = x: int | 0 <= x < 0x100
  type uint16 = x: int | 0 <= x < 0x1_0000
  type uint32 = x: int | 0 <= x < 0x1_0000_0000
  type uint64 = x: int | 0 <= x < 0x1_0000_0000_0000_0000

  /** The smaller of two counts: how many bytes a clamped drain or copy
      handles when a bytes are asked for and b are there. */
  function Min(a: nat, b: nat): (k: nat)
    ensures k <= a && k <= b
    ensures k == a || k == b
  {
    if a <= b then a else b
  }

  /** 256 to the power w: one more than the largest value w octets hold. */
  function Pow256(w: nat): (r: nat)
    ensures r > 0
  {
    if w == 0 then 1 else 256 * Pow256(w - 1)
  }

  /** The w octets of v in network order, most significant first; v is
      reduced modulo Pow256(w), as a cast to a w-octet integer does. */
  function ToBigEndian(v: nat, w: nat): (r: seq<uint8>)
    ensures |r| == w
  {
    if w == 0 then [] else ToBigEndian(v / 256, w - 1) + [v % 256]
  }

  /** The unsigned integer whose network-order octets are s. */
  function FromBigEndian(s: seq<uint8>): (r: nat)
    ensures r < Pow256(|s|)
  {
    if s == [] then 0 else FromBigEndian(s[..|s| - 1]) * 256 + s[|s| - 1]
  }

  /** n zero octets: the value-initialised bytes of a fresh integer or vector slot. */
  function Zeros(n: nat): (r: seq<uint8>)
    ensures |r| == n && forall i :: 0 <= i < n ==> r[i] == 0
  {
    seq(n, _ => 0)
  }

  /** Decoding what was encoded gives the value back, for every value that fits. */
  lemma {:induction false} FromToBigEndian(v: nat, w: nat)
    requires v < Pow256(w)
    ensures FromBigEndian(ToBigEndian(v, w)) == v
  {
    if w > 0 {
      var front := ToBigEndian(v / 256, w - 1);
      assert ToBigEndian(v, w) == front + [v % 256];
      assert (front + [v % 256])[..w - 1] == front;
      FromToBigEndian(v / 256, w - 1);
    }
  }

  /** Encoding what was decoded gives the octets back: the encoding is onto. */
  lemma {:induction false} ToFromBigEndian(s: seq<uint8>)
    ensures ToBigEndian(FromBigEndian(s), |s|) == s
  {
    if s != [] {
      var init, last := s[..|s| - 1], s[|s| - 1];
      var v := FromBigEndian(s);
      assert v == FromBigEndian(init) * 256 + last;
      assert v / 256 == FromBigEndian(init) && v % 256 == last;
      ToFromBigEndian(init);
      assert s == init + [last];
    }
  }

  /** Two octet strings of one width with the same value are equal. */
  lemma FromBigEndianInjective(s: seq<uint8>, t: seq<uint8>)
    requires |s| == |t| && FromBigEndian(s) == FromBigEndian(t)
    ensures s == t
  {
    ToFromBigEndian(s);
    ToFromBigEndian(t);
  }

  /** Trailing zero octets shift the value left by eight bits each. */
  lemma {:induction false} FromBigEndianZeroPadded(s: seq<uint8>, n: nat)
    ensures FromBigEndian(s + Zeros(n)) == FromBigEndian(s) * Pow256(n)
  {
    if n == 0 {
      assert s + Zeros(0) == s;
    } else {
      var t := s + Zeros(n - 1);
      assert s + Zeros(n) == t + [0];
      assert (t + [0])[..|t|] == t;
      FromBigEndianZeroPadded(s, n - 1);
      var a, p := FromBigEndian(s), Pow256(n - 1);
      assert FromBigEndian(t + [0]) == FromBigEndian(t) * 256;
      assert FromBigEndian(t) == a * p;
      assert Pow256(n) == 256 * p;
      assert a * p * 256 == a * (256 * p) by {
        assert forall x: int, y: int :: x * y * 256 == x * (256 * y);
      }
    }
  }
}
