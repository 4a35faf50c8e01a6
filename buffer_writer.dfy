/** What the BufferWriter capability appends, independent of the buffer that
    receives it: fixed-width integers in network order and ports that already
    carry their network-order form. */
module BufferWriter {
  import opened Bytes

  /** A network-endpoint port (tr_port). It keeps its host-order number;
      Network() is the two octets of port.network() as they lie in memory,
      which is what add_port copies into the buffer. */
  datatype Port = Port(host: uint16) {
    function Network(): (r: seq<uint8>)
      ensures |r| == 2 && FromBigEndian(r) == host
      ensures r[0] == host / 256 && r[1] == host % 256
    {
      FromToBigEndian(host, 2);
      ToBigEndian(host, 2)
    }
  }

  /** add_uint32(0x01020304) appends 01 02 03 04. */
  lemma Uint32Example()
    ensures ToBigEndian(0x0102_0304, 4) == [0x01, 0x02, 0x03, 0x04]
  {
  }

  /** The BitTorrent default port 6881 goes on the wire as 1A E1. */
  lemma PortExample()
    ensures Port(6881).Network() == [0x1A, 0xE1]
  {
  }

  /** An integer that fits in w octets is encoded without loss. */
  lemma {:induction false} EncodingDeterminesValue(v: nat, u: nat, w: nat)
    requires v < Pow256(w) && u < Pow256(w)
    ensures ToBigEndian(v, w) == ToBigEndian(u, w) <==> v == u
  {
    FromToBigEndian(v, w);
    FromToBigEndian(u, w);
  }
}
