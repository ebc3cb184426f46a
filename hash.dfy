/**
 * Identifier hashing (src/chord/util.go:43-49).
 *
 * SHA-1 is a foreign library: it is a parameter `sha1` mapping a key to its
 * 20-byte digest, and nothing is assumed about it. The model covers what the
 * Go code does with the digest: read its first 8 bytes as a big-endian
 * `uint64` and reduce modulo the ring size.
 */
module Hashing {
  import opened Bytes
  import opened RingGeometry

  /** A SHA-1 digest. */
  type Digest = s: seq<byte> | |s| == 20 witness seq(20, _ => 0)

  /** `binary.BigEndian.Uint64`: the first 8 bytes, most significant first. */
  function Uint64(b: seq<byte>): (v: nat)
    requires |b| >= 8
    ensures v < 0x1_0000_0000_0000_0000
    ensures v == b[0] as int * 0x100_0000_0000_0000 + b[1] as int * 0x1_0000_0000_0000
               + b[2] as int * 0x100_0000_0000 + b[3] as int * 0x1_0000_0000
               + b[4] as int * 0x100_0000 + b[5] as int * 0x1_0000 + b[6] as int * 0x100 + b[7]
  {
    assert BigEndian(b[..0]) == 0;
    BigEndianPrefix(b, 0);
    BigEndianPrefix(b, 1);
    BigEndianPrefix(b, 2);
    BigEndianPrefix(b, 3);
    BigEndianPrefix(b, 4);
    BigEndianPrefix(b, 5);
    BigEndianPrefix(b, 6);
    BigEndianPrefix(b, 7);
    BigEndian(b[..8])
  }

  /** `Hash`: the identifier of `key`. The `uint64` remainder is below
      `RingSize` < 2^63, so Go's conversion to `int` does not change it. */
  function Hash(sha1: string -> Digest, key: string): (id: int)
    ensures InRing(id)
  {
    Uint64(sha1(key)) % RingSize
  }

  /** The identifier depends on the key only through the first 8 bytes of its
      digest; the other 12 bytes are ignored. */
  lemma HashUsesDigestPrefix(sha1: string -> Digest, k1: string, k2: string)
    requires sha1(k1)[..8] == sha1(k2)[..8]
    ensures Hash(sha1, k1) == Hash(sha1, k2)
  {
    assert forall i :: 0 <= i < 8 ==> sha1(k1)[i] == sha1(k1)[..8][i];
    assert forall i :: 0 <= i < 8 ==> sha1(k2)[i] == sha1(k2)[..8][i];
  }
}
