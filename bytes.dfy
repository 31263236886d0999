// Shared byte-level vocabulary: octets, an optional value, and the
// big-endian (network order) integer codec used by sockets::hostToNetwork*
// and sockets::networkToHost*.
module Bytes {

  /** An unsigned octet, as stored in a char buffer and compared by memcmp. */
  type byte = x: int | 0 <= x < 256

  datatype Option<T> = None | Some(value: T)

  /** 256 to the power n: the number of values an n-byte field can hold. */
  function Pow256(n: nat): (r: nat)
    ensures r >= 1
    ensures n > 0 ==> r >= 256 && r % 2 == 0
  {
    if n == 0 then 1 else 256 * Pow256(n - 1)
  }

  /** The n-byte big-endian image of u (most significant byte first). */
  function BigEndian(u: nat, n: nat): (r: seq<byte>)
    ensures |r| == n
  {
    if n == 0 then [] else BigEndian(u / 256, n - 1) + [u % 256]
  }

  /** The unsigned value of a big-endian byte string. */
  function FromBigEndian(s: seq<byte>): (u: nat)
    ensures u < Pow256(|s|)
  {
    if s == [] then 0
    else
      var hi := FromBigEndian(s[..|s| - 1]);
      assert hi <= Pow256(|s| - 1) - 1;
      assert hi * 256 <= Pow256(|s|) - 256;
      hi * 256 + s[|s| - 1]
  }

  lemma {:induction false} FromBigEndianOfBigEndian(u: nat, n: nat)
    requires u < Pow256(n)
    ensures FromBigEndian(BigEndian(u, n)) == u
  {
    if n > 0 {
      var s := BigEndian(u, n);
      assert s[..n - 1] == BigEndian(u / 256, n - 1);
      assert u / 256 < Pow256(n - 1);
      FromBigEndianOfBigEndian(u / 256, n - 1);
    }
  }

  lemma {:induction false} BigEndianOfFromBigEndian(s: seq<byte>)
    ensures BigEndian(FromBigEndian(s), |s|) == s
  {
    if s != [] {
      var n := |s|;
      var hi := FromBigEndian(s[..n - 1]);
      var u := hi * 256 + s[n - 1];
      assert u / 256 == hi && u % 256 == s[n - 1];
      BigEndianOfFromBigEndian(s[..n - 1]);
      assert s == s[..n - 1] + [s[n - 1]];
    }
  }

  /** x is representable as an n-byte two's-complement integer. */
  predicate InSignedRange(x: int, n: nat)
  {
    n > 0 && -(Pow256(n) / 2) <= x < Pow256(n) / 2
  }

  /** The n-byte two's-complement network-order image of x (hostToNetwork). */
  function EncodeSigned(x: int, n: nat): (r: seq<byte>)
    requires InSignedRange(x, n)
    ensures |r| == n
  {
    BigEndian(if x < 0 then x + Pow256(n) else x, n)
  }

  /** The signed value of a network-order byte string (networkToHost). */
  function DecodeSigned(s: seq<byte>): (x: int)
    requires |s| > 0
    ensures InSignedRange(x, |s|)
  {
    var u := FromBigEndian(s);
    if u >= Pow256(|s|) / 2 then u - Pow256(|s|) else u
  }

  lemma DecodeEncodeSigned(x: int, n: nat)
    requires InSignedRange(x, n)
    ensures DecodeSigned(EncodeSigned(x, n)) == x
  {
    FromBigEndianOfBigEndian(if x < 0 then x + Pow256(n) else x, n);
  }

  lemma EncodeDecodeSigned(s: seq<byte>)
    requires |s| > 0
    ensures EncodeSigned(DecodeSigned(s), |s|) == s
  {
    BigEndianOfFromBigEndian(s);
  }
}
