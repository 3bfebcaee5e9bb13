/** Bytes and the big-endian integers of packet formats. */
module Bytes {

  type Byte = b: int | 0 <= b < 256

  /** A 16-bit field in network order. */
  function U16(n: nat): (s: seq<Byte>)
    requires n < 0x1_0000
    ensures |s| == 2
  {
    [n / 256, n % 256]
  }

  function Get16(s: seq<Byte>): (n: nat)
    requires |s| == 2
    ensures n < 0x1_0000
  {
    s[0] as int * 256 + s[1] as int
  }

  lemma U16RoundTrip(n: nat)
    requires n < 0x1_0000
    ensures Get16(U16(n)) == n
  {}

  lemma Regroup(a: seq<Byte>, b: seq<Byte>, c: seq<Byte>)
    ensures a + b + c == a + (b + c)
  {}
}
