/**
  The Internet checksum (lispd/lib/cksum.c, RFC 1071): 16-bit words read in host order, here little
  endian, summed in a 32-bit register and folded into one's complement.
 */
module Checksum {
  import opened Bytes

  const WORD := 0x1_0000
  const ONES := 0xFFFF
  const REGISTER := 0x1_0000_0000

  /** The sum of the words of a buffer; an odd last byte counts as a word with a zero high byte. */
  function Sum(s: seq<Byte>): nat {
    if s == [] then 0
    else if |s| == 1 then s[0] as int
    else s[0] as int + 256 * s[1] as int + Sum(s[2..])
  }

  /** The one's complement value of a sum: 0 only for 0, else between 1 and 65535. */
  function Fold(n: nat): (r: nat)
    ensures r <= ONES
  {
    if n == 0 then 0 else 1 + (n - 1) % ONES
  }

  /** What the checksum functions return for a sum. */
  function Complement(n: nat): (c: nat)
    ensures c <= ONES
  {
    ONES - Fold(n)
  }

  // ---------- one's complement ----------

  /** Two sums with the same one's complement value. */
  predicate Alike(a: nat, b: nat) {
    a % ONES == b % ONES && (a == 0 <==> b == 0)
  }

  lemma FoldAlike(a: nat, b: nat)
    ensures Alike(a, b) ==> Fold(a) == Fold(b)
    ensures Alike(a, Fold(a))
  {
    FoldOwn(a);
  }

  lemma FoldOwn(a: nat)
    ensures Alike(a, Fold(a))
  {
    var r := a % ONES;
    assert r % ONES == r by { Small(r); }
  }

  lemma Small(r: nat)
    requires r < ONES
    ensures r % ONES == r
  {}

  lemma AddAlike(a: nat, b: nat, w: nat)
    requires Alike(a, b)
    ensures Alike(a + w, b + w)
  {}

  lemma CarryAlike(n: nat)
    ensures Alike(n % WORD + n / WORD, n)
  {
    assert n == n % WORD + n / WORD + ONES * (n / WORD);
  }

  /** A sum completed with its own complement is all ones, so it verifies. */
  lemma Verifies(s: nat)
    ensures Complement(s + Complement(s)) == 0
  {}

  // ---------- the sum of a buffer in parts ----------

  lemma {:induction false} SumConcat(s: seq<Byte>, t: seq<Byte>)
    requires |s| % 2 == 0
    ensures Sum(s + t) == Sum(s) + Sum(t)
  {
    if s == [] {
      assert s + t == t;
    } else {
      assert (s + t)[2..] == s[2..] + t;
      SumConcat(s[2..], t);
    }
  }

  lemma {:induction false} SumBound(s: seq<Byte>)
    ensures 2 * Sum(s) <= ONES * (|s| + 1)
  {
    if |s| >= 2 { SumBound(s[2..]); }
  }

  /** One more word of a buffer worked through. */
  lemma SumNext(s: seq<Byte>, i: nat)
    requires i % 2 == 0 && i + 2 <= |s|
    ensures Sum(s[..i + 2]) == Sum(s[..i]) + (s[i] as int + 256 * s[i + 1] as int)
  {
    assert s[..i + 2] == s[..i] + s[i..i + 2];
    SumConcat(s[..i], s[i..i + 2]);
    assert s[i..i + 2][2..] == [];
  }

  lemma SumLast(s: seq<Byte>, i: nat)
    requires i % 2 == 0 && (i == |s| || i + 1 == |s|)
    ensures Sum(s) == Sum(s[..i]) + if i < |s| then s[i] as int else 0
  {
    assert s == s[..i] + s[i..];
    SumConcat(s[..i], s[i..]);
  }

  /** A word replaced changes the sum by the difference. */
  lemma SumReplaced(s: seq<Byte>, i: nat, x: Byte, y: Byte)
    requires i % 2 == 0 && i + 2 <= |s|
    ensures Sum(s[i := x][i + 1 := y]) + (s[i] as int + 256 * s[i + 1] as int) == Sum(s) + (x as int + 256 * y as int)
  {
    hide Sum;
    var t := s[i := x][i + 1 := y];
    assert s == s[..i + 2] + s[i + 2..] && t == t[..i + 2] + s[i + 2..];
    SumConcat(s[..i + 2], s[i + 2..]);
    SumConcat(t[..i + 2], s[i + 2..]);
    SumNext(s, i);
    SumNext(t, i);
    assert t[..i] == s[..i];
  }

  /** The words of a buffer with the high byte first, as they stand on the wire. */
  function WireSum(s: seq<Byte>): nat {
    if s == [] then 0
    else if |s| == 1 then 256 * s[0] as int
    else 256 * s[0] as int + s[1] as int + WireSum(s[2..])
  }

  /** The order of the bytes only swaps those of the sum (section 2 of RFC 1071). */
  lemma {:induction false} ByteOrder(s: seq<Byte>)
    ensures (256 * Sum(s) - WireSum(s)) % ONES == 0
  {
    if |s| >= 2 {
      ByteOrder(s[2..]);
      Swapped(256 * Sum(s[2..]) - WireSum(s[2..]), s[1] as int);
    }
  }

  lemma Swapped(d: int, y: int)
    requires d % ONES == 0
    ensures (d + ONES * y) % ONES == 0
  {}

  /** A sum that verifies still does exactly if the difference is a multiple of all ones. */
  lemma StillVerifies(s: nat, t: nat)
    requires s > 0 && t > 0 && Complement(s) == 0
    ensures Complement(t) == 0 <==> (t - s) % ONES == 0
  {}

  // ---------- as it runs ----------

  /** ip_checksum. The register does not overflow for any buffer an IP header can be. */
  method IpChecksum(b: seq<Byte>) returns (r: nat)
    requires |b| <= 0xFFFF
    ensures r == Complement(Sum(b))
  {
    hide Sum, Fold;
    var cksum: nat, i: nat := 0, 0;
    assert Sum(b[..0]) == 0 by { SumNothing(); assert b[..0] == []; }
    while |b| - i > 1
      invariant i <= |b| && i % 2 == 0 && cksum == Sum(b[..i])
    {
      SumNext(b, i);
      SumBound(b[..i + 2]);
      cksum := (cksum + (b[i] as int + 256 * b[i + 1] as int)) % REGISTER;
      i := i + 2;
    }
    SumLast(b, i);
    SumBound(b);
    if |b| - i > 0 { cksum := (cksum + b[i] as int) % REGISTER; }
    assert cksum == Sum(b);
    FoldTwice(cksum);
    cksum := cksum / WORD + cksum % WORD;
    cksum := cksum + cksum / WORD;
    r := ONES - cksum % WORD;
  }

  lemma FoldTwice(n: nat)
    requires n < REGISTER
    ensures var m := n / WORD + n % WORD; (m + m / WORD) % WORD == Fold(n)
  {
    var m := n / WORD + n % WORD;
    CarryAlike(n);
    CarryAlike(m);
    var k := m % WORD + m / WORD;
    assert k < WORD && (m + m / WORD) % WORD == k;
    AlikeSmall(k, n);
  }

  lemma AlikeSmall(k: nat, n: nat)
    requires k < WORD && Alike(k, n)
    ensures k == Fold(n)
  {}

  /** The loop that adds the carries until none is left. */
  method AddCarries(n: nat) returns (r: nat)
    requires n < REGISTER
    ensures r == Fold(n)
  {
    hide Fold;
    r := n;
    while r / WORD != 0
      invariant Alike(r, n)
      decreases r
    {
      CarryAlike(r);
      r := r % WORD + r / WORD;
    }
    AlikeSmall(r, n);
  }

  /** The bytes that stand for the IPv4 header in the sum: addresses, protocol 17, UDP length. */
  function PseudoV4(src: seq<Byte>, dst: seq<Byte>, len: nat): seq<Byte>
    requires len < WORD
  {
    src + dst + [0, 17] + U16(len)
  }

  /** The first loop of udp_ipv4_checksum: carries are folded in whenever the top bit is set. */
  method FoldingSum(b: seq<Byte>) returns (sum: nat)
    ensures Alike(sum, Sum(b)) && sum < 0x8000_0100
  {
    hide Sum, Fold, Alike;
    var i: nat := 0;
    sum := 0;
    AlikeSelf(0);
    assert Sum(b[..0]) == 0 by { SumNothing(); assert b[..0] == []; }
    while |b| - i > 1
      invariant i <= |b| && i % 2 == 0 && sum < 0x8000_0000 && Alike(sum, Sum(b[..i]))
    {
      SumNext(b, i);
      var w := b[i] as int + 256 * b[i + 1] as int;
      AddAlike(sum, Sum(b[..i]), w);
      sum := (sum + w) % REGISTER;
      if sum / 0x8000_0000 == 1 {
        CarryAlike(sum);
        AlikeThen(sum % WORD + sum / WORD, sum, Sum(b[..i + 2]));
        sum := sum % WORD + sum / WORD;
      }
      i := i + 2;
    }
    SumLast(b, i);
    if |b| % 2 == 1 {
      AddAlike(sum, Sum(b[..i]), b[i] as int);
      sum := (sum + b[i] as int) % REGISTER;
    }
  }

  /** udp_ipv4_checksum, over a UDP header and payload */
  method UdpIpv4Checksum(b: seq<Byte>, src: seq<Byte>, dst: seq<Byte>) returns (r: nat)
    requires |b| < WORD && |src| == 4 && |dst| == 4
    ensures r == Complement(Sum(b) + Sum(PseudoV4(src, dst, |b|)))
  {
    hide Sum, Fold, Alike;
    var sum := FoldingSum(b);
    var pseudo := PseudoSum(src, dst, |b|);
    AddAlike(sum, Sum(b), pseudo);
    sum := (sum + pseudo) % REGISTER;
    FoldAlike(sum, Sum(b) + pseudo);
    sum := AddCarries(sum);
    r := ONES - sum;
  }

  lemma SumNothing()
    ensures Sum([]) == 0
  {}

  lemma AlikeSelf(n: nat)
    ensures Alike(n, n)
  {}

  lemma AlikeThen(a: nat, b: nat, c: nat)
    requires Alike(a, b) && Alike(b, c)
    ensures Alike(a, c)
  {}

  /** The words of the pseudo-header, added one by one. */
  method PseudoSum(src: seq<Byte>, dst: seq<Byte>, len: nat) returns (r: nat)
    requires len < WORD && |src| == 4 && |dst| == 4
    ensures r == Sum(PseudoV4(src, dst, len)) && r <= 6 * ONES
  {
    r := (src[0] as int + 256 * src[1] as int) + (src[2] as int + 256 * src[3] as int);
    r := r + (dst[0] as int + 256 * dst[1] as int) + (dst[2] as int + 256 * dst[3] as int);
    r := r + 17 * 256;
    r := r + (len / 256 + 256 * (len % 256));
    var p := PseudoV4(src, dst, len);
    SumNext(p, 0);
    SumNext(p, 2);
    SumNext(p, 4);
    SumNext(p, 6);
    SumNext(p, 8);
    SumNext(p, 10);
    assert p[..12] == p && p[..0] == [];
  }

  /** The same for IPv6: addresses, a 32-bit length, protocol 17. */
  function PseudoV6(src: seq<Byte>, dst: seq<Byte>, len: nat): seq<Byte>
    requires len < WORD
  {
    src + dst + [0, 0] + U16(len) + [0, 0, 0, 17]
  }

  /** Adds the words of a buffer to a register. */
  method AddWords(start: nat, b: seq<Byte>) returns (sum: nat)
    requires |b| < WORD && start <= 21 * ONES
    ensures sum == start + Sum(b) && sum < REGISTER
  {
    hide Sum;
    sum := start;
    var i: nat := 0;
    assert Sum(b[..0]) == 0 by { SumNothing(); assert b[..0] == []; }
    while i < |b| - |b| % 2
      invariant i <= |b| && i % 2 == 0 && sum == start + Sum(b[..i])
    {
      SumNext(b, i);
      SumBound(b[..i + 2]);
      sum := (sum + (b[i] as int + 256 * b[i + 1] as int)) % REGISTER;
      i := i + 2;
    }
    SumLast(b, i);
    SumBound(b);
    if |b| % 2 == 1 { sum := (sum + b[i] as int) % REGISTER; }
  }

  /** udp_ipv6_checksum */
  method UdpIpv6Checksum(b: seq<Byte>, src: seq<Byte>, dst: seq<Byte>) returns (r: nat)
    requires |b| < WORD && |src| == 16 && |dst| == 16
    ensures r == Complement(Sum(b) + Sum(PseudoV6(src, dst, |b|)))
  {
    hide Sum, Fold;
    var p := PseudoV6(src, dst, |b|);
    SumBound(p);
    var sum := AddWords(0, p);
    sum := AddWords(sum, b);
    sum := AddCarries(sum);
    r := ONES - sum;
  }
}
