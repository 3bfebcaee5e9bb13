/**
  IP prefixes (lispd/lib/prefixes.c). An IPv6 address is held as the four 32-bit words, in host
  order, that the source masks one by one.
 */
module Prefixes {
  import opened Bits

  const WORD := 0x1_0000_0000

  datatype Ip = V4(w: nat) | V6(w0: nat, w1: nat, w2: nat, w3: nat)

  datatype Prefix = Prefix(ip: Ip, plen: nat)

  function Width(ip: Ip): nat {
    if ip.V4? then 32 else 128
  }

  predicate ValidIp(ip: Ip) {
    match ip
    case V4(w) => w < WORD
    case V6(w0, w1, w2, w3) => w0 < WORD && w1 < WORD && w2 < WORD && w3 < WORD
  }

  predicate ValidPrefix(p: Prefix) {
    ValidIp(p.ip) && p.plen <= Width(p.ip)
  }

  function Value(ip: Ip): nat {
    match ip
    case V4(w) => w
    case V6(w0, w1, w2, w3) => ((w0 * WORD + w1) * WORD + w2) * WORD + w3
  }

  // ---------- what a prefix is: the addresses that share its leading bits ----------

  ghost predicate Matches(x: Ip, p: Prefix)
    requires ValidPrefix(p)
  {
    ValidIp(x) && x.V4? == p.ip.V4? && Agree(Width(x), Value(x), Value(p.ip), p.plen)
  }

  /** Every address of b is an address of a. */
  ghost predicate Covers(a: Prefix, b: Prefix)
    requires ValidPrefix(a) && ValidPrefix(b)
  {
    forall x: Ip :: Matches(x, b) ==> Matches(x, a)
  }

  // ---------- what the code computes ----------

  /** A word without its k lowest bits. */
  function Clear(x: nat, k: nat): (y: nat)
    ensures y <= x
  {
    ModBounds(x, Pow2(k));
    x - x % Pow2(k)
  }

  lemma ModBounds(x: nat, p: nat)
    requires p > 0
    ensures 0 <= x % p <= x
  {
    assert x == p * (x / p) + x % p;
  }

  /** How many low bits of the word with index j the mask of a prefix of this length clears. */
  function Cleared(plen: nat, j: nat): nat {
    if plen >= 32 * j + 32 then 0 else if plen <= 32 * j then 32 else 32 * j + 32 - plen
  }

  /** pref_get_network_address */
  function Network(p: Prefix): (r: Ip)
    requires ValidPrefix(p)
    ensures ValidIp(r) && r.V4? == p.ip.V4?
  {
    match p.ip
    case V4(w) => V4(Clear(w, 32 - p.plen))
    case V6(w0, w1, w2, w3) =>
      V6(Clear(w0, Cleared(p.plen, 0)), Clear(w1, Cleared(p.plen, 1)),
         Clear(w2, Cleared(p.plen, 2)), Clear(w3, Cleared(p.plen, 3)))
  }

  /** pref_get_network_prefix */
  function NetworkPrefix(p: Prefix): (r: Prefix)
    requires ValidPrefix(p)
    ensures ValidPrefix(r)
  {
    Prefix(Network(p), p.plen)
  }

  /** pref_is_prefix_b_part_of_a, for two IP prefixes */
  predicate PartOf(a: Prefix, b: Prefix)
    requires ValidPrefix(a) && ValidPrefix(b)
  {
    a.ip.V4? == b.ip.V4? && a.plen <= b.plen && Network(a) == Network(b.(plen := a.plen))
  }

  // ---------- four masked words are one masked 128-bit word ----------

  lemma WordPow()
    ensures Pow2(32) == WORD && Pow2(128) == WORD * WORD * WORD * WORD
  {
    hide Pow2;
    PowFour();
    PowAdd(4, 4);
    PowAdd(8, 8);
    PowAdd(16, 16);
    PowAdd(32, 32);
    PowAdd(64, 64);
  }

  lemma PowFour()
    ensures Pow2(4) == 16
  {}

  lemma ClearLow(h: nat, l: nat, k: nat)
    requires l < WORD && k <= 32
    ensures Clear(h * WORD + l, k) == h * WORD + Clear(l, k)
  {
    hide Pow2;
    WordPow();
    PowAdd(32 - k, k);
    ModLow(h, l, Pow2(32 - k), Pow2(k));
  }

  lemma ModLow(h: nat, l: nat, m: nat, p: nat)
    requires p > 0 && m * p == WORD
    ensures (h * WORD + l) % p == l % p
  {
    assert h * WORD + l == h * (m * p) + (p * (l / p) + l % p);
    Regroup(h, m, p, l / p, l % p);
    DivUnique(h * WORD + l, p, h * m + l / p, l % p);
  }

  lemma Regroup(h: int, m: int, p: int, q: int, r: int)
    ensures h * (m * p) + (p * q + r) == p * (h * m + q) + r
  {}

  lemma ClearHigh(h: nat, l: nat, k: nat)
    requires l < WORD && k >= 32
    ensures Clear(h * WORD + l, k) == Clear(h, k - 32) * WORD
  {
    hide Pow2;
    WordPow();
    PowAdd(32, k - 32);
    var p := Pow2(k - 32);
    var q, r := h / p, h % p;
    assert h == p * q + r;
    Scale(p, q, r);
    DivUnique(h * WORD + l, WORD * p, q, r * WORD + l);
  }

  lemma Scale(p: nat, q: nat, r: nat)
    requires r < p
    ensures (p * q + r) * WORD == WORD * p * q + r * WORD && r * WORD + WORD <= WORD * p
  {}

  lemma ClearSplit(h: nat, l: nat, k: nat)
    requires l < WORD
    ensures Clear(h * WORD + l, k) ==
            Clear(h, if k < 32 then 0 else k - 32) * WORD + Clear(l, if k < 32 then k else 32)
  {
    hide Clear;
    if k < 32 {
      ClearLow(h, l, k);
      ClearNone(h);
    } else {
      ClearHigh(h, l, k);
      ClearAll(l);
    }
  }

  lemma ClearNone(x: nat)
    ensures Clear(x, 0) == x
  {}

  lemma ClearAll(l: nat)
    requires l < WORD
    ensures Clear(l, 32) == 0
  {
    WordPow();
  }

  lemma NetworkValue(p: Prefix)
    requires ValidPrefix(p)
    ensures Value(Network(p)) == Clear(Value(p.ip), Width(p.ip) - p.plen)
  {
    hide Clear;
    if p.ip.V6? {
      var V6(w0, w1, w2, w3) := p.ip;
      var k := 128 - p.plen;
      ClearSplit((w0 * WORD + w1) * WORD + w2, w3, k);
      ClearSplit(w0 * WORD + w1, w2, if k < 32 then 0 else k - 32);
      ClearSplit(w0, w1, if k < 64 then 0 else k - 64);
    }
  }

  /** The masks of the source, word by word or all at once, keep exactly the leading bits. */
  lemma NetworkIsOneMask(p: Prefix)
    requires ValidPrefix(p)
    ensures var w := Width(p.ip);
            Value(Network(p)) == And(Value(p.ip), ShiftLeft(w, Pow2(w) - 1, w - p.plen))
  {
    hide Pow2, And, ShiftLeft, Value;
    var w := Width(p.ip);
    NetworkValue(p);
    ValueFits(p.ip);
    ShiftOnes(w, w - p.plen);
    AndMask(w, w - p.plen, Value(p.ip));
  }

  lemma ValueFits(ip: Ip)
    requires ValidIp(ip)
    ensures Value(ip) < Pow2(Width(ip))
  {
    hide Pow2;
    WordPow();
  }

  lemma ValueInjective(x: Ip, y: Ip)
    requires ValidIp(x) && ValidIp(y) && x.V4? == y.V4? && Value(x) == Value(y)
    ensures x == y
  {}

  lemma ValueOnto(v: nat, like: Ip) returns (x: Ip)
    requires v < Pow2(Width(like))
    ensures ValidIp(x) && x.V4? == like.V4? && Value(x) == v
  {
    hide Pow2;
    WordPow();
    if like.V4? {
      x := V4(v);
    } else {
      var a := v / WORD;
      var b := a / WORD;
      x := V6(b / WORD, b % WORD, a % WORD, v % WORD);
    }
  }

  // ---------- the law ----------

  /** Two addresses have the same network address exactly if they agree on the prefix bits. */
  lemma SameNetworkIff(x: Ip, y: Ip, plen: nat)
    requires ValidIp(x) && ValidIp(y) && x.V4? == y.V4? && plen <= Width(x)
    ensures Network(Prefix(x, plen)) == Network(Prefix(y, plen)) <==> Agree(Width(x), Value(x), Value(y), plen)
  {
    hide Pow2, Network, Value, Agree;
    ValueFits(x);
    ValueFits(y);
    NetworkValue(Prefix(x, plen));
    NetworkValue(Prefix(y, plen));
    AgreeIff(Width(x), Value(x), Value(y), plen);
    SameMaskedIff(Value(x), Value(y), Pow2(Width(x) - plen));
    if Value(Network(Prefix(x, plen))) == Value(Network(Prefix(y, plen))) {
      ValueInjective(Network(Prefix(x, plen)), Network(Prefix(y, plen)));
    }
  }

  /** An address of b that no prefix longer than b, and matching b's own address, can match. */
  lemma Witness(b: Prefix) returns (x: Ip)
    requires ValidPrefix(b) && b.plen < Width(b.ip)
    ensures Matches(x, b)
    ensures Bit(Width(x), Value(x), b.plen) != Bit(Width(x), Value(b.ip), b.plen)
  {
    hide Value, Bit, Flip;
    ValueFits(b.ip);
    FlipDiffers(Width(b.ip), Value(b.ip), b.plen);
    x := ValueOnto(Flip(Width(b.ip), Value(b.ip), b.plen), b.ip);
  }

  lemma LongerDoesNotCover(a: Prefix, b: Prefix)
    requires ValidPrefix(a) && ValidPrefix(b) && a.plen > b.plen && Matches(b.ip, a)
    ensures !Covers(a, b)
  {
    hide Value, Bit;
    var x := Witness(b);
    assert Matches(x, b) && !Matches(x, a);
  }

  /** The test of the source is containment of the sets of addresses. */
  lemma PartOfIff(a: Prefix, b: Prefix)
    requires ValidPrefix(a) && ValidPrefix(b)
    ensures PartOf(a, b) <==> Covers(a, b)
  {
    hide Value, Bit, Network;
    if a.ip.V4? == b.ip.V4? { SameNetworkIff(a.ip, b.ip, a.plen); }
    if PartOf(a, b) {
      forall x: Ip | Matches(x, b)
        ensures Matches(x, a)
      {}
    }
    if Covers(a, b) {
      assert Matches(b.ip, b);
      assert Matches(b.ip, a);
      if a.plen > b.plen { LongerDoesNotCover(a, b); }
    }
  }

  lemma NetworkPrefixIdempotent(p: Prefix)
    requires ValidPrefix(p)
    ensures NetworkPrefix(NetworkPrefix(p)) == NetworkPrefix(p)
    ensures Covers(p, NetworkPrefix(p)) && Covers(NetworkPrefix(p), p)
  {
    hide Pow2, Value, Network;
    var n := Width(p.ip) - p.plen;
    var y := Network(p);
    NetworkValue(p);
    NetworkValue(Prefix(y, p.plen));
    ClearTwice(Value(p.ip), n);
    ValueInjective(Network(Prefix(y, p.plen)), y);
    PartOfIff(p, NetworkPrefix(p));
    PartOfIff(NetworkPrefix(p), p);
  }

  lemma ClearTwice(x: nat, k: nat)
    ensures Clear(Clear(x, k), k) == Clear(x, k)
  {
    hide Pow2;
    DivUnique(Clear(x, k), Pow2(k), x / Pow2(k), 0);
  }

  // ---------- as it runs ----------

  lemma WordMask(w: nat, n: nat)
    requires w < WORD && n <= 32
    ensures And(w, ShiftLeft(32, WORD - 1, n)) == Clear(w, n)
    ensures n == 0 ==> And(w, WORD - 1) == Clear(w, n)
    ensures n == 32 ==> And(w, 0) == Clear(w, n)
  {
    hide ShiftLeft, Pow2, And;
    WordPow();
    ShiftOnes(32, n);
    AndMask(32, n, w);
    PowZero();
    AndZero(w);
  }

  lemma PowZero()
    ensures Pow2(0) == 1
  {}

  lemma AndZero(x: nat)
    ensures And(x, 0) == 0
  {}

  /** pref_get_network_address_v4 */
  method NetworkAddressV4(w: nat, plen: nat) returns (r: nat)
    requires w < WORD && plen <= 32
    ensures r == Clear(w, 32 - plen)
  {
    hide And, Clear, ShiftLeft;
    var mask := WORD - 1;
    WordMask(w, 32 - plen);
    if plen != 0 {
      mask := ShiftLeft(32, mask, 32 - plen);
    } else {
      mask := 0;
    }
    r := And(w, mask);
  }

  /** The word with index j of the mask for a prefix length. */
  function MaskWord(plen: nat, j: nat): nat {
    if j < plen / 32 then WORD - 1
    else if j == plen / 32 && plen % 32 != 0 then ShiftLeft(32, WORD - 1, 32 - plen % 32)
    else 0
  }

  /** pref_get_network_address_v6: the mask is filled word by word, then applied word by word */
  method NetworkAddressV6(addr: array<nat>, plen: nat) returns (r: array<nat>)
    requires addr.Length == 4 && plen <= 128 && forall j :: 0 <= j < 4 ==> addr[j] < WORD
    ensures fresh(r) && r.Length == 4
    ensures forall j :: 0 <= j < 4 ==> r[j] == Clear(addr[j], Cleared(plen, j))
  {
    hide And, Clear, ShiftLeft;
    var mask := new nat[4](_ => 0);
    var a, b := plen / 32, plen % 32;
    for ctr := 0 to a
      invariant forall j :: 0 <= j < 4 ==> mask[j] == if j < ctr then WORD - 1 else 0
    {
      mask[ctr] := WORD - 1;
    }
    if b != 0 {
      mask[a] := ShiftLeft(32, WORD - 1, 32 - b);
    }
    r := new nat[4];
    for ctr := 0 to 4
      invariant forall j :: 0 <= j < 4 ==> mask[j] == MaskWord(plen, j)
      invariant forall j :: 0 <= j < ctr ==> r[j] == Clear(addr[j], Cleared(plen, j))
    {
      WordMask(addr[ctr], Cleared(plen, ctr));
      r[ctr] := And(addr[ctr], mask[ctr]);
    }
  }

  /** A lisp_addr_t: an address, a prefix or neither */
  class Address {
    var ip: Ip
    var plen: nat
    var isPrefix: bool

    constructor (ip: Ip, plen: nat, isPrefix: bool)
      ensures this.ip == ip && this.plen == plen && this.isPrefix == isPrefix
    {
      this.ip, this.plen, this.isPrefix := ip, plen, isPrefix;
    }

    ghost predicate Valid()
      reads this
    {
      isPrefix ==> ValidPrefix(Prefix(ip, plen))
    }

    /** pref_get_network_address */
    method NetworkAddress() returns (r: Ip)
      requires isPrefix && Valid()
      ensures r == Network(Prefix(ip, plen))
    {
      match ip {
        case V4(w) =>
          var v := NetworkAddressV4(w, plen);
          r := V4(v);
        case V6(w0, w1, w2, w3) =>
          var words := new nat[4];
          words[0], words[1], words[2], words[3] := w0, w1, w2, w3;
          var m := NetworkAddressV6(words, plen);
          r := V6(m[0], m[1], m[2], m[3]);
      }
    }
  }

  /**
    pref_is_prefix_b_part_of_a: b is cut to a's length for the comparison and restored. The two may
    be one object.
   */
  method IsPrefixPartOf(a: Address, b: Address) returns (res: bool)
    requires a.Valid() && b.Valid()
    modifies b`plen
    ensures unchanged(b)
    ensures res <==> a.isPrefix && b.isPrefix && Covers(Prefix(a.ip, a.plen), Prefix(b.ip, b.plen))
  {
    hide Network, Covers;
    if !a.isPrefix || !b.isPrefix { return false; }
    PartOfIff(Prefix(a.ip, a.plen), Prefix(b.ip, b.plen));
    if a.ip.V4? != b.ip.V4? { return false; }
    var aLen, bLen := a.plen, b.plen;
    if aLen > bLen { return false; }
    var aNetwork := a.NetworkAddress();
    b.plen := aLen;
    var bNetwork := b.NetworkAddress();
    b.plen := bLen;
    res := aNetwork == bNetwork;
  }
}
