/**
  Encapsulated control messages (section 6.1.8 of RFC 6830; lispd/liblisp/liblisp.c, lib/packets.c):
  the bytes that encapsulation puts in front of a message, and what decapsulation makes of them.
 */
module EcmSpec {
  import opened Bytes
  import opened Checksum

  const ECM: seq<Byte> := [0x80, 0, 0, 0]

  /** A checksum as it is stored: the register's bytes in host order, low byte first. */
  function Stored(c: nat): seq<Byte>
    requires c <= ONES
  {
    [c % 256, c / 256]
  }

  function UdpHeader(sp: nat, dp: nat, len: nat, check: seq<Byte>): seq<Byte>
    requires sp < WORD && dp < WORD && len < WORD
  {
    UdpStart(sp, dp, len) + check
  }

  function UdpStart(sp: nat, dp: nat, len: nat): (s: seq<Byte>)
    requires sp < WORD && dp < WORD && len < WORD
    ensures |s| == 6
  {
    U16(sp) + U16(dp) + U16(len)
  }

  /** The header pkt_push_ipv4 writes, around whatever stands in the checksum field. */
  function Ipv4Header(len: nat, id: nat, src: seq<Byte>, dst: seq<Byte>, sum: seq<Byte>): seq<Byte>
    requires len < WORD && id < WORD
  {
    Ipv4Start(len, id) + sum + (src + dst)
  }

  /** Version and header length, service, length, identification, do-not-fragment, hops, protocol. */
  function Ipv4Start(len: nat, id: nat): (s: seq<Byte>)
    requires len < WORD && id < WORD
    ensures |s| == 10
  {
    [0x45, 0] + U16(len) + U16(id) + [0x40, 0, 255, 17]
  }

  /** The header pkt_push_ipv6 writes; it leaves the three bytes after the version as they were. */
  function Ipv6Header(len: nat, src: seq<Byte>, dst: seq<Byte>, flow: seq<Byte>): seq<Byte>
    requires len < WORD
  {
    [0x60] + flow + Ipv6Rest(len, src, dst)
  }

  /** Length, protocol, hops, addresses. */
  function Ipv6Rest(len: nat, src: seq<Byte>, dst: seq<Byte>): seq<Byte>
    requires len < WORD
  {
    U16(len) + [17, 255] + src + dst
  }

  predicate IsAddr(a: seq<Byte>) {
    |a| == 4 || |a| == 16
  }

  /** The length fields can hold a UDP datagram of this length and the IPv4 header before it. */
  predicate Fits(len: nat, src: seq<Byte>) {
    (if |src| == 4 then 20 else 0) + len < WORD
  }

  function Pseudo(src: seq<Byte>, dst: seq<Byte>, len: nat): seq<Byte>
    requires len < WORD
  {
    if |src| == 4 then PseudoV4(src, dst, len) else PseudoV6(src, dst, len)
  }

  /** The UDP datagram as pkt_push_udp_and_ip leaves it. */
  function Datagram(msg: seq<Byte>, sp: nat, dp: nat, src: seq<Byte>, dst: seq<Byte>): seq<Byte>
    requires sp < WORD && dp < WORD && 8 + |msg| < WORD
  {
    var len := 8 + |msg|;
    var bare := UdpHeader(sp, dp, len, [0, 0]) + msg;
    UdpHeader(sp, dp, len, Stored(Complement(Sum(bare) + Sum(Pseudo(src, dst, len))))) + msg
  }

  /** What memory held where a pushed header has a field that is not set first: two bytes or three. */
  predicate IsJunk(junk: seq<Byte>, src: seq<Byte>) {
    |junk| == if |src| == 4 then 2 else 3
  }

  /** The IP header pushed over some memory; in IPv4 the sum covers what was in the checksum field. */
  function PushedIp(len: nat, id: nat, src: seq<Byte>, dst: seq<Byte>, junk: seq<Byte>): seq<Byte>
    requires Fits(len, src) && id < WORD && IsAddr(src) && IsAddr(dst) && |src| == |dst| && IsJunk(junk, src)
  {
    if |src| == 4 then
      Ipv4Header(len + 20, id, src, dst, Stored(Complement(Sum(Ipv4Header(len + 20, id, src, dst, junk)))))
    else Ipv6Header(len, src, dst, junk)
  }

  /** lisp_msg_encap */
  function Encap(msg: seq<Byte>, sp: nat, dp: nat, src: seq<Byte>, dst: seq<Byte>, id: nat, junk: seq<Byte>): seq<Byte>
    requires sp < WORD && dp < WORD && id < WORD && Fits(8 + |msg|, src)
    requires IsAddr(src) && IsAddr(dst) && |src| == |dst| && IsJunk(junk, src)
  {
    ECM + PushedIp(8 + |msg|, id, src, dst, junk) + Datagram(msg, sp, dp, src, dst)
  }

  datatype Decapped = Bad | Good(msg: seq<Byte>, port: nat)

  /** A packet long enough for the headers its version and UDP length announce. */
  predicate Complete(p: seq<Byte>) {
    && |p| >= 5 && p[4] / 16 in {4, 6}
    && |p| >= UdpAt(p) + 8
    && UdpAt(p) + Get16(p[UdpAt(p) + 4..UdpAt(p) + 6]) <= |p|
  }

  function UdpAt(p: seq<Byte>): nat
    requires |p| >= 5
  {
    4 + if p[4] / 16 == 4 then 20 else 40
  }

  function Addresses(p: seq<Byte>): (seq<Byte>, seq<Byte>)
    requires |p| >= 5 && |p| >= UdpAt(p)
  {
    if p[4] / 16 == 4 then (p[16..20], p[20..24]) else (p[12..28], p[28..44])
  }

  /** lisp_msg_ecm_decap: only the UDP checksum can refuse a packet, and zero stands for none. */
  function Decap(p: seq<Byte>): Decapped
    requires Complete(p)
  {
    var u := UdpAt(p);
    var len := Get16(p[u + 4..u + 6]);
    var (src, dst) := Addresses(p);
    if p[u + 6..u + 8] != [0, 0] && Complement(Sum(p[u..u + len]) + Sum(Pseudo(src, dst, len))) != 0 then Bad
    else Good(p[u + 8..], Get16(p[u..u + 2]))
  }

  // ---------- the checksums verify ----------

  lemma StoredSum(c: nat)
    requires c <= ONES
    ensures Sum(Stored(c)) == c
  {}

  /** A stored checksum adds its value to the sum of what is around it. */
  lemma StoredInPlace(before: seq<Byte>, c: nat, after: seq<Byte>)
    requires |before| % 2 == 0 && c <= ONES
    ensures Sum(before + Stored(c) + after) == Sum(before) + c + Sum(after)
    ensures Sum(before + [0, 0] + after) == Sum(before) + Sum(after)
  {
    SumConcat(before + Stored(c), after);
    SumConcat(before, Stored(c));
    StoredSum(c);
    SumConcat(before + [0, 0], after);
    SumConcat(before, [0, 0]);
    StoredSum(0);
  }

  lemma DatagramVerifies(msg: seq<Byte>, sp: nat, dp: nat, src: seq<Byte>, dst: seq<Byte>)
    requires sp < WORD && dp < WORD && 8 + |msg| < WORD
    ensures Complement(Sum(Datagram(msg, sp, dp, src, dst)) + Sum(Pseudo(src, dst, 8 + |msg|))) == 0
  {
    hide Sum, Fold, Complement, Pseudo;
    var len := 8 + |msg|;
    var head := UdpStart(sp, dp, len);
    var s := Sum(UdpHeader(sp, dp, len, [0, 0]) + msg) + Sum(Pseudo(src, dst, len));
    StoredInPlace(head, Complement(s), msg);
    Verifies(s);
  }

  /**
    The IPv4 header checksum is computed over the memory found in its own field. The header
    verifies exactly if that memory held a zero of one's complement: two bytes 0 or two bytes 255.
   */
  lemma HeaderVerifiesIff(len: nat, id: nat, src: seq<Byte>, dst: seq<Byte>, junk: seq<Byte>)
    requires len + 20 < WORD && id < WORD && |src| == 4 && |dst| == 4 && |junk| == 2
    ensures Complement(Sum(PushedIp(len, id, src, dst, junk))) == 0 <==> junk == [0, 0] || junk == [255, 255]
  {
    hide Fold, Complement;
    var head := Ipv4Start(len + 20, id);
    var tail := src + dst;
    var g := junk[0] as int + 256 * junk[1] as int;
    assert junk == Stored(g);
    StoredInPlace(head, g, tail);
    assert Ipv4Header(len + 20, id, src, dst, junk) == head + Stored(g) + tail;
    var s := Sum(head) + Sum(tail);
    assert Sum(head) > 0;
    var c := Complement(s + g);
    StoredInPlace(head, c, tail);
    assert PushedIp(len, id, src, dst, junk) == head + Stored(c) + tail;
    JunkIff(s, g);
  }

  lemma JunkIff(s: nat, g: nat)
    requires s > 0 && g <= ONES
    ensures Complement(s + Complement(s + g)) == 0 <==> g == 0 || g == ONES
  {}

  // ---------- the round trip ----------

  /** Decapsulation gives back the message and the inner source port, whatever memory the headers were pushed over. */
  lemma DecapEncap(msg: seq<Byte>, sp: nat, dp: nat, src: seq<Byte>, dst: seq<Byte>, id: nat, junk: seq<Byte>)
    requires sp < WORD && dp < WORD && id < WORD && Fits(8 + |msg|, src)
    requires IsAddr(src) && IsAddr(dst) && |src| == |dst| && IsJunk(junk, src)
    ensures var p := Encap(msg, sp, dp, src, dst, id, junk);
            Complete(p) && Decap(p) == Good(msg, sp)
  {
    hide Sum, Complement, Pseudo, PushedIp, Datagram, UdpAt, Addresses;
    var p, d := Encap(msg, sp, dp, src, dst, id, junk), Datagram(msg, sp, dp, src, dst);
    HeaderParts(8 + |msg|, id, src, dst, junk, d);
    DatagramParts(msg, sp, dp, src, dst);
    DatagramVerifies(msg, sp, dp, src, dst);
    var u := UdpAt(p);
    assert p[u..u + 2] == d[..2] && p[u + 4..u + 6] == d[4..6] && p[u + 8..] == d[8..];
    assert p[u..u + (8 + |msg|)] == d;
    U16RoundTrip(sp);
    U16RoundTrip(8 + |msg|);
  }

  lemma DatagramParts(msg: seq<Byte>, sp: nat, dp: nat, src: seq<Byte>, dst: seq<Byte>)
    requires sp < WORD && dp < WORD && 8 + |msg| < WORD
    ensures var d := Datagram(msg, sp, dp, src, dst);
            |d| == 8 + |msg| && d[..2] == U16(sp) && d[4..6] == U16(8 + |msg|) && d[8..] == msg
  {
    hide Sum, Complement, Pseudo;
  }

  /** Where the parts of an encapsulated message are found. */
  lemma HeaderParts(len: nat, id: nat, src: seq<Byte>, dst: seq<Byte>, junk: seq<Byte>, d: seq<Byte>)
    requires Fits(len, src) && id < WORD && IsAddr(src) && IsAddr(dst) && |src| == |dst| && IsJunk(junk, src)
    ensures var h := ECM + PushedIp(len, id, src, dst, junk);
            var p := h + d;
            && |p| >= 5 && p[4] / 16 in {4, 6} && UdpAt(p) == |h| && p[|h|..] == d
            && Addresses(p) == (src, dst)
  {
    hide Sum, Complement, Ipv4Start, Ipv6Rest, Stored;
    if |src| == 4 {
      var sum := Stored(Complement(Sum(Ipv4Header(len + 20, id, src, dst, junk))));
      StoredLength(Complement(Sum(Ipv4Header(len + 20, id, src, dst, junk))));
      V4Parts(len + 20, id, sum, src, dst, d);
    } else {
      V6Parts(len, junk, src, dst, d);
    }
  }

  lemma StoredLength(c: nat)
    requires c <= ONES
    ensures |Stored(c)| == 2
  {}

  lemma V4Parts(len: nat, id: nat, sum: seq<Byte>, src: seq<Byte>, dst: seq<Byte>, d: seq<Byte>)
    requires len < WORD && id < WORD && |sum| == 2 && |src| == 4 && |dst| == 4
    ensures var p := ECM + Ipv4Header(len, id, src, dst, sum) + d;
            && |p| == 24 + |d| && p[4] == 0x45 && p[24..] == d && p[16..20] == src && p[20..24] == dst
  {
    var h := Ipv4Header(len, id, src, dst, sum);
    assert h[12..16] == src && h[16..20] == dst && h[0] == 0x45;
    var p := ECM + h + d;
    assert p[4..24] == h;
    assert p[16..20] == h[12..16] && p[20..24] == h[16..20];
  }

  lemma V6Parts(len: nat, flow: seq<Byte>, src: seq<Byte>, dst: seq<Byte>, d: seq<Byte>)
    requires len < WORD && |flow| == 3 && |src| == 16 && |dst| == 16
    ensures var p := ECM + Ipv6Header(len, src, dst, flow) + d;
            && |p| == 44 + |d| && p[4] == 0x60 && p[44..] == d && p[12..28] == src && p[28..44] == dst
  {
    var h := Ipv6Header(len, src, dst, flow);
    assert h[8..24] == src && h[24..40] == dst && h[0] == 0x60;
    var p := ECM + h + d;
    assert p[4..44] == h;
    assert p[12..28] == h[8..24] && p[28..44] == h[24..40];
  }

  // ---------- the packet byte by byte ----------

  /** A 16-bit number at a place in a packet, high byte first. */
  function At16(p: seq<Byte>, k: nat): int
    requires k + 1 < |p|
  {
    256 * p[k] as int + p[k + 1] as int
  }

  /** An IPv4 header from byte 4 on, as RFC 791 lays it out, for a whole packet of control message type 8. */
  ghost predicate Ipv4Fields(p: seq<Byte>, id: nat, src: seq<Byte>, dst: seq<Byte>) {
    && |p| >= 24 && p[0] / 16 == 8
    && p[4] == 0x45 && p[5] == 0 && At16(p, 6) == |p| - 4 && At16(p, 8) == id
    && At16(p, 10) == 0x4000 && p[12] == 255 && p[13] == 17
    && p[16..20] == src && p[20..24] == dst
  }

  /** An IPv6 header from byte 4 on, as section 3 of RFC 8200 lays it out. */
  ghost predicate Ipv6Fields(p: seq<Byte>, src: seq<Byte>, dst: seq<Byte>) {
    && |p| >= 44 && p[0] / 16 == 8
    && p[4] == 0x60 && At16(p, 8) == |p| - 44 && p[10] == 17 && p[11] == 255
    && p[12..28] == src && p[28..44] == dst
  }

  /** A UDP header at byte u and the message to the end of the packet. */
  ghost predicate UdpFields(p: seq<Byte>, u: nat, sp: nat, dp: nat, msg: seq<Byte>) {
    && |p| == u + 8 + |msg| && At16(p, u) == sp && At16(p, u + 2) == dp && At16(p, u + 4) == |p| - u
    && p[u + 8..] == msg
  }

  /** Every field of an encapsulated message but the checksums stands where the formats have it. */
  lemma PacketFields(msg: seq<Byte>, sp: nat, dp: nat, src: seq<Byte>, dst: seq<Byte>, id: nat, junk: seq<Byte>)
    requires sp < WORD && dp < WORD && id < WORD && Fits(8 + |msg|, src)
    requires IsAddr(src) && IsAddr(dst) && |src| == |dst| && IsJunk(junk, src)
    ensures var p := Encap(msg, sp, dp, src, dst, id, junk);
            && (|src| == 4 ==> Ipv4Fields(p, id, src, dst) && UdpFields(p, 24, sp, dp, msg))
            && (|src| == 16 ==> Ipv6Fields(p, src, dst) && UdpFields(p, 44, sp, dp, msg))
  {
    hide Sum, Complement, Pseudo, Stored;
    var d := Datagram(msg, sp, dp, src, dst);
    DatagramFields(msg, sp, dp, src, dst);
    if |src| == 4 {
      var sum := Stored(Complement(Sum(Ipv4Header(28 + |msg|, id, src, dst, junk))));
      StoredLength(Complement(Sum(Ipv4Header(28 + |msg|, id, src, dst, junk))));
      V4Fields(28 + |msg|, id, sum, src, dst, d);
      Behind(ECM + Ipv4Header(28 + |msg|, id, src, dst, sum), d, sp, dp, msg);
    } else {
      V6Fields(8 + |msg|, junk, src, dst, d);
      Behind(ECM + Ipv6Header(8 + |msg|, src, dst, junk), d, sp, dp, msg);
    }
  }

  lemma DatagramFields(msg: seq<Byte>, sp: nat, dp: nat, src: seq<Byte>, dst: seq<Byte>)
    requires sp < WORD && dp < WORD && 8 + |msg| < WORD
    ensures UdpFields(Datagram(msg, sp, dp, src, dst), 0, sp, dp, msg)
  {
    hide Sum, Complement, Pseudo;
  }

  lemma Behind(h: seq<Byte>, d: seq<Byte>, sp: nat, dp: nat, msg: seq<Byte>)
    requires UdpFields(d, 0, sp, dp, msg)
    ensures UdpFields(h + d, |h|, sp, dp, msg)
  {
    assert (h + d)[|h| + 8..] == d[8..];
  }

  lemma V4Fields(len: nat, id: nat, sum: seq<Byte>, src: seq<Byte>, dst: seq<Byte>, d: seq<Byte>)
    requires len < WORD && id < WORD && |sum| == 2 && |src| == 4 && |dst| == 4 && len == 20 + |d|
    ensures |ECM + Ipv4Header(len, id, src, dst, sum)| == 24
    ensures Ipv4Fields(ECM + Ipv4Header(len, id, src, dst, sum) + d, id, src, dst)
  {
    V4Parts(len, id, sum, src, dst, d);
    var h := Ipv4Header(len, id, src, dst, sum);
    assert forall i :: 0 <= i < 10 ==> h[i] == Ipv4Start(len, id)[i];
  }

  lemma V6Fields(len: nat, flow: seq<Byte>, src: seq<Byte>, dst: seq<Byte>, d: seq<Byte>)
    requires len < WORD && |flow| == 3 && |src| == 16 && |dst| == 16 && len == |d|
    ensures |ECM + Ipv6Header(len, src, dst, flow)| == 44
    ensures Ipv6Fields(ECM + Ipv6Header(len, src, dst, flow) + d, src, dst)
  {
    V6Parts(len, flow, src, dst, d);
  }

  // ---------- the sum a receiver takes ----------

  /**
    The words of a datagram of some length after the IP header, of the two addresses before it, the
    protocol number and the length field: what the UDP checksum covers, by position.
   */
  ghost function UdpTotal(p: seq<Byte>, len: nat): nat
    requires |p| >= 5 && |p| >= (if p[4] / 16 == 4 then 32 else 52)
    requires (if p[4] / 16 == 4 then 24 else 44) + len <= |p|
  {
    if p[4] / 16 == 4 then Sum(p[24..24 + len]) + Sum(p[16..24]) + 256 * 17 + Sum(p[28..30])
    else Sum(p[44..44 + len]) + Sum(p[12..44]) + 256 * 17 + Sum(p[48..50])
  }

  lemma PseudoParts(src: seq<Byte>, dst: seq<Byte>, len: nat)
    requires IsAddr(src) && |src| == |dst| && len < WORD
    ensures Sum(Pseudo(src, dst, len)) == Sum(src + dst) + 256 * 17 + Sum(U16(len))
  {
    hide Sum;
    var a := src + dst;
    var tail := if |src| == 4 then [0, 17] + U16(len) else [0, 0] + U16(len) + [0, 0, 0, 17];
    assert Pseudo(src, dst, len) == a + tail;
    SumConcat(a, tail);
    TailSum(len);
  }

  lemma TailSum(len: nat)
    requires len < WORD
    ensures Sum([0, 17] + U16(len)) == 256 * 17 + Sum(U16(len))
    ensures Sum([0, 0] + U16(len) + [0, 0, 0, 17]) == 256 * 17 + Sum(U16(len))
  {
    SumConcat([0, 17], U16(len));
    SumConcat([0, 0] + U16(len), [0, 0, 0, 17]);
    SumConcat([0, 0], U16(len));
    assert [0, 0, 0, 17][2..] == [0, 17] && [0, 17][2..] == [] && [0, 0][2..] == [];
  }

  lemma TotalIs(p: seq<Byte>)
    requires Complete(p)
    ensures var u := UdpAt(p);
            var len := Get16(p[u + 4..u + 6]);
            var (src, dst) := Addresses(p);
            Sum(p[u..u + len]) + Sum(Pseudo(src, dst, len)) == UdpTotal(p, len)
  {
    hide Sum, Pseudo;
    var u := UdpAt(p);
    var len := Get16(p[u + 4..u + 6]);
    var (src, dst) := Addresses(p);
    PseudoParts(src, dst, len);
    assert src + dst == if p[4] / 16 == 4 then p[16..24] else p[12..44];
    assert U16(len) == p[u + 4..u + 6];
  }

  /** Decapsulation refuses a packet exactly if it has a checksum and the sum over what that covers is not zero. */
  lemma RefusedIff(p: seq<Byte>)
    requires Complete(p)
    ensures var u := if p[4] / 16 == 4 then 24 else 44;
            && u + 8 <= |p| && u + At16(p, u + 4) <= |p|
            && (Decap(p).Bad? <==> (p[u + 6] != 0 || p[u + 7] != 0) && Complement(UdpTotal(p, At16(p, u + 4))) != 0)
            && (Decap(p).Good? ==> Decap(p).msg == p[u + 8..] && Decap(p).port == At16(p, u))
  {
    hide Sum, Complement, Pseudo, UdpTotal;
    TotalIs(p);
    var u := UdpAt(p);
    assert p[u + 6..u + 8] == [p[u + 6], p[u + 7]];
  }

  /** The sum over the whole rest of the packet is zero. */
  ghost predicate UdpVerifies(p: seq<Byte>) {
    && |p| >= 5 && |p| >= (if p[4] / 16 == 4 then 32 else 52)
    && Complement(UdpTotal(p, |p| - if p[4] / 16 == 4 then 24 else 44)) == 0
  }

  lemma EncapVerifies(msg: seq<Byte>, sp: nat, dp: nat, src: seq<Byte>, dst: seq<Byte>, id: nat, junk: seq<Byte>)
    requires sp < WORD && dp < WORD && id < WORD && Fits(8 + |msg|, src)
    requires IsAddr(src) && IsAddr(dst) && |src| == |dst| && IsJunk(junk, src)
    ensures UdpVerifies(Encap(msg, sp, dp, src, dst, id, junk))
  {
    hide Sum, Complement, Pseudo, PushedIp, Datagram, UdpAt, Addresses, UdpTotal, Decap, Complete;
    var p, d := Encap(msg, sp, dp, src, dst, id, junk), Datagram(msg, sp, dp, src, dst);
    DecapEncap(msg, sp, dp, src, dst, id, junk);
    HeaderParts(8 + |msg|, id, src, dst, junk, d);
    DatagramParts(msg, sp, dp, src, dst);
    DatagramVerifies(msg, sp, dp, src, dst);
    TotalIs(p);
    PacketFields(msg, sp, dp, src, dst, id, junk);
    WholeLength(p, d);
  }

  lemma WholeLength(p: seq<Byte>, d: seq<Byte>)
    requires Complete(p) && p[UdpAt(p)..] == d && At16(p, UdpAt(p) + 4) == |p| - UdpAt(p)
    ensures var u := UdpAt(p); Get16(p[u + 4..u + 6]) == |p| - u == |d| && p[u..u + |d|] == d
    ensures UdpAt(p) == if p[4] / 16 == 4 then 24 else 44
  {}

  /**
    A message altered on its way, in one word, is accepted exactly if it was sent without a checksum
    or the two words are the same number in one's complement.
   */
  lemma AlteredIff(msg: seq<Byte>, sp: nat, dp: nat, src: seq<Byte>, dst: seq<Byte>, id: nat, junk: seq<Byte>,
                   k: nat, x: Byte, y: Byte)
    requires sp < WORD && dp < WORD && id < WORD && Fits(8 + |msg|, src) && k % 2 == 0 && k + 2 <= |msg|
    requires IsAddr(src) && IsAddr(dst) && |src| == |dst| && IsJunk(junk, src)
    ensures var p, u := Encap(msg, sp, dp, src, dst, id, junk), if |src| == 4 then 24 else 44;
            && |p| == u + 8 + |msg|
            && var q := p[u + 8 + k := x][u + 9 + k := y];
               && Complete(q)
               && (Decap(q).Good? <==>
                     || (p[u + 6] == 0 && p[u + 7] == 0)
                     || ((x as int + 256 * y as int) - (msg[k] as int + 256 * msg[k + 1] as int)) % ONES == 0)
  {
    hide Sum, Complement, Encap, Decap, UdpTotal;
    var p, u := Encap(msg, sp, dp, src, dst, id, junk), if |src| == 4 then 24 else 44;
    PacketFields(msg, sp, dp, src, dst, id, junk);
    EncapVerifies(msg, sp, dp, src, dst, id, junk);
    assert p[u + 8 + k] == msg[k] && p[u + 9 + k] == msg[k + 1] by { assert p[u + 8..][k] == msg[k] && p[u + 8..][k + 1] == msg[k + 1]; }
    var q := p[u + 8 + k := x][u + 9 + k := y];
    AlteredComplete(p, q, u, sp, dp, msg);
    RefusedIff(q);
    AlteredTotal(p, q, u, k, x, y);
    StillVerifies(UdpTotal(p, |p| - u), UdpTotal(q, |p| - u));
  }

  lemma AlteredComplete(p: seq<Byte>, q: seq<Byte>, u: nat, sp: nat, dp: nat, msg: seq<Byte>)
    requires UdpFields(p, u, sp, dp, msg) && |q| == |p| && q[..u + 8] == p[..u + 8]
    requires (u == 24 && p[4] / 16 == 4) || (u == 44 && p[4] / 16 == 6)
    ensures Complete(q) && At16(q, u + 4) == |q| - u && q[4] == p[4] && q[u + 6] == p[u + 6] && q[u + 7] == p[u + 7]
  {
    assert forall i :: 0 <= i < u + 8 ==> q[i] == q[..u + 8][i] && p[i] == p[..u + 8][i];
  }

  lemma AlteredTotal(p: seq<Byte>, q: seq<Byte>, u: nat, k: nat, x: Byte, y: Byte)
    requires |p| >= u + 8 && k % 2 == 0 && u + 10 + k <= |p| && q == p[u + 8 + k := x][u + 9 + k := y]
    requires (u == 24 && p[4] / 16 == 4) || (u == 44 && p[4] / 16 == 6)
    ensures q[4] == p[4]
    ensures UdpTotal(q, |q| - u) + (p[u + 8 + k] as int + 256 * p[u + 9 + k] as int)
         == UdpTotal(p, |p| - u) + (x as int + 256 * y as int)
    ensures UdpTotal(p, |p| - u) > 0 && UdpTotal(q, |q| - u) > 0
  {
    hide Sum;
    SumReplaced(p[u..], 8 + k, x, y);
    assert q[u..|q|] == p[u..][8 + k := x][9 + k := y] && p[u..|p|] == p[u..];
    assert q[16..24] == p[16..24] && q[12..u] == p[12..u] && q[u + 4..u + 6] == p[u + 4..u + 6];
  }
}
