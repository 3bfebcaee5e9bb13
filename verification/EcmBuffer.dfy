/** Headers pushed into and pulled out of a buffer, with the buffer growing where it must. */
module EcmBuffer {
  import opened Bytes
  import opened Checksum
  import opened EcmSpec
  import opened Lbuf

  /** Room for all headers, or few enough bytes in use that the buffer can grow without outrunning its markers. */
  predicate CanPush(data: nat, size: nat) {
    data < UNSET && (data < 52 ==> size + 64 + 52 < UNSET)
  }

  function Over(c: seq<Byte>, at: nat, s: seq<Byte>): seq<Byte>
    requires at + |s| <= |c|
  {
    c[..at] + s + c[at + |s|..]
  }

  /** A header of which two parts are written keeps what stood between them. */
  lemma Filled(c: seq<Byte>, head: seq<Byte>, gap: nat, tail: seq<Byte>)
    requires |head| + gap + |tail| <= |c|
    ensures Over(Over(c, 0, head), |head| + gap, tail) ==
            head + c[|head|..|head| + gap] + tail + c[|head| + gap + |tail|..]
  {}

  lemma Refilled(head: seq<Byte>, a: seq<Byte>, b: seq<Byte>, tail: seq<Byte>, msg: seq<Byte>)
    requires |a| == |b|
    ensures Over(head + a + tail + msg, |head|, b) == head + b + tail + msg
  {}

  /** lbuf_push_uninit and the assignments to the header's fields, all but a gap */
  method PushHeader(b: Buffer, head: seq<Byte>, gap: nat, tail: seq<Byte>) returns (ghost mem: seq<Byte>)
    requires b.Valid() && |head| + gap + |tail| <= 64
    requires |head| + gap + |tail| > b.data ==> 64 + b.size < UNSET
    modifies b, b.base
    ensures b.Valid() && (b.base == old(b.base) || fresh(b.base)) && |mem| == |head| + gap + |tail|
    ensures b.Contents() == head + mem[|head|..|head| + gap] + tail + old(b.Contents())
    ensures b.data == Room(old(b.data), |head| + gap + |tail|) && b.size == old(b.size) + |mem|
    ensures b.markers == Shifted(old(b.markers), b.data + (|head| + gap + |tail|) - old(b.data))
    ensures |mem| <= old(b.data) ==> mem == old(b.base[b.data - |mem|..b.data])
  {
    hide Shifted, Room;
    var n := |head| + gap + |tail|;
    ghost var msg := b.Contents();
    mem := PushRaw(b, n);
    Fill(b, head, gap, tail);
    Around(mem, msg, |head|, gap, n);
  }

  lemma Around(mem: seq<Byte>, msg: seq<Byte>, h: nat, gap: nat, n: nat)
    requires |mem| == n && h + gap <= n
    ensures (mem + msg)[h..h + gap] == mem[h..h + gap] && (mem + msg)[n..] == msg
  {}

  /** lbuf_push_uninit, with what the pushed bytes hold: memory as it was, if the buffer did not grow */
  method PushRaw(b: Buffer, n: nat) returns (ghost mem: seq<Byte>)
    requires b.Valid() && n <= 64 && (n > b.data ==> 64 + b.size < UNSET)
    modifies b
    ensures b.Valid() && (b.base == old(b.base) || fresh(b.base)) && |mem| == n
    ensures b.Contents() == mem + old(b.Contents())
    ensures b.data == Room(old(b.data), n)
    ensures b.markers == Shifted(old(b.markers), b.data + n - old(b.data))
    ensures n <= old(b.data) ==> mem == old(b.base[b.data - n..b.data])
  {
    hide Shifted;
    ghost var free := if n <= b.data then b.base[b.data - n..b.data] else [];
    b.PushUninit(n);
    mem := b.base[b.data..b.data + n];
    ArraySplit(b.base, b.data, b.data + n, b.data + b.size);
    assert n <= old(b.data) ==> mem == free;
  }

  lemma ArraySplit(a: array<Byte>, i: nat, k: nat, j: nat)
    requires i <= k <= j <= a.Length
    ensures a[i..j] == a[i..k] + a[i..j][k - i..]
  {}

  lemma ArraySlice(a: array<Byte>, i: nat, j: nat, k: nat, l: nat)
    requires i <= j <= a.Length && k <= l <= j - i
    ensures a[i..j][k..l] == a[i + k..i + l]
  {
    forall t | 0 <= t < l - k
      ensures a[i..j][k..l][t] == a[i + k..i + l][t]
    {}
  }

  /** The assignments to a header's fields, all but a gap */
  method Fill(b: Buffer, head: seq<Byte>, gap: nat, tail: seq<Byte>)
    requires b.Valid() && |head| + gap + |tail| <= b.size
    modifies b.base
    ensures b.Contents() == head + old(b.Contents())[|head|..|head| + gap] + tail
                            + old(b.Contents())[|head| + gap + |tail|..]
  {
    hide Over;
    ghost var c := b.Contents();
    OverLength(c, 0, head);
    Overwrite(b, 0, head);
    Overwrite(b, |head| + gap, tail);
    Filled(c, head, gap, tail);
  }

  method Overwrite(b: Buffer, at: nat, s: seq<Byte>)
    requires b.Valid() && at + |s| <= b.size
    modifies b.base
    ensures b.Contents() == Over(old(b.Contents()), at, s)
  {
    b.Write(at, s);
  }

  lemma OverLength(c: seq<Byte>, at: nat, s: seq<Byte>)
    requires at + |s| <= |c|
    ensures |Over(c, at, s)| == |c|
  {}

  /** The headroom after pushing n bytes, at most 64. */
  function Room(data: nat, n: nat): nat
    requires n <= 64
  {
    if n <= data then data - n else 64 - n
  }

  /** pkt_push_ipv4; junk is what memory held in the checksum field */
  method PushIpv4(b: Buffer, src: seq<Byte>, dst: seq<Byte>, id: nat) returns (ghost junk: seq<Byte>)
    requires b.Valid() && |src| == 4 && |dst| == 4 && id < WORD && Fits(b.size, src)
    requires 20 > b.data ==> 64 + b.size < UNSET
    modifies b, b.base
    ensures b.Valid() && (b.base == old(b.base) || fresh(b.base)) && |junk| == 2
    ensures b.Contents() == PushedIp(old(b.size), id, src, dst, junk) + old(b.Contents())
    ensures b.data == Room(old(b.data), 20) && b.size == old(b.size) + 20
    ensures b.markers == Shifted(old(b.markers), b.data + 20 - old(b.data))
    ensures 20 <= old(b.data) ==> junk == old(b.base[b.data - 10..b.data - 8])
  {
    hide Sum, Complement, Room, Ipv4Start, Shifted, Stored;
    ghost var msg := b.Contents();
    var len := b.size + 20;
    var head := Ipv4Start(len, id);
    if 20 <= b.data { ArraySlice(b.base, b.data - 20, b.data, 10, 12); }
    ghost var mem := PushHeader(b, head, 2, src + dst);
    junk := mem[10..12];
    FinishIpv4(b, head, junk, src + dst, msg);
  }

  /** The checksum over the header as it stands, put into its field */
  method FinishIpv4(b: Buffer, ghost head: seq<Byte>, ghost junk: seq<Byte>, ghost tail: seq<Byte>, ghost msg: seq<Byte>)
    requires b.Valid() && b.size >= 20 && |head| == 10 && |junk| == 2 && |tail| == 8
    requires b.Contents() == head + junk + tail + msg
    modifies b.base
    ensures var c := Complement(Sum(head + junk + tail));
            0 <= c <= ONES && b.Contents() == head + Stored(c) + tail + msg
  {
    hide Sum, Fold, Complement;
    ghost var c := b.Contents();
    var header := b.base[b.data..b.data + 20];
    Front(head, junk, tail, msg);
    assert header == c[..20];
    var sum := IpChecksum(header);
    b.Write(10, Stored(sum));
    Refilled(head, junk, Stored(sum), tail, msg);
    assert b.Contents() == Over(c, 10, Stored(sum));
  }

  lemma Front(head: seq<Byte>, junk: seq<Byte>, tail: seq<Byte>, msg: seq<Byte>)
    ensures (head + junk + tail + msg)[..|head| + |junk| + |tail|] == head + junk + tail
  {}

  /** pkt_push_ipv6; junk is what memory held after the version */
  method PushIpv6(b: Buffer, src: seq<Byte>, dst: seq<Byte>) returns (ghost junk: seq<Byte>)
    requires b.Valid() && |src| == 16 && |dst| == 16 && Fits(b.size, src)
    requires 40 > b.data ==> 64 + b.size < UNSET
    modifies b, b.base
    ensures b.Valid() && (b.base == old(b.base) || fresh(b.base)) && |junk| == 3
    ensures b.Contents() == Ipv6Header(old(b.size), src, dst, junk) + old(b.Contents())
    ensures b.data == Room(old(b.data), 40) && b.size == old(b.size) + 40
    ensures b.markers == Shifted(old(b.markers), b.data + 40 - old(b.data))
  {
    var len := b.size;
    var rest := Ipv6Rest(len, src, dst);
    ghost var mem := PushHeader(b, [0x60], 3, rest);
    junk := mem[1..4];
  }

  /** pkt_push_ip and lbuf_reset_ip; false if the families differ */
  method PushIp(b: Buffer, src: seq<Byte>, dst: seq<Byte>, id: nat) returns (ok: bool, ghost junk: seq<Byte>)
    requires b.Valid() && IsAddr(src) && IsAddr(dst) && id < WORD && Fits(b.size, src)
    requires b.data < UNSET && (44 > b.data ==> 64 + 40 + b.size < UNSET)
    modifies b, b.base
    ensures b.Valid() && (b.base == old(b.base) || fresh(b.base)) && ok == (|src| == |dst|)
    ensures ok ==>
              && IsJunk(junk, src)
              && b.Contents() == PushedIp(old(b.size), id, src, dst, junk) + old(b.Contents())
              && b.data < UNSET && (4 > b.data ==> 64 + b.size < UNSET)
              && b.markers.Keys == old(b.markers.Keys) + {OuterIp}
              && (forall m :: m in old(b.markers) && m != OuterIp ==>
                    b.markers[m] - b.data == old(b.markers[m] - b.data) + if |src| == 4 then 20 else 40)
    ensures ok && |src| == 4 && 20 <= old(b.data) ==> junk == old(b.base[b.data - 10..b.data - 8])
    ensures !ok ==> b.Contents() == old(b.Contents()) && b.data == old(b.data) && b.size == old(b.size)
  {
    hide PushedIp, Shifted, Room;
    junk := [];
    if |src| != |dst| { return false, []; }
    ghost var n := if |src| == 4 then 20 else 40;
    junk := PushFamily(b, src, dst, id);
    RoomLeft(old(b.data), old(b.size), n);
    ShiftedMeans(old(b.markers), b.data + n - old(b.data));
    b.Mark(OuterIp);
    return true, junk;
  }

  lemma RoomLeft(data: nat, size: nat, n: nat)
    requires n == 20 || n == 40
    requires data < UNSET && (44 > data ==> 64 + 40 + size < UNSET)
    ensures var d := Room(data, n); d < UNSET && (4 > d ==> 64 + n + size < UNSET) && d + n >= data
  {}

  /** The header of the family of the addresses */
  method PushFamily(b: Buffer, src: seq<Byte>, dst: seq<Byte>, id: nat) returns (ghost junk: seq<Byte>)
    requires b.Valid() && IsAddr(src) && |dst| == |src| && id < WORD && Fits(b.size, src)
    requires b.data < UNSET && (44 > b.data ==> 64 + 40 + b.size < UNSET)
    modifies b, b.base
    ensures b.Valid() && (b.base == old(b.base) || fresh(b.base)) && IsJunk(junk, src)
    ensures b.Contents() == PushedIp(old(b.size), id, src, dst, junk) + old(b.Contents())
    ensures var n := if |src| == 4 then 20 else 40;
            && b.data == Room(old(b.data), n) && b.size == old(b.size) + n
            && b.data + n >= old(b.data) && b.markers == Shifted(old(b.markers), b.data + n - old(b.data))
    ensures |src| == 4 && 20 <= old(b.data) ==> junk == old(b.base[b.data - 10..b.data - 8])
  {
    hide PushedIp, Shifted, Ipv6Header;
    if |src| == 4 {
      junk := PushIpv4(b, src, dst, id);
    } else {
      junk := PushIpv6(b, src, dst);
      PushedV6(old(b.size), id, src, dst, junk);
    }
  }

  lemma ShiftedMeans(markers: map<Marker, nat>, d: nat)
    ensures Shifted(markers, d).Keys == markers.Keys && forall m :: m in markers ==> Shifted(markers, d)[m] == markers[m] + d
  {}

  /** udp_checksum */
  method UdpChecksum(d: seq<Byte>, src: seq<Byte>, dst: seq<Byte>) returns (c: nat)
    requires |d| < WORD && IsAddr(src) && |src| == |dst|
    ensures c == Complement(Sum(d) + Sum(Pseudo(src, dst, |d|)))
  {
    hide Sum, Complement;
    if |src| == 4 { c := UdpIpv4Checksum(d, src, dst); } else { c := UdpIpv6Checksum(d, src, dst); }
  }

  /** Filling in the UDP checksum, found through the marker of the UDP header */
  method FinishUdp(b: Buffer, ghost ip: seq<Byte>, ghost start: seq<Byte>, ghost msg: seq<Byte>,
                   src: seq<Byte>, dst: seq<Byte>)
    requires b.Valid() && OuterUdp in b.markers && b.markers[OuterUdp] == b.data + |ip| && |start| == 6
    requires b.Contents() == ip + (start + [0, 0] + msg) && 8 + |msg| < WORD
    requires IsAddr(src) && |src| == |dst|
    modifies b.base
    ensures var c := Complement(Sum(start + [0, 0] + msg) + Sum(Pseudo(src, dst, 8 + |msg|)));
            b.Contents() == ip + (start + Stored(c) + msg)
  {
    hide Sum, Complement, Pseudo, Stored;
    ghost var all := b.Contents();
    var u := b.markers[OuterUdp];
    var d := b.base[u..b.data + b.size];
    ArraySlice(b.base, b.data, b.data + b.size, u - b.data, b.size);
    assert d == all[|ip|..] == start + [0, 0] + msg;
    var c := UdpChecksum(d, src, dst);
    StoredLength(c);
    b.Write(u - b.data + 6, Stored(c));
    assert b.Contents() == Over(all, |ip| + 6, Stored(c));
    Rechecked(ip, start, [0, 0], Stored(c), msg);
  }

  lemma Rechecked(ip: seq<Byte>, start: seq<Byte>, a: seq<Byte>, b: seq<Byte>, msg: seq<Byte>)
    requires |a| == |b|
    ensures |ip| + |start| + |b| <= |ip + (start + a + msg)|
    ensures Over(ip + (start + a + msg), |ip| + |start|, b) == ip + (start + b + msg)
  {}

  /** pkt_push_udp_and_ip */
  method PushUdpAndIp(b: Buffer, sp: nat, dp: nat, src: seq<Byte>, dst: seq<Byte>, id: nat)
      returns (good: bool, ghost junk: seq<Byte>)
    requires b.Valid() && CanPush(b.data, b.size) && sp < WORD && dp < WORD && id < WORD
    requires IsAddr(src) && IsAddr(dst) && Fits(8 + b.size, src)
    modifies b, b.base
    ensures b.Valid() && (b.base == old(b.base) || fresh(b.base)) && good == (|src| == |dst|)
    ensures good ==>
              && IsJunk(junk, src)
              && b.Contents() == PushedIp(8 + old(b.size), id, src, dst, junk)
                                 + Datagram(old(b.Contents()), sp, dp, src, dst)
              && b.data < UNSET
              && (4 > b.data ==> 64 + b.size < UNSET)
    ensures !good ==>
              && b.Contents() == UdpHeader(sp, dp, 8 + old(b.size), [0, 0]) + old(b.Contents())
              && b.data < UNSET && (4 > b.data ==> 64 + b.size < UNSET)
    ensures good && |src| == 4 && 28 <= old(b.data) ==> junk == old(b.base[b.data - 18..b.data - 16])
  {
    hide Sum, Complement, Pseudo, PushedIp, UdpStart, Stored;
    ghost var msg := b.Contents();
    ghost var len := 8 + b.size;
    var ok;
    ok, junk := PushBoth(b, sp, dp, src, dst, id);
    if !ok { return false, []; }
    FinishUdp(b, PushedIp(len, id, src, dst, junk), UdpStart(sp, dp, len), msg, src, dst);
    return true, junk;
  }

  /** The two headers, the UDP checksum still zero */
  method PushBoth(b: Buffer, sp: nat, dp: nat, src: seq<Byte>, dst: seq<Byte>, id: nat)
      returns (ok: bool, ghost junk: seq<Byte>)
    requires b.Valid() && CanPush(b.data, b.size) && sp < WORD && dp < WORD && id < WORD
    requires IsAddr(src) && IsAddr(dst) && Fits(8 + b.size, src)
    modifies b, b.base
    ensures b.Valid() && (b.base == old(b.base) || fresh(b.base)) && ok == (|src| == |dst|)
    ensures ok ==>
              && IsJunk(junk, src)
              && var ip := PushedIp(8 + old(b.size), id, src, dst, junk);
                 && b.Contents() == ip + (UdpHeader(sp, dp, 8 + old(b.size), [0, 0]) + old(b.Contents()))
                 && OuterUdp in b.markers && b.markers[OuterUdp] == b.data + |ip|
                 && b.data < UNSET && (4 > b.data ==> 64 + b.size < UNSET)
    ensures !ok ==>
              && b.Contents() == UdpHeader(sp, dp, 8 + old(b.size), [0, 0]) + old(b.Contents())
              && b.data < UNSET && (4 > b.data ==> 64 + b.size < UNSET)
    ensures ok && |src| == 4 && 28 <= old(b.data) ==> junk == old(b.base[b.data - 18..b.data - 16])
  {
    hide Sum, Complement, Pseudo, PushedIp, UdpStart, Stored, UdpHeader;
    var len := 8 + b.size;
    PushUdp(b, sp, dp);
    ok, junk := PushIp(b, src, dst, id);
    if !ok { return false, []; }
    PushedLength(len, id, src, dst, junk);
  }

  /** pkt_push_udp and lbuf_reset_udp */
  method PushUdp(b: Buffer, sp: nat, dp: nat)
    requires b.Valid() && CanPush(b.data, b.size) && sp < WORD && dp < WORD && 8 + b.size < WORD
    modifies b, b.base
    ensures b.Valid() && (b.base == old(b.base) || fresh(b.base))
    ensures b.Contents() == UdpHeader(sp, dp, 8 + old(b.size), [0, 0]) + old(b.Contents())
    ensures OuterUdp in b.markers && b.markers[OuterUdp] == b.data < UNSET
    ensures b.size == 8 + old(b.size) && (b.data < 44 ==> 64 + 44 + b.size < UNSET)
    ensures 8 <= old(b.data) ==> b.data == old(b.data) - 8
    ensures 28 <= old(b.data) ==> b.base[b.data - 10..b.data - 8] == old(b.base[b.data - 18..b.data - 16])
  {
    hide UdpStart, Shifted;
    b.Push(UdpHeader(sp, dp, 8 + b.size, [0, 0]));
    assert 28 <= old(b.data) ==> b.base[b.data - 10..b.data - 8] == old(b.base[b.data - 18..b.data - 16]);
    b.Mark(OuterUdp);
  }

  lemma PushedV6(len: nat, id: nat, src: seq<Byte>, dst: seq<Byte>, junk: seq<Byte>)
    requires len < WORD && id < WORD && |src| == 16 && |dst| == 16 && |junk| == 3
    ensures PushedIp(len, id, src, dst, junk) == Ipv6Header(len, src, dst, junk)
  {}

  lemma PushedLength(len: nat, id: nat, src: seq<Byte>, dst: seq<Byte>, junk: seq<Byte>)
    requires Fits(len, src) && id < WORD && IsAddr(src) && IsAddr(dst) && |src| == |dst| && IsJunk(junk, src)
    ensures |PushedIp(len, id, src, dst, junk)| == if |src| == 4 then 20 else 40
  {
    hide Sum, Complement;
  }

  /** The encapsulation header pushed and marked */
  method PushEcm(b: Buffer)
    requires b.Valid() && b.data < UNSET && (4 > b.data ==> 64 + b.size < UNSET)
    modifies b, b.base
    ensures b.Valid() && b.Contents() == ECM + old(b.Contents())
  {
    b.Push(ECM);
    b.Mark(LispHeader);
  }

  /**
    lisp_msg_encap. Where there is room, the IPv4 checksum field had been given the memory that was
    there before; see HeaderVerifiesIff for what that means. For addresses of different families the
    IP header is missing, and nobody is told.
   */
  method Encapsulate(b: Buffer, lp: nat, rp: nat, la: seq<Byte>, ra: seq<Byte>, id: nat) returns (ghost junk: seq<Byte>)
    requires b.Valid() && CanPush(b.data, b.size) && lp < WORD && rp < WORD && id < WORD
    requires IsAddr(la) && IsAddr(ra) && Fits(8 + b.size, la)
    modifies b, b.base
    ensures b.Valid() && (|la| == |ra| ==> IsJunk(junk, la))
    ensures b.Contents() == if |la| == |ra| then Encap(old(b.Contents()), lp, rp, la, ra, id, junk)
                            else ECM + (UdpHeader(lp, rp, 8 + old(b.size), [0, 0]) + old(b.Contents()))
    ensures |la| == |ra| == 4 && 28 <= old(b.data) ==> junk == old(b.base[b.data - 18..b.data - 16])
  {
    hide PushedIp, Datagram, Encap, Shifted, UdpHeader;
    ghost var msg := b.Contents();
    b.Mark(Lisp);
    var good;
    good, junk := PushUdpAndIp(b, lp, rp, la, ra, id);
    PushEcm(b);
    if |la| == |ra| { EncapIs(msg, lp, rp, la, ra, id, junk); }
  }

  lemma EncapIs(msg: seq<Byte>, sp: nat, dp: nat, src: seq<Byte>, dst: seq<Byte>, id: nat, junk: seq<Byte>)
    requires sp < WORD && dp < WORD && id < WORD && Fits(8 + |msg|, src)
    requires IsAddr(src) && IsAddr(dst) && |src| == |dst| && IsJunk(junk, src)
    ensures Encap(msg, sp, dp, src, dst, id, junk) ==
            ECM + (PushedIp(8 + |msg|, id, src, dst, junk) + Datagram(msg, sp, dp, src, dst))
  {
    hide PushedIp, Datagram;
    Regroup(ECM, PushedIp(8 + |msg|, id, src, dst, junk), Datagram(msg, sp, dp, src, dst));
  }

  /** lisp_msg_ecm_decap */
  method EcmDecap(b: Buffer) returns (good: bool, port: nat)
    requires b.Valid() && b.data + 52 < UNSET && Complete(b.Contents())
    modifies b
    ensures b.Valid()
    ensures match Decap(old(b.Contents()))
            case Bad => !good
            case Good(msg, p) => good && b.Contents() == msg && port == p
  {
    hide Sum, Complement, Pseudo, Complete;
    ghost var all := b.Contents();
    var p := b.base[b.data..b.data + b.size];
    CompleteFacts(p);
    var u := UdpAt(p);
    PullHeaders(b, u);
    port := Get16(p[u..u + 2]);
    good := CheckUdp(p, u);
    assert b.Contents() == all[u + 8..];
  }

  lemma CompleteFacts(p: seq<Byte>)
    requires Complete(p)
    ensures |p| >= 5 && p[4] / 16 in {4, 6} && UdpAt(p) + 8 <= |p| && UdpAt(p) <= 44
  {}

  /** The pulls that move the buffer to the inner message, each header marked on the way */
  method PullHeaders(b: Buffer, u: nat)
    requires b.Valid() && 4 <= u <= 44 && u + 8 <= b.size && b.data + 52 < UNSET
    modifies b
    ensures b.Valid() && b.base == old(b.base) && b.Contents() == old(b.Contents())[u + 8..]
  {
    ArraySlice(b.base, b.data, b.data + b.size, u + 8, b.size);
    MarkAndPull(b, LispHeader, 4);
    MarkAndPull(b, Layer3, u - 4);
    MarkAndPull(b, Layer4, 8);
    b.Mark(Lisp);
  }

  /** lbuf_reset_l3 and the like, then lbuf_pull */
  method MarkAndPull(b: Buffer, m: Marker, n: nat)
    requires b.Valid() && n <= b.size && b.data < UNSET
    modifies b
    ensures b.Valid() && b.base == old(b.base)
    ensures b.data == old(b.data) + n && b.size == old(b.size) - n
  {
    b.Mark(m);
    var _ := b.Pull(n);
  }

  /** The checks of the inner headers: a wrong IP checksum is only noted */
  method CheckUdp(p: seq<Byte>, u: nat) returns (good: bool)
    requires Complete(p) && u == UdpAt(p)
    ensures good <==> Decap(p).Good?
  {
    hide Sum, Complement, Pseudo;
    var len := Get16(p[u + 4..u + 6]);
    var (src, dst) := Addresses(p);
    if p[4] / 16 == 4 {
      var ipsum := IpChecksum(p[4..24]);
    }
    if p[u + 6..u + 8] != [0, 0] {
      var udpsum := UdpChecksum(p[u..u + len], src, dst);
      return udpsum == 0;
    }
    return true;
  }

  /** A message sent through one buffer and received in another comes out whole, with its source port. */
  method RoundTrip(b: Buffer, c: Buffer, lp: nat, rp: nat, la: seq<Byte>, ra: seq<Byte>, id: nat)
      returns (good: bool, port: nat)
    requires b.Valid() && CanPush(b.data, b.size) && lp < WORD && rp < WORD && id < WORD
    requires IsAddr(la) && |la| == |ra| && Fits(8 + b.size, la)
    requires c != b && c.base != b.base && c.Valid() && c.size == 0 && c.data + 52 < UNSET
    modifies b, b.base, c, c.base
    ensures good && port == lp && c.Valid() && c.Contents() == old(b.Contents())
  {
    hide Encap, Decap, Complete;
    ghost var msg := b.Contents();
    ghost var junk := Encapsulate(b, lp, rp, la, ra, id);
    DecapEncap(msg, lp, rp, la, ra, id, junk);
    var bytes := b.base[b.data..b.data + b.size];
    c.Put(bytes);
    assert c.Contents() == bytes;
    good, port := EcmDecap(c);
  }

  /** MAX_IP_PKT_LEN, and MAX_LISP_MSG_ENCAP_LEN: two IPv6 and UDP headers and an encapsulation header. */
  const MAX_PACKET := 4096
  const MAX_ENCAP := 2 * (40 + 8) + 4

  /**
    In a buffer made by lisp_msg_create_buf the headers go into zeroed room, so besides the UDP
    checksum, the sum that a receiver takes over the datagram, the IPv4 checksum verifies too.
   */
  method EncapsulateNew(msg: seq<Byte>, lp: nat, rp: nat, la: seq<Byte>, ra: seq<Byte>, id: nat) returns (b: Buffer)
    requires |msg| <= MAX_PACKET && lp < WORD && rp < WORD && id < WORD && IsAddr(la) && |la| == |ra|
    ensures b.Valid() && Complete(b.Contents()) && Decap(b.Contents()) == Good(msg, lp)
    ensures UdpVerifies(b.Contents())
    ensures |la| == 4 ==> Ipv4Fields(b.Contents(), id, la, ra) && UdpFields(b.Contents(), 24, lp, rp, msg)
    ensures |la| == 16 ==> Ipv6Fields(b.Contents(), la, ra) && UdpFields(b.Contents(), 44, lp, rp, msg)
    ensures |la| == 4 ==> |b.Contents()| >= 24 && Complement(Sum(b.Contents()[4..24])) == 0
  {
    hide Encap, Decap, Complete, Sum, Complement, UdpVerifies, Ipv4Fields, Ipv6Fields, UdpFields;
    b := NewBuffer(msg);
    ghost var junk := Encapsulate(b, lp, rp, la, ra, id);
    DecapEncap(msg, lp, rp, la, ra, id, junk);
    EncapVerifies(msg, lp, rp, la, ra, id, junk);
    PacketFields(msg, lp, rp, la, ra, id, junk);
    if |la| == 4 {
      HeaderVerifiesIff(8 + |msg|, id, la, ra, junk);
      HeaderBytes(msg, lp, rp, la, ra, id, junk);
    }
  }

  /** lisp_msg_create_buf, with a message in it */
  method NewBuffer(msg: seq<Byte>) returns (b: Buffer)
    requires |msg| <= MAX_PACKET
    ensures fresh(b) && fresh(b.base) && b.Valid() && b.Contents() == msg && b.data == MAX_ENCAP
    ensures b.base[b.data - 18..b.data - 16] == [0, 0]
  {
    b := new Buffer(MAX_PACKET, MAX_ENCAP);
    b.Put(msg);
    assert b.Contents() == msg;
  }

  lemma HeaderBytes(msg: seq<Byte>, sp: nat, dp: nat, src: seq<Byte>, dst: seq<Byte>, id: nat, junk: seq<Byte>)
    requires sp < WORD && dp < WORD && id < WORD && Fits(8 + |msg|, src) && |src| == 4 && |dst| == 4 && |junk| == 2
    ensures var p := Encap(msg, sp, dp, src, dst, id, junk);
            |p| >= 24 && p[4..24] == PushedIp(8 + |msg|, id, src, dst, junk)
  {
    hide PushedIp, Datagram;
    PushedLength(8 + |msg|, id, src, dst, junk);
  }
}
