/**
  Mapping records (section 6.1.4 of RFC 6830; lispd/liblisp/liblisp.c): the bytes a mapping is written
  as, and what parsing makes of bytes.
 */
module RecordSpec {
  import opened Options
  import opened Bytes
  import opened Mappings

  // ---------- numbers and addresses ----------

  function Power(n: nat): nat {
    if n == 0 then 1 else 256 * Power(n - 1)
  }

  /** A number as n bytes in network order. */
  function ToBytes(n: nat, v: nat): (s: seq<Byte>)
    requires v < Power(n)
    ensures |s| == n
    decreases n
  {
    if n == 0 then [] else ToBytes(n - 1, v / 256) + [v % 256]
  }

  function FromBytes(s: seq<Byte>): nat {
    if s == [] then 0 else 256 * FromBytes(s[..|s| - 1]) + s[|s| - 1] as int
  }

  lemma {:induction false} BytesRoundTrip(n: nat, v: nat)
    requires v < Power(n)
    ensures FromBytes(ToBytes(n, v)) == v
    decreases n
  {
    if n > 0 {
      BytesRoundTrip(n - 1, v / 256);
      var s := ToBytes(n, v);
      assert s[..n - 1] == ToBytes(n - 1, v / 256);
    }
  }

  function Size(v6: bool): nat {
    if v6 then 16 else 4
  }

  predicate AddrOk(a: Addr) {
    a.Ip? ==> a.value < Power(Size(a.v6))
  }

  /** lisp_addr_write: the address family number, then the address */
  function WriteAddr(a: Addr): seq<Byte>
    requires AddrOk(a)
  {
    match a
    case NoAddr => [0, 0]
    case Ip(v6, value) => [0, if v6 then 2 else 1] + ToBytes(Size(v6), value)
  }

  /** lisp_addr_parse; None for a family that is not handled or bytes that end too soon */
  function ParseAddr(b: seq<Byte>): (r: Option<(Addr, seq<Byte>)>)
    ensures r.Some? ==> |r.value.1| < |b|
  {
    if |b| < 2 || b[0] != 0 || b[1] > 2 then None
    else if b[1] == 0 then Some((NoAddr, b[2..]))
    else
      var n := Size(b[1] == 2);
      if |b| < 2 + n then None else Some((Ip(b[1] == 2, FromBytes(b[2..2 + n])), b[2 + n..]))
  }

  lemma AddrRoundTrip(a: Addr, rest: seq<Byte>)
    requires AddrOk(a)
    ensures ParseAddr(WriteAddr(a) + rest) == Some((a, rest))
  {
    var b := WriteAddr(a) + rest;
    if a.Ip? {
      var n := Size(a.v6);
      BytesRoundTrip(n, a.value);
      assert b[2..2 + n] == ToBytes(n, a.value);
    }
    assert b[|WriteAddr(a)|..] == rest;
  }

  // ---------- locators ----------

  predicate LocOk(l: Loc) {
    && AddrOk(l.addr) && l.priority < 256 && l.weight < 256 && l.mpriority < 256 && l.mweight < 256
  }

  /** What memory held in the byte and the bits of a locator header that are not set. */
  type Junk = (Byte, Byte)

  /** The flags byte: reachable from the state, local set, the rest as it was. */
  function Flags(was: Byte, up: bool): Byte {
    was - was % 8 + 4 + (if was % 4 >= 2 then 2 else 0) + if up then 1 else 0
  }

  /** The bit of the flags that says a locator is the one probed. */
  predicate Marked(flags: Byte) {
    flags % 4 >= 2
  }

  function WithMark(flags: Byte): Byte {
    if Marked(flags) then flags else flags + 2
  }

  lemma MarkInFlags(was: Byte, up: bool)
    ensures Marked(Flags(was, up)) <==> Marked(was)
    ensures Flags(WithMark(was), up) == WithMark(Flags(was, up))
  {
    FlagsKeepMark(was, up);
    if !Marked(was) { MarkOnly(was); }
    hide Marked;
  }

  lemma FlagsKeepMark(was: Byte, up: bool)
    ensures Marked(Flags(was, up)) <==> Marked(was)
  {
    Low(Flags(was, up), was / 8, 4 + (if was % 4 >= 2 then 2 else 0) + if up then 1 else 0);
  }

  /** Setting the mark changes no bit above it. */
  lemma MarkOnly(was: Byte)
    requires !Marked(was)
    ensures (was + 2) % 4 == was % 4 + 2 && was + 2 - (was + 2) % 8 == was - was % 8
  {
    Low(was, was / 8, was % 8);
    Low(was + 2, was / 8, was % 8 + 2);
  }

  /** The low bits of a number with given low three bits. */
  lemma Low(n: nat, h: nat, l: nat)
    requires n == 8 * h + l
    ensures l < 8 ==> n % 8 == l && n % 4 == l % 4
  {
    if l < 8 { Rest4(n, 2 * h + l / 4, l % 4); }
  }

  lemma Rest4(n: nat, q: nat, r: nat)
    requires n == 4 * q + r && r < 4
    ensures n % 4 == r
  {}

  /** lisp_msg_put_locator */
  function WriteLoc(l: Loc, junk: Junk): seq<Byte>
    requires LocOk(l)
  {
    LocHeader(l, junk) + WriteAddr(l.addr)
  }

  function LocHeader(l: Loc, junk: Junk): (s: seq<Byte>)
    requires LocOk(l)
    ensures |s| == 6
  {
    [l.priority, l.weight, l.mpriority, l.mweight, junk.0, Flags(junk.1, l.up)]
  }

  /** lisp_msg_parse_loc: a locator is down only if it is local and not reachable */
  function ParseLoc(b: seq<Byte>, id: int): (r: Option<(Loc, seq<Byte>)>)
    ensures r.Some? ==> |r.value.1| < |b|
  {
    if |b| < 6 then None
    else
      match ParseAddr(b[6..])
      case None => None
      case Some((a, rest)) => Some((Loc(id, a, b[5] % 2 == 1 || b[5] % 8 < 4, b[0], b[1], b[2], b[3]), rest))
  }

  lemma LocRoundTrip(l: Loc, junk: Junk, id: int, rest: seq<Byte>)
    requires LocOk(l)
    ensures ParseLoc(WriteLoc(l, junk) + rest, id) == Some((l.(id := id), rest))
  {
    var b := WriteLoc(l, junk) + rest;
    assert b[6..] == WriteAddr(l.addr) + rest;
    AddrRoundTrip(l.addr, rest);
  }

  lemma LocMark(l: Loc, junk: Junk, rest: seq<Byte>)
    requires LocOk(l)
    ensures var b := WriteLoc(l, junk) + rest; |b| > 5 && (Marked(b[5]) <==> Marked(junk.1))
  {
    hide WriteAddr, Flags, Marked;
    MarkInFlags(junk.1, l.up);
    var b := WriteLoc(l, junk) + rest;
    assert b[5] == LocHeader(l, junk)[5];
  }

  /** The locators written, one after the other. */
  function WriteLocs(ls: seq<Loc>, junk: seq<Junk>): seq<Byte>
    requires |junk| == |ls| && forall i :: 0 <= i < |ls| ==> LocOk(ls[i])
  {
    if ls == [] then [] else WriteLoc(ls[0], junk[0]) + WriteLocs(ls[1..], junk[1..])
  }

  /** Locators in the order of the bytes, the first one marked as probed, and the bytes that follow. */
  datatype Locs = Locs(locs: seq<Loc>, probed: Option<int>, rest: seq<Byte>)

  /** The loop of lisp_msg_parse_mapping_record_split over n locators. */
  function ParseLocs(b: seq<Byte>, n: nat, id: int): Option<Locs>
    decreases n
  {
    if n == 0 then Some(Locs([], None, b))
    else
      match ParseLoc(b, id)
      case None => None
      case Some((l, rest)) =>
        match ParseLocs(rest, n - 1, id + 1)
        case None => None
        case Some(ls) => Some(ls.(locs := [l] + ls.locs, probed := if Marked(b[5]) then Some(id) else ls.probed))
  }

  /** The first locator whose mark is set, by the memory it was written to or on purpose. */
  function FirstMark(junk: seq<Junk>, id: int): Option<int>
    decreases |junk|
  {
    if junk == [] then None else if Marked(junk[0].1) then Some(id) else FirstMark(junk[1..], id + 1)
  }

  /** The same locators in other memory. */
  function Renamed(ls: seq<Loc>, id: int): (r: seq<Loc>)
    ensures |r| == |ls| && forall i :: 0 <= i < |ls| ==> r[i] == ls[i].(id := id + i)
  {
    seq(|ls|, i requires 0 <= i < |ls| => ls[i].(id := id + i))
  }

  lemma {:induction false} LocsRoundTrip(ls: seq<Loc>, junk: seq<Junk>, id: int, rest: seq<Byte>)
    requires |junk| == |ls| && forall i :: 0 <= i < |ls| ==> LocOk(ls[i])
    ensures ParseLocs(WriteLocs(ls, junk) + rest, |ls|, id) == Some(Locs(Renamed(ls, id), FirstMark(junk, id), rest))
    decreases |ls|
  {
    hide WriteLoc, ParseLoc, LocOk, Marked;
    if ls == [] {
      assert WriteLocs(ls, junk) + rest == rest;
    } else {
      var tail := WriteLocs(ls[1..], junk[1..]) + rest;
      Regroup(WriteLoc(ls[0], junk[0]), WriteLocs(ls[1..], junk[1..]), rest);
      LocRoundTrip(ls[0], junk[0], id, tail);
      LocMark(ls[0], junk[0], tail);
      LocsRoundTrip(ls[1..], junk[1..], id + 1, rest);
      assert Renamed(ls, id) == [ls[0].(id := id)] + Renamed(ls[1..], id + 1);
    }
  }

  // ---------- records ----------

  datatype Mapping = Mapping(eid: Addr, plen: nat, ttl: nat, auth: bool, groups: seq<Group>)

  /** The locators of a group that are up. */
  function UpOf(g: Group): seq<Loc> {
    if g == [] then [] else (if g[0].up then [g[0]] else []) + UpOf(g[1..])
  }

  /** The locators that are written: all groups but the one without addresses, and what is up in them. */
  function Written(gs: seq<Group>): seq<Loc> {
    if gs == [] then []
    else (if gs[0] == [] || gs[0][0].addr.NoAddr? then [] else UpOf(gs[0])) + Written(gs[1..])
  }

  predicate MappingOk(m: Mapping) {
    && m.eid.Ip? && AddrOk(m.eid) && m.plen < 256 && m.ttl < Power(4)
    && (forall i, j :: 0 <= i < |m.groups| && 0 <= j < |m.groups[i]| ==> LocOk(m.groups[i][j]))
    && |Written(m.groups)| < 256
  }

  lemma {:induction false} UpOfOk(g: Group, l: Loc)
    ensures l in UpOf(g) <==> l in g && l.up
  {
    if g != [] { UpOfOk(g[1..], l); }
  }

  lemma {:induction false} WrittenHas(gs: seq<Group>, i: nat, l: Loc)
    requires i < |gs| && l in gs[i] && l.up && gs[i][0].addr.Ip?
    ensures l in Written(gs)
  {
    if i == 0 {
      UpOfOk(gs[0], l);
    } else {
      WrittenHas(gs[1..], i - 1, l);
    }
  }

  lemma {:induction false} WrittenOk(gs: seq<Group>, l: Loc)
    ensures l in Written(gs) ==>
              exists i, j :: 0 <= i < |gs| && 0 <= j < |gs[i]| && gs[i][j] == l && l.up && gs[i][0].addr.Ip?
  {
    if gs != [] && l in Written(gs) {
      if l in Written(gs[1..]) {
        WrittenOk(gs[1..], l);
        var i, j :| 0 <= i < |gs[1..]| && 0 <= j < |gs[1..][i]| && gs[1..][i][j] == l && l.up
                    && gs[1..][i][0].addr.Ip?;
        assert gs[i + 1][j] == l;
      } else {
        UpOfOk(gs[0], l);
        var j :| 0 <= j < |gs[0]| && gs[0][j] == l;
        assert gs[0][j] == l;
      }
    }
  }

  /** What lisp_msg_put_mapping makes of the memory: the mark is set wherever the address is the one probed. */
  function Marks(ls: seq<Loc>, junk: seq<Junk>, probed: Option<Addr>): (r: seq<Junk>)
    requires |junk| == |ls|
    ensures |r| == |junk|
    ensures forall i :: 0 <= i < |r| ==>
              r[i] == if probed == Some(ls[i].addr) then (junk[i].0, WithMark(junk[i].1)) else junk[i]
  {
    seq(|junk|, i requires 0 <= i < |junk| =>
      if probed == Some(ls[i].addr) then (junk[i].0, WithMark(junk[i].1)) else junk[i])
  }

  /** A record put into a message: the 10 byte header, the EID, the locators */
  function WriteRecord(m: Mapping, junk: seq<Junk>): seq<Byte>
    requires MappingOk(m) && |junk| == |Written(m.groups)|
  {
    WrittenAllOk(m.groups);
    RecordHeader(m) + WriteAddr(m.eid) + WriteLocs(Written(m.groups), junk)
  }

  function RecordHeader(m: Mapping): (s: seq<Byte>)
    requires MappingOk(m)
    ensures |s| == 10
  {
    ToBytes(4, m.ttl) + [|Written(m.groups)|, m.plen, if m.auth then 0x10 else 0, 0, 0, 0]
  }

  lemma WrittenAllOk(gs: seq<Group>)
    requires forall i, j :: 0 <= i < |gs| && 0 <= j < |gs[i]| ==> LocOk(gs[i][j])
    ensures forall k :: 0 <= k < |Written(gs)| ==> LocOk(Written(gs)[k])
  {
    hide Written, LocOk;
    forall k | 0 <= k < |Written(gs)|
      ensures LocOk(Written(gs)[k])
    {
      WrittenOk(gs, Written(gs)[k]);
    }
  }

  /** A parsed record, its locators in the order of the bytes, and which of them is marked as probed. */
  datatype Parsed = Parsed(eid: Addr, plen: nat, ttl: nat, action: nat, auth: bool, locs: seq<Loc>, probed: Option<int>)

  /** lisp_msg_parse_mapping_record_split and the header fields */
  function ParseRecord(b: seq<Byte>, id: int): Option<(Parsed, seq<Byte>)> {
    if |b| < 10 then None
    else
      match ParseAddr(b[10..])
      case None => None
      case Some((eid, rest)) =>
        match ParseLocs(rest, b[4], id)
        case None => None
        case Some(ls) =>
          Some((Parsed(eid, b[5], FromBytes(b[..4]), b[6] / 32, b[6] / 16 % 2 == 1, ls.locs, ls.probed), ls.rest))
  }

  /** What is parsed of a written record: the mapping without action, and exactly its locators that are up. */
  function ParsedOf(m: Mapping, junk: seq<Junk>, id: int): Parsed {
    Parsed(m.eid, m.plen, m.ttl, 0, m.auth, Renamed(Written(m.groups), id), FirstMark(junk, id))
  }

  lemma RecordRoundTrip(m: Mapping, junk: seq<Junk>, id: int, rest: seq<Byte>)
    requires MappingOk(m) && |junk| == |Written(m.groups)|
    ensures ParseRecord(WriteRecord(m, junk) + rest, id) == Some((ParsedOf(m, junk, id), rest))
  {
    hide Written, WriteAddr, ParseAddr, WriteLocs, ParseLocs, FirstMark;
    WrittenAllOk(m.groups);
    var ls := Written(m.groups);
    var h, a, w := RecordHeader(m), WriteAddr(m.eid), WriteLocs(ls, junk);
    var b := WriteRecord(m, junk) + rest;
    Regroup3(h, a, w, rest);
    assert b[..10] == h && b[10..] == a + (w + rest);
    HeaderFields(m, b);
    AddrRoundTrip(m.eid, w + rest);
    LocsRoundTrip(ls, junk, id, rest);
  }

  lemma Regroup3(a: seq<Byte>, b: seq<Byte>, c: seq<Byte>, d: seq<Byte>)
    ensures a + b + c + d == a + (b + (c + d))
  {}

  lemma HeaderFields(m: Mapping, b: seq<Byte>)
    requires MappingOk(m) && |b| >= 10 && b[..10] == RecordHeader(m)
    ensures FromBytes(b[..4]) == m.ttl && b[4] == |Written(m.groups)| && b[5] == m.plen
    ensures b[6] / 32 == 0 && (b[6] / 16 % 2 == 1 <==> m.auth)
  {
    hide Written;
    BytesRoundTrip(4, m.ttl);
    var h := RecordHeader(m);
    assert b[..4] == h[..4] == ToBytes(4, m.ttl);
    assert b[4] == h[4] && b[5] == h[5] && b[6] == h[6];
  }

  // ---------- any sequence of records ----------

  ghost predicate AllOk(ms: seq<Mapping>, junk: seq<seq<Junk>>) {
    |junk| == |ms| && forall i :: 0 <= i < |ms| ==> MappingOk(ms[i]) && |junk[i]| == |Written(ms[i].groups)|
  }

  ghost function WriteAll(ms: seq<Mapping>, junk: seq<seq<Junk>>): seq<Byte>
    requires AllOk(ms, junk)
    decreases |ms|
  {
    if ms == [] then [] else WriteRecord(ms[0], junk[0]) + WriteAll(ms[1..], junk[1..])
  }

  function ParseAll(b: seq<Byte>, n: nat, id: int): Option<(seq<Parsed>, seq<Byte>)>
    decreases n
  {
    if n == 0 then Some(([], b))
    else
      match ParseRecord(b, id)
      case None => None
      case Some((p, rest)) =>
        match ParseAll(rest, n - 1, id + |p.locs|)
        case None => None
        case Some((ps, end)) => Some(([p] + ps, end))
  }

  /** What the records of a message are parsed to. */
  function Expected(ms: seq<Mapping>, junk: seq<seq<Junk>>, id: int): (r: seq<Parsed>)
    requires |junk| == |ms|
    ensures |r| == |ms|
    decreases |ms|
  {
    if ms == [] then []
    else [ParsedOf(ms[0], junk[0], id)] + Expected(ms[1..], junk[1..], id + |Written(ms[0].groups)|)
  }

  lemma {:induction false} AllRoundTrip(ms: seq<Mapping>, junk: seq<seq<Junk>>, id: int, rest: seq<Byte>)
    requires AllOk(ms, junk)
    ensures ParseAll(WriteAll(ms, junk) + rest, |ms|, id) == Some((Expected(ms, junk, id), rest))
    decreases |ms|
  {
    hide WriteRecord, ParseRecord, MappingOk, Written, FirstMark;
    if ms == [] {
      assert WriteAll(ms, junk) + rest == rest;
    } else {
      var tail := WriteAll(ms[1..], junk[1..]) + rest;
      Regroup(WriteRecord(ms[0], junk[0]), WriteAll(ms[1..], junk[1..]), rest);
      RecordRoundTrip(ms[0], junk[0], id, tail);
      AllRoundTrip(ms[1..], junk[1..], id + |Written(ms[0].groups)|, rest);
    }
  }

  // ---------- the mark of the probed locator ----------

  lemma {:induction false} FirstMarkIs(junk: seq<Junk>, id: int)
    ensures match FirstMark(junk, id)
            case None => forall i :: 0 <= i < |junk| ==> !Marked(junk[i].1)
            case Some(k) => && id <= k < id + |junk| && Marked(junk[k - id].1)
                            && forall i :: 0 <= i < k - id ==> !Marked(junk[i].1)
    decreases |junk|
  {
    hide Marked;
    if junk != [] && !Marked(junk[0].1) {
      FirstMarkIs(junk[1..], id + 1);
      assert forall i :: 0 < i < |junk| ==> junk[i] == junk[1..][i - 1];
    }
  }

  /**
    Written for a probed address and parsed again, a record names the locator of that address as
    the one probed if and only if memory held no mark in a locator before it; where the address is
    not written, it names one if and only if memory held a mark.
   */
  lemma ProbedRoundTripIff(ls: seq<Loc>, junk: seq<Junk>, probed: Addr, k: nat, id: int)
    requires |junk| == |ls| && k <= |ls| && (forall i :: 0 <= i < k ==> ls[i].addr != probed)
    requires k < |ls| ==> ls[k].addr == probed
    ensures FirstMark(Marks(ls, junk, Some(probed)), id) == (if k < |ls| then Some(id + k) else None) <==>
            forall i :: 0 <= i < k ==> !Marked(junk[i].1)
  {
    var r := Marks(ls, junk, Some(probed));
    FirstMarkIs(r, id);
    assert forall i :: 0 <= i < k ==> r[i] == junk[i];
    assert k < |ls| ==> Marked(r[k].1);
    hide Marked, Marks;
  }

  // ---------- the count of records ----------

  const HEADER_LENGTH := 12

  /** A count one higher, in 8 bits. */
  function OneMore(count: Byte): Byte {
    (count as int + 1) % 256
  }

  /** increment_record_count on the bytes from the LISP header on: the types that have a count, in 8 bits */
  function Counted(c: seq<Byte>): (r: seq<Byte>)
    ensures |r| == |c|
  {
    if |c| >= 4 && 1 <= c[0] / 16 <= 4 then c[3 := OneMore(c[3])] else c
  }

  /** A message of some header to which records are put one after the other. */
  ghost function Built(h: seq<Byte>, ms: seq<Mapping>, junk: seq<seq<Junk>>): seq<Byte>
    requires AllOk(ms, junk)
    decreases |ms|
  {
    if ms == [] then h
    else
      var n := |ms| - 1;
      Counted(Built(h, ms[..n], junk[..n])) + WriteRecord(ms[n], junk[n])
  }

  lemma {:induction false} WriteAllSnoc(ms: seq<Mapping>, junk: seq<seq<Junk>>)
    requires AllOk(ms, junk) && ms != []
    ensures var n := |ms| - 1;
            WriteAll(ms, junk) == WriteAll(ms[..n], junk[..n]) + WriteRecord(ms[n], junk[n])
    decreases |ms|
  {
    hide WriteRecord, MappingOk, Written;
    var n := |ms| - 1;
    if n == 0 {
      assert WriteAll(ms[1..], junk[1..]) == [];
    } else {
      WriteAllSnoc(ms[1..], junk[1..]);
      assert ms[1..][..n - 1] == ms[..n][1..] && junk[1..][..n - 1] == junk[..n][1..];
      Regroup(WriteRecord(ms[0], junk[0]), WriteAll(ms[..n][1..], junk[..n][1..]), WriteRecord(ms[n], junk[n]));
    }
  }

  /** The header's count is the number of records put, in 8 bits; the rest is the records in order. */
  lemma {:induction false} BuiltIs(h: seq<Byte>, ms: seq<Mapping>, junk: seq<seq<Junk>>)
    requires AllOk(ms, junk) && |h| == HEADER_LENGTH && 1 <= h[0] / 16 <= 4 && h[3] == 0
    ensures Built(h, ms, junk) == h[3 := |ms| % 256] + WriteAll(ms, junk)
    decreases |ms|
  {
    hide WriteRecord, MappingOk, Written, WriteAll, Counted, OneMore;
    if ms == [] {
      assert WriteAll(ms, junk) == [] by { NothingWritten(junk); }
      assert h[3 := 0] + [] == h;
    } else {
      var n := |ms| - 1;
      BuiltIs(h, ms[..n], junk[..n]);
      WriteAllSnoc(ms, junk);
      CountedFront(h[3 := n % 256], WriteAll(ms[..n], junk[..n]));
      NextCount(n);
      assert h[3 := n % 256][3 := |ms| % 256] == h[3 := |ms| % 256];
      Regroup(h[3 := |ms| % 256], WriteAll(ms[..n], junk[..n]), WriteRecord(ms[n], junk[n]));
    }
  }

  lemma NextCount(n: nat)
    ensures OneMore(n % 256) == (n + 1) % 256
  {}

  lemma NothingWritten(junk: seq<seq<Junk>>)
    requires AllOk([], junk)
    ensures WriteAll([], junk) == []
  {}

  lemma CountedFront(h: seq<Byte>, rest: seq<Byte>)
    requires |h| == HEADER_LENGTH && 1 <= h[0] / 16 <= 4
    ensures Counted(h + rest) == h[3 := OneMore(h[3])] + rest
  {
    assert (h + rest)[0] == h[0];
  }

  /** A message whose records follow its header: as many are parsed as the header counts. */
  function ParseMessage(c: seq<Byte>, id: int): Option<seq<Parsed>> {
    if |c| < HEADER_LENGTH then None
    else
      match ParseAll(c[HEADER_LENGTH..], c[3], id)
      case None => None
      case Some((ps, _)) => Some(ps)
  }

  /**
    Parsing a message built of some records gives exactly these records if and only if there are
    fewer than 256 of them; beyond that the count has gone round and the last ones are dropped.
   */
  lemma MessageRoundTripIff(h: seq<Byte>, ms: seq<Mapping>, junk: seq<seq<Junk>>, id: int)
    requires AllOk(ms, junk) && |h| == HEADER_LENGTH && 1 <= h[0] / 16 <= 4 && h[3] == 0
    ensures ParseMessage(Built(h, ms, junk), id) == Some(Expected(ms, junk, id)) <==> |ms| < 256
  {
    hide Built, WriteAll, ParseAll, Expected, MappingOk, Written;
    BuiltIs(h, ms, junk);
    var c, n := Built(h, ms, junk), |ms| % 256;
    var all := WriteAll(ms, junk);
    assert c[3] == n && c[HEADER_LENGTH..] == all;
    WriteAllSplit(ms, junk, n);
    AllRoundTrip(ms[..n], junk[..n], id, WriteAll(ms[n..], junk[n..]));
    assert n == |ms| ==> ms[..n] == ms && junk[..n] == junk;
  }

  lemma {:induction false} WriteAllSplit(ms: seq<Mapping>, junk: seq<seq<Junk>>, n: nat)
    requires AllOk(ms, junk) && n <= |ms|
    ensures WriteAll(ms, junk) == WriteAll(ms[..n], junk[..n]) + WriteAll(ms[n..], junk[n..])
    decreases |ms|
  {
    hide WriteRecord, MappingOk, Written;
    if n == 0 {
      assert ms[0..] == ms && junk[0..] == junk;
      assert [] + WriteAll(ms, junk) == WriteAll(ms, junk);
    } else {
      WriteAllSplit(ms[1..], junk[1..], n - 1);
      assert ms[1..][..n - 1] == ms[..n][1..] && junk[1..][..n - 1] == junk[..n][1..];
      assert ms[1..][n - 1..] == ms[n..] && junk[1..][n - 1..] == junk[n..];
      Regroup(WriteRecord(ms[0], junk[0]), WriteAll(ms[..n][1..], junk[..n][1..]), WriteAll(ms[n..], junk[n..]));
    }
  }

  // ---------- the mapping that comes out ----------

  function Reversed(ls: seq<Loc>): (r: seq<Loc>)
    ensures |r| == |ls| && forall i :: 0 <= i < |ls| ==> r[i] == ls[|ls| - 1 - i]
  {
    seq(|ls|, i requires 0 <= i < |ls| => ls[|ls| - 1 - i])
  }

  /** A locator found, but for its place in memory. */
  ghost predicate SameBut(found: Option<Loc>, l: Option<Loc>) {
    match l
    case None => found.None?
    case Some(x) => found.Some? && found.value == x.(id := found.value.id)
  }

  /** The locator of an address, if it is up. */
  function UpAt(gs: seq<Group>, a: Addr): Option<Loc> {
    if Lookup(gs, a).Some? && Lookup(gs, a).value.up then Lookup(gs, a) else None
  }

  /**
    lisp_msg_parse_mapping_record adds the parsed locators, last first, to an empty mapping. For a
    mapping in order this restores every address whose locator is up, with all its fields, and
    nothing else.
   */
  lemma MappingRestored(gs: seq<Group>, id: int, a: Addr)
    requires GroupsOk(gs) && a.Ip?
    ensures var gs' := AddAll(Reversed(Renamed(Written(gs), id)));
            && GroupsOk(gs') && SameBut(Lookup(gs', a), UpAt(gs, a)) && Inactive(gs') == []
  {
    hide GroupsOk, Lookup, AddAll, Inactive, Written;
    var ws := Written(gs);
    var ls := Reversed(Renamed(ws, id));
    AddAllKeepsBest(ls, a);
    forall i | 0 <= i < |ls|
      ensures ls[i].addr.Ip? && UpAt(gs, ls[i].addr) == Some(ws[|ws| - 1 - i])
    {
      WrittenFound(gs, ws[|ws| - 1 - i]);
    }
    NoneInactive(ls);
    if UpAt(gs, a).Some? {
      var l := UpAt(gs, a).value;
      FoundWritten(gs, a);
      var k :| 0 <= k < |ws| && ws[k] == l;
      assert ls[|ls| - 1 - k].addr == a;
    }
  }

  lemma {:induction false} NoneInactive(ls: seq<Loc>)
    requires forall i :: 0 <= i < |ls| ==> ls[i].addr.Ip?
    ensures InactiveOf(ls) == []
  {
    if ls != [] { NoneInactive(ls[..|ls| - 1]); }
  }

  lemma WrittenFound(gs: seq<Group>, l: Loc)
    requires GroupsOk(gs) && l in Written(gs)
    ensures l.addr.Ip? && l.up && Lookup(gs, l.addr) == Some(l)
  {
    hide Lookup, Written;
    WrittenOk(gs, l);
    var i, j :| 0 <= i < |gs| && 0 <= j < |gs[i]| && gs[i][j] == l && l.up && gs[i][0].addr.Ip?;
    assert GroupOk(gs[i]);
    assert Rank(gs[i][j].addr) == Rank(gs[i][0].addr);
    EverythingFound(gs, i, j);
  }

  lemma FoundWritten(gs: seq<Group>, a: Addr)
    requires GroupsOk(gs) && UpAt(gs, a).Some? && a.Ip?
    ensures UpAt(gs, a).value.addr == a && UpAt(gs, a).value in Written(gs)
  {
    var p := GroupPlace(gs, Rank(a));
    var l := UpAt(gs, a).value;
    assert l in gs[p] && gs[p][0].addr.Ip?;
    WrittenHas(gs, p, l);
  }

  // ---------- what is read, byte by byte ----------

  lemma {:induction false} FirstHighest(x: Byte, s: seq<Byte>)
    ensures FromBytes([x] + s) == x as int * Power(|s|) + FromBytes(s)
    decreases |s|
  {
    var b := [x] + s;
    if s == [] {
      assert b[..0] == [];
    } else {
      assert b[..|b| - 1] == [x] + s[..|s| - 1];
      FirstHighest(x, s[..|s| - 1]);
    }
  }

  lemma FourBytes(s: seq<Byte>)
    requires |s| == 4
    ensures FromBytes(s) == 0x100_0000 * s[0] as int + 0x1_0000 * s[1] as int + 0x100 * s[2] as int + s[3] as int
  {
    var a, b, c := s[..3], s[..2], s[..1];
    assert a[..2] == b && b[..1] == c && c[..0] == [];
    assert FromBytes(c) == s[0] as int;
    assert FromBytes(b) == 256 * FromBytes(c) + s[1] as int;
    assert FromBytes(a) == 256 * FromBytes(b) + s[2] as int;
  }

  /**
    Whatever bytes a locator is read from: priorities and weights are the first four, and of the
    flags byte the lowest bit is reachable and the third local; a locator is down exactly if it is
    local and not reachable. The address follows by its family number, high byte first.
   */
  lemma LocFields(b: seq<Byte>, id: int, high: nat, isLocal: bool, probed: bool, reachable: bool)
    requires ParseLoc(b, id).Some?
    requires b[5] as int == 8 * high + (if isLocal then 4 else 0) + (if probed then 2 else 0) + if reachable then 1 else 0
    ensures var (l, rest) := ParseLoc(b, id).value;
            && l.id == id && l.priority == b[0] && l.weight == b[1] && l.mpriority == b[2] && l.mweight == b[3]
            && (l.up <==> !isLocal || reachable) && (Marked(b[5]) <==> probed)
            && AddressAt(b, 6, l.addr, rest)
  {
    var low := (if isLocal then 4 else 0) + (if probed then 2 else 0) + if reachable then 1 else 0;
    Low(b[5], high, low);
    Rest2(b[5], 4 * high + low / 2, low % 2);
    var (l, rest) := ParseLoc(b, id).value;
    AddressFields(b[6..]);
    AddressLater(b, 6, l.addr, rest);
  }

  lemma Rest2(n: nat, q: nat, r: nat)
    requires n == 2 * q + r && r < 2
    ensures n % 2 == r
  {}

  /** From byte k on: family 0 and no address, 1 and four bytes, or 2 and sixteen; then the rest. */
  ghost predicate AddressAt(b: seq<Byte>, k: nat, a: Addr, rest: seq<Byte>) {
    && |b| >= k + 2 && b[k] == 0
    && match a
       case NoAddr => b[k + 1] == 0 && rest == b[k + 2..]
       case Ip(v6, value) =>
         && b[k + 1] == (if v6 then 2 else 1) && |b| >= k + 2 + (if v6 then 16 else 4)
         && value == FromBytes(b[k + 2..k + 2 + if v6 then 16 else 4])
         && rest == b[k + 2 + (if v6 then 16 else 4)..]
  }

  lemma AddressFields(b: seq<Byte>)
    requires ParseAddr(b).Some?
    ensures AddressAt(b, 0, ParseAddr(b).value.0, ParseAddr(b).value.1)
  {}

  /**
    Whatever bytes a record is read from: four bytes of time to live, high byte first, the number of
    locators, the prefix length; of the next byte the three highest bits are the action and the
    fourth says authoritative; three bytes on, the EID.
   */
  lemma RecordFields(b: seq<Byte>, id: int, action: nat, auth: bool, low: nat)
    requires ParseRecord(b, id).Some? && action < 8 && low < 16
    requires b[6] as int == 32 * action + (if auth then 16 else 0) + low
    ensures var (p, _) := ParseRecord(b, id).value;
            && p.ttl == 0x100_0000 * b[0] as int + 0x1_0000 * b[1] as int + 0x100 * b[2] as int + b[3] as int
            && |p.locs| == b[4] && p.plen == b[5] && p.action == action && p.auth == auth
            && exists rest :: AddressAt(b, 10, p.eid, rest)
  {
    hide ParseAddr, ParseLocs, AddressAt;
    FourBytes(b[..4]);
    HighBits(b[6], action, auth, low);
    var (eid, rest) := ParseAddr(b[10..]).value;
    AddressFields(b[10..]);
    LocsCount(rest, b[4], id);
    assert AddressAt(b, 10, eid, rest) by { AddressLater(b, 10, eid, rest); }
  }

  lemma AddressLater(b: seq<Byte>, k: nat, a: Addr, rest: seq<Byte>)
    requires k <= |b| && AddressAt(b[k..], 0, a, rest)
    ensures AddressAt(b, k, a, rest)
  {
    if a.Ip? {
      var n := if a.v6 then 16 else 4;
      assert b[k..][2..2 + n] == b[k + 2..k + 2 + n] && b[k..][2 + n..] == b[k + 2 + n..];
    } else {
      assert b[k..][2..] == b[k + 2..];
    }
  }

  lemma HighBits(b: Byte, action: nat, auth: bool, low: nat)
    requires action < 8 && low < 16 && b as int == 32 * action + (if auth then 16 else 0) + low
    ensures b / 32 == action && (b / 16 % 2 == 1 <==> auth)
  {
    assert b / 16 == 2 * action + if auth then 1 else 0;
  }

  lemma {:induction false} LocsCount(b: seq<Byte>, n: nat, id: int)
    ensures ParseLocs(b, n, id).Some? ==> |ParseLocs(b, n, id).value.locs| == n
    decreases n
  {
    hide ParseLoc, Marked;
    if n > 0 && ParseLoc(b, id).Some? { LocsCount(ParseLoc(b, id).value.1, n - 1, id + 1); }
  }
}
