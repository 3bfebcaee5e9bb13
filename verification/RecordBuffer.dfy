/** Records put into and taken out of a buffer, field by field. */
module RecordBuffer {
  import opened Options
  import opened Bytes
  import opened Lbuf
  import opened Mappings
  import opened RecordSpec
  import MappingStore

  // ---------- writing ----------

  /** lisp_msg_put_locator; junk is what memory held where the header is not set */
  method PutLocator(b: Buffer, l: Loc) returns (ghost junk: Junk)
    requires b.Valid() && LocOk(l)
    modifies b, b.base
    ensures b.Valid() && (b.base == old(b.base) || fresh(b.base))
    ensures b.data == old(b.data) && b.markers == old(b.markers)
    ensures b.Contents() == old(b.Contents()) + WriteLoc(l, junk)
  {
    hide LocOk, WriteAddr, LocHeader;
    LocFields(l);
    ghost var before := b.Contents();
    junk := PutLocHeader(b, l);
    b.Put(WriteAddr(l.addr));
    Regroup(before, LocHeader(l, junk), WriteAddr(l.addr));
  }

  method PutLocHeader(b: Buffer, l: Loc) returns (ghost junk: Junk)
    requires b.Valid() && LocOk(l)
    modifies b, b.base
    ensures b.Valid() && (b.base == old(b.base) || fresh(b.base))
    ensures b.data == old(b.data) && b.markers == old(b.markers)
    ensures b.Contents() == old(b.Contents()) + LocHeader(l, junk)
  {
    hide AddrOk, Flags;
    ghost var before := b.Contents();
    b.PutUninit(6);
    junk := SetFields(b, before, l);
  }

  /** The assignments to the six bytes just put, one of which is left and one changed in three bits */
  method SetFields(b: Buffer, ghost before: seq<Byte>, l: Loc) returns (ghost junk: Junk)
    requires b.Valid() && LocOk(l) && b.size == |before| + 6 && b.Contents()[..|before|] == before
    modifies b.base
    ensures b.Contents() == before + LocHeader(l, junk)
  {
    hide AddrOk, Flags;
    ghost var c := b.Contents();
    var at := b.size - 6;
    junk := (c[at + 4], c[at + 5]);
    var flags := b.base[b.data + at + 5];
    assert flags == junk.1;
    b.Write(at, [l.priority, l.weight, l.mpriority, l.mweight]);
    b.Write(at + 5, [Flags(flags, l.up)]);
    HeaderBytes(before, c, l.priority, l.weight, l.mpriority, l.mweight, Flags(flags, l.up));
  }

  lemma LocFields(l: Loc)
    requires LocOk(l)
    ensures AddrOk(l.addr) && l.priority < 256 && l.weight < 256 && l.mpriority < 256 && l.mweight < 256
  {}

  lemma HeaderBytes(before: seq<Byte>, c: seq<Byte>, p: Byte, w: Byte, mp: Byte, mw: Byte, f: Byte)
    requires |c| == |before| + 6 && c[..|before|] == before
    ensures var n := |before|;
            var d := c[..n] + [p, w, mp, mw] + c[n + 4..];
            d[..n + 5] + [f] + d[n + 6..] == before + [p, w, mp, mw, c[n + 4], f]
  {}

  lemma {:induction false} WriteLocsConcat(ls: seq<Loc>, js: seq<Junk>, ms: seq<Loc>, ks: seq<Junk>)
    requires |ls| == |js| && |ms| == |ks|
    requires (forall i :: 0 <= i < |ls| ==> LocOk(ls[i])) && (forall i :: 0 <= i < |ms| ==> LocOk(ms[i]))
    ensures forall i :: 0 <= i < |ls + ms| ==> LocOk((ls + ms)[i])
    ensures WriteLocs(ls + ms, js + ks) == WriteLocs(ls, js) + WriteLocs(ms, ks)
    decreases |ls|
  {
    hide LocOk, WriteLoc;
    if ls == [] {
      assert ls + ms == ms && js + ks == ks;
      assert WriteLocs(ls, js) + WriteLocs(ms, ks) == WriteLocs(ms, ks);
    } else {
      assert (ls + ms)[1..] == ls[1..] + ms && (js + ks)[1..] == js[1..] + ks;
      WriteLocsConcat(ls[1..], js[1..], ms, ks);
      Regroup(WriteLoc(ls[0], js[0]), WriteLocs(ls[1..], js[1..]), WriteLocs(ms, ks));
    }
  }

  lemma {:induction false} UpOfSnoc(g: Group, l: Loc)
    ensures UpOf(g + [l]) == if l.up then UpOf(g) + [l] else UpOf(g)
  {
    if g == [] {
      assert g + [l] == [l];
    } else {
      assert (g + [l])[1..] == g[1..] + [l];
      UpOfSnoc(g[1..], l);
    }
  }

  lemma {:induction false} WrittenSnoc(gs: seq<Group>, g: Group)
    requires g != []
    ensures Written(gs + [g]) == if g[0].addr.Ip? then Written(gs) + UpOf(g) else Written(gs)
  {
    if gs == [] {
      assert gs + [g] == [g];
    } else {
      assert (gs + [g])[1..] == gs[1..] + [g];
      WrittenSnoc(gs[1..], g);
    }
  }

  ghost predicate LocsOk(ls: seq<Loc>) {
    forall i :: 0 <= i < |ls| ==> LocOk(ls[i])
  }

  /** The bytes appended so far: some locators and their junk. */
  ghost predicate Appended(now: seq<Byte>, before: seq<Byte>, ls: seq<Loc>, junk: seq<Junk>) {
    LocsOk(ls) && |junk| == |ls| && now == before + WriteLocs(ls, junk)
  }

  lemma AppendMore(now: seq<Byte>, mid: seq<Byte>, before: seq<Byte>, ls: seq<Loc>, js: seq<Junk>,
                   ms: seq<Loc>, ks: seq<Junk>)
    requires Appended(mid, before, ls, js) && Appended(now, mid, ms, ks)
    ensures Appended(now, before, ls + ms, js + ks)
  {
    hide LocOk, WriteLocs;
    WriteLocsConcat(ls, js, ms, ks);
    Regroup(before, WriteLocs(ls, js), WriteLocs(ms, ks));
  }

  lemma AppendNone(before: seq<Byte>)
    ensures Appended(before, before, [], [])
  {
    assert before + [] == before;
  }

  lemma AppendOne(now: seq<Byte>, before: seq<Byte>, l: Loc, j: Junk)
    requires LocOk(l) && now == before + WriteLoc(l, j)
    ensures Appended(now, before, [l], [j])
  {
    assert WriteLocs([l], [j]) == WriteLoc(l, j) + [];
    assert WriteLoc(l, j) + [] == WriteLoc(l, j);
  }

  /** The mark of the probed locator, set in the flags of the locator just put at a position */
  method SetMark(b: Buffer, at: nat, ghost before: seq<Byte>, ghost l: Loc, ghost junk: Junk)
    requires b.Valid() && LocOk(l) && at == |before| && b.Contents() == before + WriteLoc(l, junk)
    modifies b.base
    ensures b.Contents() == before + WriteLoc(l, (junk.0, WithMark(junk.1)))
  {
    hide WriteAddr, Flags, WithMark, LocOk, LocHeader;
    LocFields(l);
    ghost var c := b.Contents();
    var flags := b.base[b.data + at + 5];
    assert flags == c[at + 5];
    MarkBytes(before, LocHeader(l, junk), WriteAddr(l.addr), WithMark(flags));
    MarkedHeader(l, junk);
    b.Write(at + 5, [WithMark(flags)]);
  }

  lemma MarkedHeader(l: Loc, junk: Junk)
    requires LocOk(l)
    ensures var h := LocHeader(l, junk);
            [h[0], h[1], h[2], h[3], h[4], WithMark(h[5])] == LocHeader(l, (junk.0, WithMark(junk.1)))
  {
    hide Flags, WithMark;
    MarkInFlags(junk.1, l.up);
  }

  lemma MarkBytes(before: seq<Byte>, h: seq<Byte>, a: seq<Byte>, f: Byte)
    requires |h| == 6
    ensures var c := before + (h + a);
            c[|before| + 5] == h[5]
            && c[..|before| + 5] + [f] + c[|before| + 6..] == before + ([h[0], h[1], h[2], h[3], h[4], f] + a)
  {}

  lemma MarksSplit(ls: seq<Loc>, js: seq<Junk>, ms: seq<Loc>, ks: seq<Junk>, probed: Option<Addr>)
    requires |ls| == |js| && |ms| == |ks|
    ensures Marks(ls + ms, js + ks, probed) == Marks(ls, js, probed) + Marks(ms, ks, probed)
  {}

  /** lisp_msg_put_locator and, for the probed address, the mark */
  method PutMarked(b: Buffer, l: Loc, probed: Option<Addr>) returns (ghost junk: Junk)
    requires b.Valid() && LocOk(l)
    modifies b, b.base
    ensures b.Valid() && (b.base == old(b.base) || fresh(b.base))
    ensures b.data == old(b.data) && b.markers == old(b.markers)
    ensures Appended(b.Contents(), old(b.Contents()), [l], Marks([l], [junk], probed))
  {
    hide LocOk, WriteLoc, Appended, WithMark;
    ghost var before := b.Contents();
    var at := b.size;
    junk := PutLocator(b, l);
    if probed == Some(l.addr) {
      SetMark(b, at, before, l, junk);
      AppendOne(b.Contents(), before, l, (junk.0, WithMark(junk.1)));
      assert Marks([l], [junk], probed) == [(junk.0, WithMark(junk.1))];
    } else {
      AppendOne(b.Contents(), before, l, junk);
      assert Marks([l], [junk], probed) == [junk];
    }
  }

  /** The inner loop of lisp_msg_put_mapping: what is up in a group */
  method PutGroup(b: Buffer, g: Group, probed: Option<Addr>) returns (n: nat, ghost junk: seq<Junk>)
    requires b.Valid() && LocsOk(g)
    modifies b, b.base
    ensures b.Valid() && (b.base == old(b.base) || fresh(b.base))
    ensures b.data == old(b.data) && b.markers == old(b.markers)
    ensures n == |UpOf(g)| == |junk| && Appended(b.Contents(), old(b.Contents()), UpOf(g), Marks(UpOf(g), junk, probed))
  {
    hide LocOk, WriteLoc, Appended, UpOf, Marks;
    ghost var before := b.Contents();
    n, junk := 0, [];
    AppendNone(before);
    UpOfNone();
    NoMarks(probed);
    for i := 0 to |g|
      invariant b.Valid() && (b.base == old(b.base) || fresh(b.base))
      invariant b.data == old(b.data) && b.markers == old(b.markers)
      invariant n == |UpOf(g[..i])| == |junk|
      invariant Appended(b.Contents(), before, UpOf(g[..i]), Marks(UpOf(g[..i]), junk, probed))
    {
      var l := g[i];
      assert g[..i + 1] == g[..i] + [l];
      UpOfSnoc(g[..i], l);
      if l.up {
        ghost var mid := b.Contents();
        ghost var j := PutMarked(b, l, probed);
        MarksSplit(UpOf(g[..i]), junk, [l], [j], probed);
        AppendMore(b.Contents(), mid, before, UpOf(g[..i]), Marks(UpOf(g[..i]), junk, probed), [l], Marks([l], [j], probed));
        junk := junk + [j];
        n := n + 1;
      }
    }
    assert g[..|g|] == g;
  }

  lemma UpOfNone()
    ensures UpOf([]) == [] && Written([]) == []
  {}

  lemma NoMarks(probed: Option<Addr>)
    ensures Marks([], [], probed) == []
  {}

  /** The outer loop: every group with addresses */
  method PutGroups(b: Buffer, gs: seq<Group>, probed: Option<Addr>) returns (n: nat, ghost junk: seq<Junk>)
    requires b.Valid() && forall i :: 0 <= i < |gs| ==> LocsOk(gs[i]) && gs[i] != []
    modifies b, b.base
    ensures b.Valid() && (b.base == old(b.base) || fresh(b.base))
    ensures b.data == old(b.data) && b.markers == old(b.markers)
    ensures n == |Written(gs)| == |junk|
    ensures Appended(b.Contents(), old(b.Contents()), Written(gs), Marks(Written(gs), junk, probed))
  {
    hide LocsOk, WriteLocs, Appended, Written, Marks;
    ghost var before := b.Contents();
    n, junk := 0, [];
    AppendNone(before);
    UpOfNone();
    NoMarks(probed);
    for i := 0 to |gs|
      invariant b.Valid() && (b.base == old(b.base) || fresh(b.base))
      invariant b.data == old(b.data) && b.markers == old(b.markers)
      invariant n == |Written(gs[..i])| == |junk|
      invariant Appended(b.Contents(), before, Written(gs[..i]), Marks(Written(gs[..i]), junk, probed))
    {
      assert gs[..i + 1] == gs[..i] + [gs[i]];
      WrittenSnoc(gs[..i], gs[i]);
      if gs[i][0].addr.Ip? {
        ghost var mid := b.Contents();
        var k;
        ghost var js;
        k, js := PutGroup(b, gs[i], probed);
        MarksSplit(Written(gs[..i]), junk, UpOf(gs[i]), js, probed);
        AppendMore(b.Contents(), mid, before, Written(gs[..i]), Marks(Written(gs[..i]), junk, probed),
                   UpOf(gs[i]), Marks(UpOf(gs[i]), js, probed));
        junk := junk + js;
        n := n + k;
      }
    }
    assert gs[..|gs|] == gs;
  }

  /** The header as it is first written, with a locator count of one */
  function FirstHeader(m: Mapping): (s: seq<Byte>)
    requires MappingOk(m)
    ensures |s| == 10
  {
    ToBytes(4, m.ttl) + [1, m.plen, if m.auth then 0x10 else 0, 0, 0, 0]
  }

  /** The bytes a record needs, which the buffer must have: a pointer to its header is kept across the puts. */
  function Needed(m: Mapping): nat {
    10 + 18 + 24 * |Written(m.groups)|
  }

  /** A message of which the part from the LISP header on has one record more in its count */
  function CountedAt(c: seq<Byte>, at: Option<nat>): (r: seq<Byte>)
    requires at.Some? ==> at.value <= |c|
    ensures |r| == |c|
  {
    if at.None? then c else c[..at.value] + Counted(c[at.value..])
  }

  /** Where in the contents the LISP header starts, if its marker is set. */
  ghost function HeaderAt(b: Buffer): (at: Option<nat>)
    reads b
    requires b.Valid() && (Lisp in b.markers ==> b.markers[Lisp] >= b.data)
    ensures at.Some? ==> at.value <= b.size
  {
    if Lisp in b.markers then Some(b.markers[Lisp] - b.data) else None
  }

  /** increment_record_count */
  method IncrementRecordCount(b: Buffer)
    requires b.Valid() && (Lisp in b.markers ==> b.data <= b.markers[Lisp] && b.markers[Lisp] + 4 <= b.data + b.size)
    modifies b.base
    ensures b.Contents() == CountedAt(old(b.Contents()), HeaderAt(b))
  {
    hide Counted, OneMore;
    if Lisp !in b.markers { return; }
    var at := b.markers[Lisp] - b.data;
    ghost var c := b.Contents();
    var kind, count := b.base[b.data + at], b.base[b.data + at + 3];
    assert kind == c[at] && count == c[at + 3];
    CountedIs(c, at);
    if 1 <= kind / 16 <= 4 { b.Write(at + 3, [OneMore(count)]); }
  }

  lemma CountedIs(c: seq<Byte>, at: nat)
    requires at + 4 <= |c|
    ensures c[..at] + Counted(c[at..]) ==
            if 1 <= c[at] / 16 <= 4 then c[..at + 3] + [OneMore(c[at + 3])] + c[at + 4..] else c
  {
    var h := c[at..];
    assert h[0] == c[at] && h[3] == c[at + 3];
  }

  /** lisp_msg_put_mapping, for a mapping whose groups are not empty */
  method PutMapping(b: Buffer, m: Mapping, probed: Option<Addr>) returns (ghost junk: seq<Junk>)
    requires b.Valid() && MappingOk(m) && forall i :: 0 <= i < |m.groups| ==> m.groups[i] != []
    requires b.data + b.size + Needed(m) <= b.base.Length
    requires Lisp in b.markers ==> b.data <= b.markers[Lisp] && b.markers[Lisp] + 4 <= b.data + b.size
    modifies b, b.base
    ensures b.Valid() && b.data == old(b.data) && b.markers == old(b.markers) && |junk| == |Written(m.groups)|
    ensures b.Contents() == CountedAt(old(b.Contents()), old(HeaderAt(b)))
                            + WriteRecord(m, Marks(Written(m.groups), junk, probed))
  {
    hide Written, WriteRecord, MappingOk, Counted;
    ghost var before := b.Contents();
    ghost var at := HeaderAt(b);
    junk := PutRecord(b, m, probed);
    ghost var rec := WriteRecord(m, Marks(Written(m.groups), junk, probed));
    assert |b.Contents()| == b.size;
    IncrementRecordCount(b);
    CountedStays(before, rec, at);
  }

  lemma CountedStays(c: seq<Byte>, rec: seq<Byte>, at: Option<nat>)
    requires at.Some? ==> at.value + 4 <= |c|
    ensures CountedAt(c + rec, at) == CountedAt(c, at) + rec
  {
    if at.Some? {
      var h := c[at.value..];
      assert (c + rec)[at.value..] == h + rec && (c + rec)[..at.value] == c[..at.value];
      assert (h + rec)[0] == h[0] && (h + rec)[3] == h[3];
      assert Counted(h + rec) == Counted(h) + rec;
    }
  }

  /** The header and the EID of a record */
  method PutStart(b: Buffer, m: Mapping)
    requires b.Valid() && MappingOk(m)
    modifies b, b.base
    ensures b.Valid() && (b.base == old(b.base) || fresh(b.base))
    ensures b.data == old(b.data) && b.markers == old(b.markers)
    ensures AddrOk(m.eid) && b.Contents() == old(b.Contents()) + FirstHeader(m) + WriteAddr(m.eid)
  {
    hide MappingOk, WriteAddr, AddrOk, FirstHeader;
    MappingParts(m);
    b.Put(FirstHeader(m));
    b.Put(WriteAddr(m.eid));
  }

  /** The record itself, its count of locators set when they are all put */
  method PutRecord(b: Buffer, m: Mapping, probed: Option<Addr>) returns (ghost junk: seq<Junk>)
    requires b.Valid() && MappingOk(m) && forall i :: 0 <= i < |m.groups| ==> m.groups[i] != []
    requires b.data + b.size + Needed(m) <= b.base.Length
    modifies b, b.base
    ensures b.Valid() && (b.base == old(b.base) || fresh(b.base))
    ensures b.data == old(b.data) && b.markers == old(b.markers) && |junk| == |Written(m.groups)|
    ensures b.Contents() == old(b.Contents()) + WriteRecord(m, Marks(Written(m.groups), junk, probed))
  {
    hide Written, WriteAddr, WriteLocs, LocOk, AddrOk, FirstHeader, RecordHeader, Marks;
    ghost var before := b.Contents();
    var at := b.size;
    MappingParts(m);
    PutStart(b, m);
    ghost var mid := b.Contents();
    var n;
    n, junk := PutGroups(b, m.groups, probed);
    b.Write(at + 4, [n]);
    WrittenAllOk(m.groups);
    Recount(before, m, WriteLocs(Written(m.groups), Marks(Written(m.groups), junk, probed)));
  }

  lemma MappingParts(m: Mapping)
    requires MappingOk(m)
    ensures AddrOk(m.eid) && |Written(m.groups)| < 256
    ensures forall i :: 0 <= i < |m.groups| ==> LocsOk(m.groups[i])
  {
    hide Written, LocOk;
  }

  /** Setting the count makes the first header the header of the record. */
  lemma Recount(before: seq<Byte>, m: Mapping, locs: seq<Byte>)
    requires MappingOk(m)
    ensures var n := |Written(m.groups)|;
            var c := before + FirstHeader(m) + WriteAddr(m.eid) + locs;
            c[..|before| + 4] + [n] + c[|before| + 5..] == before + (RecordHeader(m) + WriteAddr(m.eid) + locs)
  {
    hide Written, WriteAddr;
    var n := |Written(m.groups)|;
    var h, a := FirstHeader(m), WriteAddr(m.eid);
    assert h[..4] + [n] + h[5..] == RecordHeader(m);
    Splice(before, h, a, locs, n);
  }

  lemma Splice(before: seq<Byte>, h: seq<Byte>, a: seq<Byte>, locs: seq<Byte>, n: Byte)
    requires |h| == 10
    ensures var c := before + h + a + locs;
            c[..|before| + 4] + [n] + c[|before| + 5..] == before + ((h[..4] + [n] + h[5..]) + a + locs)
  {}

  // ---------- parsing ----------

  /** lisp_addr_parse at the front of the buffer, then lbuf_pull of what it read */
  method TakeAddr(b: Buffer) returns (a: Option<Addr>)
    requires b.Valid()
    modifies b
    ensures b.Valid() && b.base == old(b.base)
    ensures match ParseAddr(old(b.Contents()))
            case None => a.None? && b.Contents() == old(b.Contents())
            case Some((x, rest)) => a == Some(x) && b.Contents() == rest
  {
    hide FromBytes;
    var c := b.base[b.data..b.data + b.size];
    if |c| < 2 || c[0] != 0 || c[1] > 2 { return None; }
    if c[1] == 0 {
      var _ := b.Pull(2);
      return Some(NoAddr);
    }
    var n := if c[1] == 2 then 16 else 4;
    if |c| < 2 + n { return None; }
    var _ := b.Pull(2 + n);
    return Some(Ip(c[1] == 2, FromBytes(c[2..2 + n])));
  }

  /** lisp_msg_parse_loc */
  method TakeLoc(b: Buffer, id: int) returns (l: Option<Loc>)
    requires b.Valid()
    modifies b
    ensures b.Valid() && b.base == old(b.base)
    ensures match ParseLoc(old(b.Contents()), id)
            case None => l.None?
            case Some((x, rest)) => l == Some(x) && b.Contents() == rest
  {
    hide ParseAddr;
    var c := b.base[b.data..b.data + b.size];
    if |c| < 6 { return None; }
    var _ := b.Pull(6);
    var a := TakeAddr(b);
    if a.None? { return None; }
    var reachable, local := c[5] % 2 == 1, c[5] % 8 >= 4;
    return Some(Loc(id, a.value, !(!reachable && local), c[0], c[1], c[2], c[3]));
  }

  /** The loop over the locators of a record: the first one marked is the one probed */
  method TakeLocs(b: Buffer, n: nat, id: int) returns (ls: Option<(seq<Loc>, Option<int>)>)
    requires b.Valid()
    modifies b
    ensures b.Valid() && b.base == old(b.base)
    ensures match ParseLocs(old(b.Contents()), n, id)
            case None => ls.None?
            case Some(xs) => ls == Some((xs.locs, xs.probed)) && b.Contents() == xs.rest
  {
    hide ParseLoc, ParseLocs, Marked;
    var done: seq<Loc> := [];
    var probed: Option<int> := None;
    ghost var all := ParseLocs(b.Contents(), n, id);
    ParseNone(b.Contents(), id);
    for i := 0 to n
      invariant b.Valid() && b.base == old(b.base)
      invariant all == Prefixed(done, probed, ParseLocs(b.Contents(), n - i, id + i))
    {
      ghost var c := b.Contents();
      ParseStep(c, n - i, id + i);
      var marked := b.size > 5 && Marked(b.base[b.data + 5]);
      assert |c| > 5 ==> marked == Marked(c[5]);
      var l := TakeLoc(b, id + i);
      if l.None? { return None; }
      var mark := if marked then Some(id + i) else None;
      PrefixedMore(done, probed, l.value, mark, ParseLocs(b.Contents(), n - i - 1, id + i + 1));
      done := done + [l.value];
      if probed.None? { probed := mark; }
    }
    ParseNone(b.Contents(), id + n);
    return Some((done, probed));
  }

  /** Locators already parsed, and the mark found among them, put before those of the rest. */
  function Prefixed(done: seq<Loc>, probed: Option<int>, r: Option<Locs>): Option<Locs> {
    match r
    case None => None
    case Some(ls) => Some(ls.(locs := done + ls.locs, probed := if probed.Some? then probed else ls.probed))
  }

  lemma PrefixedMore(done: seq<Loc>, probed: Option<int>, l: Loc, mark: Option<int>, r: Option<Locs>)
    ensures Prefixed(done, probed, Prefixed([l], mark, r)) ==
            Prefixed(done + [l], if probed.Some? then probed else mark, r)
  {
    if r.Some? { assert done + ([l] + r.value.locs) == done + [l] + r.value.locs; }
  }

  lemma ParseNone(b: seq<Byte>, id: int)
    ensures ParseLocs(b, 0, id) == Some(Locs([], None, b))
    ensures forall r :: Prefixed([], None, r) == r
    ensures forall done, probed :: Prefixed(done, probed, Some(Locs([], None, b))) == Some(Locs(done, probed, b))
  {
    forall r: Option<Locs>
      ensures Prefixed([], None, r) == r
    {
      if r.Some? { assert [] + r.value.locs == r.value.locs; }
    }
    forall done: seq<Loc>, probed: Option<int>
      ensures Prefixed(done, probed, Some(Locs([], None, b))) == Some(Locs(done, probed, b))
    {
      assert done + [] == done;
    }
  }

  lemma ParseStep(b: seq<Byte>, n: nat, id: int)
    requires n > 0
    ensures ParseLocs(b, n, id) ==
            match ParseLoc(b, id)
            case None => None
            case Some((l, rest)) =>
              Prefixed([l], if |b| > 5 && Marked(b[5]) then Some(id) else None, ParseLocs(rest, n - 1, id + 1))
  {
    hide Marked, ParseAddr;
  }

  /** lisp_msg_parse_mapping_record_split with the header fields */
  method TakeRecord(b: Buffer, id: int) returns (p: Option<Parsed>)
    requires b.Valid()
    modifies b
    ensures b.Valid() && b.base == old(b.base)
    ensures match ParseRecord(old(b.Contents()), id)
            case None => p.None?
            case Some((x, rest)) => p == Some(x) && b.Contents() == rest
  {
    hide ParseAddr, ParseLocs, FromBytes;
    var c := b.base[b.data..b.data + b.size];
    if |c| < 10 { return None; }
    var _ := b.Pull(10);
    var eid := TakeAddr(b);
    if eid.None? { return None; }
    var ls := TakeLocs(b, c[4], id);
    if ls.None? { return None; }
    return Some(Parsed(eid.value, c[5], FromBytes(c[..4]), c[6] / 32, c[6] / 16 % 2 == 1, ls.value.0, ls.value.1));
  }

  /** The locators of a record added to a new mapping; the list was built front first, so last first */
  method AddParsed(m: MappingStore.Mapping, ls: seq<Loc>)
    requires m.Valid() && m.groups == [] && forall i, j :: 0 <= i < j < |ls| ==> ls[i].id != ls[j].id
    modifies m
    ensures m.Valid() && m.groups == AddAll(Reversed(ls))
    ensures m.eid == old(m.eid) && m.plen == old(m.plen)
  {
    hide AddTo, GroupsOk, Count, Lookup, Inactive;
    ghost var rs := Reversed(ls);
    for k := 0 to |ls|
      invariant m.Valid() && m.groups == AddAll(rs[..k])
      invariant m.eid == old(m.eid) && m.plen == old(m.plen)
    {
      var l := ls[|ls| - 1 - k];
      assert rs[..k + 1][..k] == rs[..k] && rs[..k + 1][k] == l;
      AddAllKeepsBest(rs[..k], NoAddr);
      NewOne(rs, k);
      var _ := m.AddLocator(l);
    }
    assert rs[..|ls|] == rs;
  }

  lemma NewOne(rs: seq<Loc>, k: nat)
    requires k < |rs| && forall i :: 0 <= i < k ==> rs[i].id != rs[k].id
    ensures MappingStore.NewTo(InactiveOf(rs[..k]), rs[k])
  {
    hide InactiveOf;
    forall i | 0 <= i < |InactiveOf(rs[..k])|
      ensures InactiveOf(rs[..k])[i].id != rs[k].id
    {
      InactiveFrom(rs[..k], InactiveOf(rs[..k])[i]);
    }
  }

  lemma {:induction false} InactiveFrom(ls: seq<Loc>, l: Loc)
    requires l in InactiveOf(ls)
    ensures l in ls
  {
    if l != ls[|ls| - 1] { InactiveFrom(ls[..|ls| - 1], l); }
  }
}
