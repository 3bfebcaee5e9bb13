/**
  Sequences of interface events: which locators an event leaves in a mapping and on the interface,
  and when every local mapping stays in order over a whole run.
 */
module IfaceRuns {
  import opened Options
  import opened Seqs
  import opened Mappings
  import opened MappingStore
  import opened IfaceMappings
  import I = Interfaces

  // ---------- the locators of a mapping, wherever they stand ----------

  function All(gs: seq<Group>): multiset<Loc> {
    if gs == [] then multiset{} else multiset(gs[0]) + All(gs[1..])
  }

  lemma {:induction false} AllUpdate(gs: seq<Group>, p: nat, g: Group)
    requires p < |gs|
    ensures multiset(gs[p]) <= All(gs)
    ensures All(gs[p := g]) == All(gs) - multiset(gs[p]) + multiset(g)
  {
    var hs := gs[p := g];
    if p == 0 {
      assert hs[1..] == gs[1..];
    } else {
      AllUpdate(gs[1..], p - 1, g);
      assert hs[1..] == gs[1..][p - 1 := g];
    }
  }

  lemma {:induction false} AllInsert(gs: seq<Group>, p: nat, g: Group)
    requires p <= |gs|
    ensures All(gs[..p] + [g] + gs[p..]) == All(gs) + multiset(g)
  {
    var hs := gs[..p] + [g] + gs[p..];
    if p == 0 {
      assert hs[0] == g && hs[1..] == gs;
    } else {
      AllInsert(gs[1..], p - 1, g);
      assert hs[0] == gs[0] && hs[1..] == gs[1..][..p - 1] + [g] + gs[1..][p - 1..];
    }
  }

  lemma {:induction false} AllMember(gs: seq<Group>, x: Loc)
    ensures x in All(gs) <==> exists p, j :: 0 <= p < |gs| && 0 <= j < |gs[p]| && gs[p][j] == x
  {
    if gs != [] {
      AllMember(gs[1..], x);
      if j :| 0 <= j < |gs[0]| && gs[0][j] == x { assert x in gs[0]; }
      if p, j :| 0 <= p < |gs[1..]| && 0 <= j < |gs[1..][p]| && gs[1..][p][j] == x { assert gs[p + 1][j] == x; }
      if p, j :| 0 <= p < |gs| && 0 <= j < |gs[p]| && gs[p][j] == x {
        if p > 0 { assert gs[1..][p - 1][j] == x; }
      }
    }
  }

  ghost predicate HasAt(m: multiset<Loc>, id: int, c: Addr) {
    exists x :: x in m && x.id == id && x.addr == c
  }

  lemma IsAtIff(gs: seq<Group>, id: int, c: Addr)
    ensures IsAt(gs, id, c) <==> HasAt(All(gs), id, c)
  {
    hide All;
    if IsAt(gs, id, c) {
      var p, j :| 0 <= p < |gs| && 0 <= j < |gs[p]| && gs[p][j].id == id && gs[p][j].addr == c;
      AllMember(gs, gs[p][j]);
    }
    if x :| x in All(gs) && x.id == id && x.addr == c { AllMember(gs, x); }
  }

  /** No identity occurs twice. */
  ghost predicate SingleIds(m: multiset<Loc>) {
    forall x, y :: x in m && y in m - multiset{x} ==> x.id != y.id
  }

  ghost predicate NoCommonIds(m: multiset<Loc>, n: multiset<Loc>) {
    forall x, y :: x in m && y in n ==> x.id != y.id
  }

  lemma SingleSum(m: multiset<Loc>, n: multiset<Loc>)
    ensures SingleIds(m + n) <==> SingleIds(m) && SingleIds(n) && NoCommonIds(m, n)
  {
    if SingleIds(m + n) {
      forall x, y | x in m && y in m - multiset{x} ensures x.id != y.id { assert y in m + n - multiset{x}; }
      forall x, y | x in n && y in n - multiset{x} ensures x.id != y.id { assert y in m + n - multiset{x}; }
      forall x, y | x in m && y in n ensures x.id != y.id { assert y in m + n - multiset{x}; }
    }
    if SingleIds(m) && SingleIds(n) && NoCommonIds(m, n) {
      forall x, y | x in m + n && y in m + n - multiset{x}
        ensures x.id != y.id
      {
        if (x in m && y in n) || (x in n && y in m) {
        } else if x in m {
          assert x !in n && y !in n && y in m - multiset{x};
        } else {
          assert x !in m && y !in m && y in n - multiset{x};
        }
      }
    }
  }

  ghost predicate ApartIds(g: Group) {
    forall i, j :: 0 <= i < j < |g| ==> g[i].id != g[j].id
  }

  lemma {:induction false} SingleGroup(g: Group)
    ensures SingleIds(multiset(g)) <==> ApartIds(g)
  {
    hide SingleIds, NoCommonIds, ApartIds;
    if g == [] {
      assert SingleIds(multiset{}) by { NoneSingle(); }
      assert ApartIds(g) by { NoneApart(); }
    } else {
      SingleGroup(g[1..]);
      SingleSum(multiset{g[0]}, multiset(g[1..]));
      OneSingle(g[0]);
      HeadCommon(g);
      HeadApart(g);
      assert multiset(g) == multiset{g[0]} + multiset(g[1..]) by { assert g == [g[0]] + g[1..]; }
    }
  }

  lemma NoneSingle()
    ensures SingleIds(multiset{})
  {}

  lemma OneSingle(l: Loc)
    ensures SingleIds(multiset{l})
  {}

  lemma NoneApart()
    ensures ApartIds([])
  {}

  ghost predicate HeadOnce(g: Group)
    requires g != []
  {
    forall j :: 0 < j < |g| ==> g[0].id != g[j].id
  }

  lemma HeadCommon(g: Group)
    requires g != []
    ensures NoCommonIds(multiset{g[0]}, multiset(g[1..])) <==> HeadOnce(g)
  {
    var rest := g[1..];
    assert forall j :: 0 < j < |g| ==> g[j] == rest[j - 1] && rest[j - 1] in multiset(rest);
    forall y | y in multiset(rest) && HeadOnce(g)
      ensures g[0].id != y.id
    {
      var j :| 0 <= j < |rest| && rest[j] == y;
      assert g[j + 1] == y;
    }
  }

  lemma HeadApart(g: Group)
    requires g != []
    ensures ApartIds(g) <==> ApartIds(g[1..]) && HeadOnce(g)
  {
    var rest := g[1..];
    assert forall i :: 0 < i < |g| ==> g[i] == rest[i - 1];
    assert forall i :: 0 <= i < |rest| ==> rest[i] == g[i + 1];
  }

  lemma {:induction false} DistinctIff(gs: seq<Group>)
    ensures DistinctIds(gs) <==> SingleIds(All(gs))
  {
    hide SingleIds, NoCommonIds;
    if gs == [] {
      assert SingleIds(multiset{}) by { NoneSingle(); }
    } else {
      DistinctIff(gs[1..]);
      SingleGroup(gs[0]);
      SingleSum(multiset(gs[0]), All(gs[1..]));
      DistinctParts(gs);
      CommonIff(gs);
    }
  }

  /** A locator of the first group and one of the others never have the same identity. */
  ghost predicate FirstApart(gs: seq<Group>)
    requires gs != []
  {
    forall j, q, k :: 0 <= j < |gs[0]| && 0 < q < |gs| && 0 <= k < |gs[q]| ==> gs[0][j].id != gs[q][k].id
  }

  lemma DistinctParts(gs: seq<Group>)
    requires gs != []
    ensures DistinctIds(gs) <==> ApartIds(gs[0]) && DistinctIds(gs[1..]) && FirstApart(gs)
  {
    var rest: seq<Group> := gs[1..];
    if DistinctIds(gs) {
      forall p, j, q, k | 0 <= p < |rest| && 0 <= j < |rest[p]| && 0 <= q < |rest| && 0 <= k < |rest[q]|
                          && rest[p][j].id == rest[q][k].id
        ensures p == q && j == k
      {
        assert gs[p + 1][j].id == gs[q + 1][k].id;
      }
    }
    if ApartIds(gs[0]) && DistinctIds(rest) && FirstApart(gs) {
      forall p, j, q, k | 0 <= p < |gs| && 0 <= j < |gs[p]| && 0 <= q < |gs| && 0 <= k < |gs[q]| && gs[p][j].id == gs[q][k].id
        ensures p == q && j == k
      {
        if p > 0 && q > 0 { assert rest[p - 1][j].id == rest[q - 1][k].id; }
      }
    }
  }

  lemma CommonIff(gs: seq<Group>)
    requires gs != []
    ensures NoCommonIds(multiset(gs[0]), All(gs[1..])) <==> FirstApart(gs)
  {
    hide All;
    var rest: seq<Group> := gs[1..];
    if NoCommonIds(multiset(gs[0]), All(rest)) {
      forall j, q, k | 0 <= j < |gs[0]| && 0 < q < |gs| && 0 <= k < |gs[q]|
        ensures gs[0][j].id != gs[q][k].id
      {
        assert rest[q - 1][k] == gs[q][k];
        AllMember(rest, gs[q][k]);
        assert gs[0][j] in multiset(gs[0]);
      }
    }
    if FirstApart(gs) {
      forall x, y | x in multiset(gs[0]) && y in All(rest)
        ensures x.id != y.id
      {
        var j :| 0 <= j < |gs[0]| && gs[0][j] == x;
        AllMember(rest, y);
        var q, k :| 0 <= q < |rest| && 0 <= k < |rest[q]| && rest[q][k] == y;
        assert gs[q + 1][k] == y;
      }
    }
  }

  // ---------- what an address event does to them ----------

  lemma UnlistedAll(gs: seq<Group>, id: int)
    requires GroupsOk(gs) && IsInactive(gs, id)
    ensures Inactive(gs) == gs[0] && gs[0] != []
    ensures var l := gs[0][FirstId(gs[0], id)];
            l in All(gs) && l.id == id && All(Unlisted(gs, id)) == All(gs) - multiset{l}
  {
    hide GroupsOk, FirstId, All, Drop;
    GroupPlaceIs0(gs);
    var k := FirstId(gs[0], id);
    DropRemoves(gs[0], k);
    AllUpdate(gs, 0, Drop(gs[0], k));
    assert gs[0][k] in multiset(gs[0]);
  }

  lemma DroppedAll(gs: seq<Group>, k: nat)
    requires gs != [] && k < |gs[0]|
    ensures All(Dropped(gs, k)) == All(gs) - multiset{gs[0][k]} && gs[0][k] in All(gs)
  {
    hide Drop, All;
    AllFirst(gs, k);
    if |gs[0]| == 1 {
      AllRest(gs);
    } else {
      DropRemoves(gs[0], k);
      AllUpdate(gs, 0, Drop(gs[0], k));
    }
  }

  lemma AllRest(gs: seq<Group>)
    requires gs != [] && |gs[0]| == 1
    ensures All(gs[1..]) == All(gs) - multiset{gs[0][0]}
  {
    assert gs[0] == [gs[0][0]];
  }

  lemma AllFirst(gs: seq<Group>, k: nat)
    requires gs != [] && k < |gs[0]|
    ensures gs[0][k] in All(gs)
  {}

  lemma AddToAll(gs: seq<Group>, l: Loc)
    requires GroupsOk(gs) && l.addr.Ip? && Lookup(gs, l.addr).None?
    ensures All(AddTo(gs, l)) == All(gs) + multiset{l}
  {
    hide All, GroupsOk, Place;
    var p := GroupPlace(gs, Rank(l.addr));
    if HasGroup(gs, Rank(l.addr)) {
      var g, k := gs[p], Place(gs[p], l.addr);
      assert g == g[..k] + g[k..];
      assert multiset(g[..k] + [l] + g[k..]) == multiset(g) + multiset{l};
      AllUpdate(gs, p, AddToGroup(g, l));
    } else {
      AllInsert(gs, p, [l]);
    }
  }

  lemma WokenAll(gs: seq<Group>, id: int, a: Addr)
    requires GroupsOk(gs) && IsInactive(gs, id) && a.Ip? && Lookup(gs, a).None?
    ensures Inactive(gs) == gs[0] && gs[0] != []
    ensures var l := gs[0][FirstId(gs[0], id)];
            l in All(gs) && l.id == id && All(Woken(gs, id, a)) == All(gs) - multiset{l} + multiset{l.(addr := a)}
  {
    hide GroupsOk, FirstId, All, Lookup, AddTo, Dropped;
    GroupPlaceIs0(gs);
    var k := FirstId(gs[0], id);
    DroppedAll(gs, k);
    DroppedMeans(gs, k, a);
    AddToAll(Dropped(gs, k), gs[0][k].(addr := a));
  }

  /** The locators of some identities are gone; the others are all there. */
  ghost predicate Gone(m: multiset<Loc>, m': multiset<Loc>, ids: seq<int>) {
    forall x :: m'[x] == if x.id in ids then 0 else m[x]
  }

  lemma GoneOne(m: multiset<Loc>, l: Loc)
    requires SingleIds(m) && l in m
    ensures Gone(m, m - multiset{l}, [l.id]) && SingleIds(m - multiset{l})
  {
    forall x | x in m - multiset{l}
      ensures x.id != l.id
    {}
  }

  lemma GoneMore(m: multiset<Loc>, m1: multiset<Loc>, m2: multiset<Loc>, ids: seq<int>)
    requires ids != [] && Gone(m, m1, [ids[0]]) && Gone(m1, m2, ids[1..])
    ensures Gone(m, m2, ids)
  {
    forall x: Loc
      ensures m2[x] == if x.id in ids then 0 else m[x]
    {
      MemberOf(x.id, ids);
    }
  }

  lemma DuplicateGone(gs: seq<Group>, id: int)
    requires GroupsOk(gs) && DistinctIds(gs) && IsInactive(gs, id)
    ensures var ds := Unlisted(gs, id); Gone(All(gs), All(ds), [id]) && DistinctIds(ds)
  {
    hide GroupsOk, FirstId, DistinctIds, All, SingleIds, Gone, Unlisted;
    UnlistedAll(gs, id);
    DistinctIff(gs);
    GoneOne(All(gs), gs[0][FirstId(gs[0], id)]);
    DistinctIff(Unlisted(gs, id));
  }

  lemma {:induction false} DuplicatesGone(gs: seq<Group>, ids: seq<int>, a: Addr)
    requires GroupsOk(gs) && DistinctIds(gs) && AllInactive(gs, ids) && a.Ip? && Lookup(gs, a).Some?
    ensures Gone(All(gs), All(InformedAll(gs, ids, a)), ids)
    decreases |ids|
  {
    hide GroupsOk, FirstId, Lookup, DistinctIds, All, SingleIds, Gone, Count;
    if ids == [] {
      assert Gone(All(gs), All(gs), []) by { NoneGone(All(gs)); }
    } else {
      FirstInactive(gs, ids);
      DuplicateGone(gs, ids[0]);
      var k := FirstId(gs[0], ids[0]);
      var ds := Unlisted(gs, ids[0]);
      DroppedMeans(gs, k, a);
      StillInactive(gs[0], k, ids);
      if |gs[0]| > 1 {
        assert ds == Dropped(gs, k);
        DuplicatesGone(ds, ids[1..], a);
        GoneMore(All(gs), All(ds), All(InformedAll(ds, ids[1..], a)), ids);
      } else {
        OnlyOne(gs[0], ids);
        assert ids == [ids[0]];
      }
    }
  }

  lemma NoneGone(m: multiset<Loc>)
    ensures Gone(m, m, [])
  {}

  /** Of some identities those left have the address and are otherwise as before; all other locators are as before. */
  ghost predicate Moves(m: multiset<Loc>, m': multiset<Loc>, ids: seq<int>, left: seq<int>, a: Addr) {
    && (forall x: Loc :: x.id !in ids ==> m'[x] == m[x])
    && (forall x :: x in m' && x.id in ids ==> x.id in left && x.addr == a && WasThere(m, x))
  }

  ghost predicate WasThere(m: multiset<Loc>, x: Loc) {
    exists y :: y in m && x == y.(addr := x.addr)
  }

  lemma ReplacedMoves(m: multiset<Loc>, l: Loc, a: Addr)
    requires SingleIds(m) && l in m
    ensures var m' := m - multiset{l} + multiset{l.(addr := a)};
            SingleIds(m') && Moves(m, m', [l.id], [l.id], a)
  {
    hide SingleIds;
    var n, l' := m - multiset{l}, l.(addr := a);
    GoneOne(m, l);
    OneSingle(l');
    assert forall x :: x in n ==> n[x] != 0 && x.id !in [l.id];
    SingleSum(n, multiset{l'});
    MovedOne(m, n, l, a);
  }

  lemma MovedOne(m: multiset<Loc>, n: multiset<Loc>, l: Loc, a: Addr)
    requires l in m && Gone(m, n, [l.id])
    ensures Moves(m, n + multiset{l.(addr := a)}, [l.id], [l.id], a)
  {
    assert WasThere(m, l.(addr := a));
  }

  lemma MovesThenGone(m: multiset<Loc>, m1: multiset<Loc>, m2: multiset<Loc>, ids: seq<int>, a: Addr)
    requires ids != [] && Moves(m, m1, [ids[0]], [ids[0]], a) && Gone(m1, m2, ids[1..])
    ensures Moves(m, m2, ids, [ids[0]], a)
  {
    forall x: Loc
      ensures x.id !in ids ==> m2[x] == m[x]
      ensures x in m2 && x.id in ids ==> x.id in [ids[0]] && x.addr == a && WasThere(m, x)
    {
      MemberOf(x.id, ids);
    }
  }

  lemma GoneMoves(m: multiset<Loc>, m': multiset<Loc>, ids: seq<int>, a: Addr)
    requires Gone(m, m', ids)
    ensures Moves(m, m', ids, [], a)
  {}

  lemma GoneSingle(m: multiset<Loc>, m': multiset<Loc>, ids: seq<int>)
    requires SingleIds(m) && Gone(m, m', ids)
    ensures SingleIds(m')
  {
    forall x, y | x in m' && y in m' - multiset{x}
      ensures x.id != y.id
    {
      assert m'[y] <= m[y] && x in m && y in m - multiset{x};
    }
  }

  /**
    An address event that fits: of the locators of the interface exactly those left are still
    there, under the new address and otherwise unchanged, and every other locator is as it was.
   */
  lemma EventContents(gs: seq<Group>, ids: seq<int>, cur: Addr, a: Addr)
    requires GroupsOk(gs) && DistinctIds(gs) && Tied(gs, ids, cur) && a.Ip?
    requires (cur.Ip? ==> Rank(cur) == Rank(a) && cur != a) && Fits(gs, ids, cur, a)
    ensures var after := AfterEvent(gs, ids, a);
            DistinctIds(after) && Moves(All(gs), All(after), ids, Left(gs, ids, cur, a), a)
  {
    hide GroupsOk, IsAt, Lookup, Sorted, DistinctIds, All, Moves, Gone, SingleIds;
    var r := InformedAll(gs, ids, a);
    DistinctIff(gs);
    if ids == [] {
      SortedSame(gs, a);
      NoneGone(All(gs));
      GoneMoves(All(gs), All(gs), [], a);
    } else if cur.Ip? {
      ReplacedContents(gs, ids, cur, a);
    } else {
      TiedInactive(gs, ids);
      if Lookup(gs, a).None? {
        WokenOkIff(gs, ids, a);
        WokenContents(gs, ids, a);
      } else {
        DuplicatesOkIff(gs, ids, a);
        DuplicatesGone(gs, ids, a);
        GoneSingle(All(gs), All(r), ids);
        GoneMoves(All(gs), All(r), ids, a);
        DistinctIff(r);
      }
      SortedSame(r, a);
    }
  }

  lemma ReplacedContents(gs: seq<Group>, ids: seq<int>, cur: Addr, a: Addr)
    requires GroupsOk(gs) && DistinctIds(gs) && Tied(gs, ids, cur) && ids != [] && Lookup(gs, a).None?
    requires a.Ip? && cur.Ip? && Rank(cur) == Rank(a) && cur != a
    ensures var after := AfterEvent(gs, ids, a);
            DistinctIds(after) && Moves(All(gs), All(after), ids, ids, a)
  {
    hide GroupsOk, Lookup, Sorted, FirstId, Inactive, All, Moves;
    TiedOnce(gs, ids, cur);
    assert IsAt(gs, ids[0], cur);
    var p, j :| 0 <= p < |gs| && 0 <= j < |gs[p]| && gs[p][j].id == ids[0] && gs[p][j].addr == cur;
    NotInactive(gs, p, j);
    OverwrittenIs(gs, p, j, a);
    assert InformedAll(gs, ids, a) == Overwritten(gs, ids[0], a);
    ReplacedAt(gs, p, j, a);
    assert ids == [ids[0]];
  }

  lemma ReplacedAt(gs: seq<Group>, p: nat, j: nat, a: Addr)
    requires GroupsOk(gs) && DistinctIds(gs) && p < |gs| && j < |gs[p]| && Lookup(gs, a).None?
    requires a.Ip? && gs[p][j].addr.Ip? && Rank(gs[p][j].addr) == Rank(a) && gs[p][j].addr != a
    ensures var r, id := Sorted(gs[p := Moved(gs[p], j, a)], a), gs[p][j].id;
            DistinctIds(r) && Moves(All(gs), All(r), [id], [id], a)
  {
    hide GroupsOk, Lookup, Sorted, All, Moves, SingleIds, Resort, Unused, Moved;
    assert forall i :: 0 <= i < |gs[p]| && i != j ==> gs[p][i].id != gs[p][j].id;
    ChangeMeans(gs, p, j, a);
    UnusedIff(gs, p, j, a);
    var r := Sorted(gs[p := Moved(gs[p], j, a)], a);
    MovedAll(gs, p, j, a, r[p]);
    DistinctIff(gs);
    ReplacedMoves(All(gs), gs[p][j], a);
    DistinctIff(r);
  }

  lemma MovedAll(gs: seq<Group>, p: nat, j: nat, a: Addr, g: Group)
    requires p < |gs| && j < |gs[p]| && multiset(g) == multiset(Moved(gs[p], j, a))
    ensures gs[p][j] in All(gs)
    ensures All(gs[p := g]) == All(gs) - multiset{gs[p][j]} + multiset{gs[p][j].(addr := a)}
  {
    hide All;
    AllUpdate(gs, p, g);
    MovedGroup(gs[p], j, a);
    Exchanged(All(gs), multiset(gs[p]), gs[p][j], gs[p][j].(addr := a));
  }

  lemma MovedGroup(g: Group, j: nat, a: Addr)
    requires j < |g|
    ensures g[j] in multiset(g) && multiset(Moved(g, j, a)) == multiset(g) - multiset{g[j]} + multiset{g[j].(addr := a)}
  {}

  lemma Exchanged(m: multiset<Loc>, n: multiset<Loc>, l: Loc, l': Loc)
    requires n <= m && l in n
    ensures m - n + (n - multiset{l} + multiset{l'}) == m - multiset{l} + multiset{l'}
  {}

  lemma WokenContents(gs: seq<Group>, ids: seq<int>, a: Addr)
    requires GroupsOk(gs) && DistinctIds(gs) && AllInactive(gs, ids) && a.Ip? && Lookup(gs, a).None? && ids != []
    ensures var r := InformedAll(gs, ids, a);
            DistinctIds(r) && Moves(All(gs), All(r), ids, ids[..1], a)
  {
    hide GroupsOk, Lookup, DistinctIds, All, Moves, Gone, SingleIds, Informed, AllInactive;
    WokenFirst(gs, ids, a);
    var ds := Informed(gs, ids[0], a);
    var r := InformedAll(ds, ids[1..], a);
    DuplicatesGone(ds, ids[1..], a);
    MovesThenGone(All(gs), All(ds), All(r), ids, a);
    DistinctIff(ds);
    GoneSingle(All(ds), All(r), ids[1..]);
    DistinctIff(r);
    assert ids[..1] == [ids[0]];
  }

  /** The first inactive locator has taken the address; the others of the interface are now duplicates. */
  lemma WokenFirst(gs: seq<Group>, ids: seq<int>, a: Addr)
    requires GroupsOk(gs) && DistinctIds(gs) && AllInactive(gs, ids) && a.Ip? && Lookup(gs, a).None? && ids != []
    ensures var ds := Informed(gs, ids[0], a);
            && GroupsOk(ds) && DistinctIds(ds) && AllInactive(ds, ids[1..]) && Lookup(ds, a).Some?
            && Moves(All(gs), All(ds), [ids[0]], [ids[0]], a)
  {
    hide GroupsOk, FirstId, Lookup, AddTo, Count, DistinctIds, All, Moves, SingleIds;
    FirstInactive(gs, ids);
    var k := FirstId(gs[0], ids[0]);
    ActivationMeans(gs, ids[0], a, a);
    var ds := Activated(gs, ids[0], a);
    assert ds == Informed(gs, ids[0], a);
    StillInactive(gs[0], k, ids);
    WokenAll(gs, ids[0], a);
    DistinctIff(gs);
    ReplacedMoves(All(gs), gs[0][k], a);
    DistinctIff(ds);
  }

  // ---------- what stays on the interface ----------

  /** The locators of a mapping that the event's loop leaves on the interface. */
  function Staying(gs: seq<Group>, ids: seq<int>, a: Addr): seq<int>
    decreases |ids|
  {
    if ids == [] then []
    else (if IsInactive(gs, ids[0]) && Lookup(gs, a).Some? then [] else [ids[0]])
         + Staying(Informed(gs, ids[0], a), ids[1..], a)
  }

  lemma {:induction false} EachStays(maps: Maps, entryOf: map<int, int>, locs: seq<int>, a: Addr, e: int)
    requires e in maps
    ensures Mine(Remaining(maps, entryOf, locs, a), entryOf, e) == Staying(maps[e], Mine(locs, entryOf, e), a)
    decreases |locs|
  {
    hide Informed, Lookup, IsInactive;
    if locs != [] {
      var l := locs[0];
      var next := Informing(maps, entryOf, l, a);
      EachStays(next, entryOf, locs[1..], a, e);
      var here := if IsDuplicate(maps, entryOf, l, a) then [] else [l];
      var rest := Mine(locs[1..], entryOf, e);
      MineJoin(here, Remaining(next, entryOf, locs[1..], a), entryOf, e);
      if l in entryOf && entryOf[l] == e {
        assert ([l] + rest)[1..] == rest;
      } else {
        assert [] + rest == rest;
      }
    }
  }

  lemma MineJoin(here: seq<int>, locs: seq<int>, entryOf: map<int, int>, e: int)
    requires |here| <= 1
    ensures Mine(here + locs, entryOf, e)
         == (if here != [] && here[0] in entryOf && entryOf[here[0]] == e then here else []) + Mine(locs, entryOf, e)
  {
    if here == [] {
      assert here + locs == locs;
    } else {
      assert (here + locs)[1..] == locs;
    }
  }

  lemma {:induction false} DuplicatesLeave(gs: seq<Group>, ids: seq<int>, a: Addr)
    requires GroupsOk(gs) && AllInactive(gs, ids) && a.Ip? && Lookup(gs, a).Some?
    ensures Staying(gs, ids, a) == []
    decreases |ids|
  {
    hide GroupsOk, FirstId, Lookup, Count;
    if ids != [] {
      FirstInactive(gs, ids);
      var k := FirstId(gs[0], ids[0]);
      var ds := Unlisted(gs, ids[0]);
      DroppedMeans(gs, k, a);
      StillInactive(gs[0], k, ids);
      if |gs[0]| > 1 {
        assert ds == Dropped(gs, k);
        DuplicatesLeave(ds, ids[1..], a);
      } else {
        OnlyOne(gs[0], ids);
      }
    }
  }

  lemma StayingIsLeft(gs: seq<Group>, ids: seq<int>, cur: Addr, a: Addr)
    requires GroupsOk(gs) && DistinctIds(gs) && Tied(gs, ids, cur) && a.Ip?
    ensures Staying(gs, ids, a) == Left(gs, ids, cur, a)
  {
    hide GroupsOk, FirstId, Lookup, AddTo, Count, DistinctIds, Informed, Inactive;
    if ids == [] {
    } else if cur.Ip? {
      TiedOnce(gs, ids, cur);
      assert IsAt(gs, ids[0], cur);
      var p, j :| 0 <= p < |gs| && 0 <= j < |gs[p]| && gs[p][j].id == ids[0] && gs[p][j].addr == cur;
      NotInactive(gs, p, j);
      assert ids == [ids[0]] + [];
    } else {
      TiedInactive(gs, ids);
      if Lookup(gs, a).Some? { DuplicatesLeave(gs, ids, a); } else { WokenLeaves(gs, ids, a); }
    }
  }

  lemma WokenLeaves(gs: seq<Group>, ids: seq<int>, a: Addr)
    requires GroupsOk(gs) && DistinctIds(gs) && AllInactive(gs, ids) && a.Ip? && Lookup(gs, a).None? && ids != []
    ensures Staying(gs, ids, a) == ids[..1]
  {
    hide GroupsOk, DistinctIds, AllInactive, Lookup, Informed, Moves, All;
    WokenFirst(gs, ids, a);
    DuplicatesLeave(Informed(gs, ids[0], a), ids[1..], a);
  }

  // ---------- events of all interfaces ----------

  /** The local mappings with the interfaces; entryOf and attached as the router has them. */
  datatype World = World(entryOf: map<int, int>, attached: seq<seq<int>>, maps: Maps, state: I.State)

  function Fam(s: I.State, i: nat, v6: bool): I.Family
    requires i < |s.ifaces|
  {
    if v6 then s.ifaces[i].v6 else s.ifaces[i].v4
  }

  function Attached(w: World, i: nat): seq<int> {
    if i < |w.attached| then w.attached[i] else []
  }

  function AddrOf(v6: bool, cur: Option<nat>): Addr {
    if cur.Some? then Ip(v6, cur.value) else NoAddr
  }

  /** The locators of a family in one mapping have the address of the family, and the mapping is sorted with it. */
  ghost predicate EntryOk(w: World, i: nat, v6: bool, e: int)
    requires i < |w.state.ifaces| && e in w.maps
  {
    var f := Fam(w.state, i, v6);
    var ids := Mine(f.locs, w.entryOf, e);
    Tied(w.maps[e], ids, AddrOf(v6, f.cur)) && (ids != [] ==> e in Attached(w, i))
  }

  ghost predicate Shares(f: I.Family, g: I.Family) {
    exists l :: l in f.locs && l in g.locs
  }

  /** A locator is on one family of one interface. */
  ghost predicate Apart(s: I.State) {
    forall i, v, j, w :: 0 <= i < |s.ifaces| && 0 <= j < |s.ifaces| && (i != j || v != w) ==> !Shares(Fam(s, i, v), Fam(s, j, w))
  }

  ghost predicate InOrder(w: World) {
    forall e :: e in w.maps ==> GroupsOk(w.maps[e])
  }

  ghost predicate Tidy(w: World) {
    && InOrder(w) && Apart(w.state)
    && (forall e :: e in w.maps ==> DistinctIds(w.maps[e]))
    && (forall i, v, e :: 0 <= i < |w.state.ifaces| && e in w.maps ==> EntryOk(w, i, v, e))
  }

  /** An event as the router handles it: the locators left are those that its loop leaves. */
  ghost predicate Happens(w: World, e: I.Event) {
    && I.Enabled(w.state, e)
    && (e.Address? ==> e.left == Remaining(w.maps, w.entryOf, Fam(w.state, e.i, e.v6).locs, Ip(e.v6, e.new_)))
  }

  /** What Router.AddressEvent and Router.StatusEvent do; ticks and rounds leave the mappings alone. */
  ghost function Next(w: World, e: I.Event): World
    requires Happens(w, e)
  {
    w.(state := I.Step(w.state, e), maps := NextMaps(w, e))
  }

  ghost function NextMaps(w: World, e: I.Event): Maps
    requires Happens(w, e)
  {
    match e
    case Address(i, v6, new_, _) =>
      var f := Fam(w.state, i, v6);
      if f.cur == Some(new_) then w.maps else AfterAll(w.maps, w.entryOf, f.locs, Attached(w, i), Ip(v6, new_))
    case Status(i) =>
      var x := w.state.ifaces[i];
      AfterStatus(w.maps, w.entryOf, x.v4.locs, x.v6.locs, !x.up)
    case _ => w.maps
  }

  /** The new address, if it is one, fits every mapping. */
  ghost predicate FitsAll(w: World, e: I.Event)
    requires Happens(w, e)
  {
    e.Address? && Fam(w.state, e.i, e.v6).cur != Some(e.new_) ==>
      forall m :: m in w.maps ==> FitsEntry(w, e, m)
  }

  ghost predicate FitsEntry(w: World, e: I.Event, m: int)
    requires Happens(w, e) && e.Address? && m in w.maps
  {
    var f := Fam(w.state, e.i, e.v6);
    Fits(w.maps[m], Mine(f.locs, w.entryOf, m), AddrOf(e.v6, f.cur), Ip(e.v6, e.new_))
  }

  // ---------- an address event ----------

  ghost predicate NewAddr(w: World, e: I.Event) {
    Happens(w, e) && e.Address? && Fam(w.state, e.i, e.v6).cur != Some(e.new_)
  }

  /** One mapping after an address event. */
  lemma AddressEntry(w: World, e: I.Event, m: int)
    requires Tidy(w) && NewAddr(w, e) && m in w.maps
    ensures var f, a := Fam(w.state, e.i, e.v6), Ip(e.v6, e.new_);
            var ids, cur := Mine(f.locs, w.entryOf, m), AddrOf(e.v6, f.cur);
            && NextMaps(w, e).Keys == w.maps.Keys && NextMaps(w, e)[m] == AfterEvent(w.maps[m], ids, a)
            && GroupsOk(w.maps[m]) && DistinctIds(w.maps[m]) && Tied(w.maps[m], ids, cur)
            && (cur.Ip? ==> Rank(cur) == Rank(a) && cur != a)
            && Mine(e.left, w.entryOf, m) == Left(w.maps[m], ids, cur, a)
  {
    hide GroupsOk, DistinctIds, Tied, Sorted, Mine, InformingAll, Remaining, Apart, Staying, Left;
    var f, a := Fam(w.state, e.i, e.v6), Ip(e.v6, e.new_);
    var ids := Mine(f.locs, w.entryOf, m);
    assert EntryOk(w, e.i, e.v6, m);
    EachInformed(w.maps, w.entryOf, f.locs, a, m);
    if m !in Attached(w, e.i) {
      assert InformedAll(w.maps[m], ids, a) == w.maps[m];
      SortedSame(w.maps[m], a);
    }
    EachStays(w.maps, w.entryOf, f.locs, a, m);
    StayingIsLeft(w.maps[m], ids, AddrOf(e.v6, f.cur), a);
  }

  lemma AddressOrderIff(w: World, e: I.Event)
    requires Tidy(w) && NewAddr(w, e)
    ensures InOrder(Next(w, e)) <==> FitsAll(w, e)
    ensures forall m :: m in w.maps ==> m in NextMaps(w, e) && (GroupsOk(NextMaps(w, e)[m]) <==> FitsEntry(w, e, m))
  {
    hide Tidy, GroupsOk, DistinctIds, Tied, Mine, AfterEvent, Fits, Left, NextMaps, Remaining;
    forall m | m in w.maps
      ensures m in NextMaps(w, e) && (GroupsOk(NextMaps(w, e)[m]) <==> FitsEntry(w, e, m))
    {
      AddressEntry(w, e, m);
      var f := Fam(w.state, e.i, e.v6);
      EventKeepsIff(w.maps[m], Mine(f.locs, w.entryOf, m), AddrOf(e.v6, f.cur), Ip(e.v6, e.new_));
    }
    AddressKeys(w, e);
  }

  lemma AddressKeys(w: World, e: I.Event)
    requires Tidy(w) && NewAddr(w, e)
    ensures NextMaps(w, e).Keys == w.maps.Keys
  {
    hide Tidy, Remaining;
    var f, a := Fam(w.state, e.i, e.v6), Ip(e.v6, e.new_);
    InformingKeys(w.maps, w.entryOf, f.locs, a);
  }

  lemma {:induction false} InformingKeys(maps: Maps, entryOf: map<int, int>, locs: seq<int>, a: Addr)
    ensures InformingAll(maps, entryOf, locs, a).Keys == maps.Keys
    decreases |locs|
  {
    hide Informed;
    if locs != [] { InformingKeys(Informing(maps, entryOf, locs[0], a), entryOf, locs[1..], a); }
  }

  lemma AddressTidy(w: World, e: I.Event)
    requires Tidy(w) && NewAddr(w, e) && FitsAll(w, e)
    ensures Tidy(Next(w, e))
  {
    hide GroupsOk, DistinctIds, EntryOk, NextMaps, Remaining, FitsEntry, Apart;
    var w' := Next(w, e);
    AddressOrderIff(w, e);
    AddressKeys(w, e);
    AddressApart(w, e);
    forall m | m in w'.maps
      ensures DistinctIds(w'.maps[m]) && forall j, v :: 0 <= j < |w'.state.ifaces| ==> EntryOk(w', j, v, m)
    {
      assert FitsEntry(w, e, m);
      AddressDistinct(w, e, m);
      forall j, v | 0 <= j < |w'.state.ifaces|
        ensures EntryOk(w', j, v, m)
      {
        if j == e.i && v == e.v6 { AddressSelf(w, e, m); } else { AddressOther(w, e, m, j, v); }
      }
    }
  }

  lemma AddressDistinct(w: World, e: I.Event, m: int)
    requires Tidy(w) && NewAddr(w, e) && m in w.maps && FitsEntry(w, e, m)
    ensures m in NextMaps(w, e) && DistinctIds(NextMaps(w, e)[m])
    ensures var f := Fam(w.state, e.i, e.v6);
            Moves(All(w.maps[m]), All(NextMaps(w, e)[m]), Mine(f.locs, w.entryOf, m), Mine(e.left, w.entryOf, m), Ip(e.v6, e.new_))
  {
    hide Tidy, GroupsOk, DistinctIds, Tied, Mine, AfterEvent, Fits, Left, NextMaps, Remaining, Moves, All;
    AddressEntry(w, e, m);
    var f := Fam(w.state, e.i, e.v6);
    EventContents(w.maps[m], Mine(f.locs, w.entryOf, m), AddrOf(e.v6, f.cur), Ip(e.v6, e.new_));
  }

  /** The family of the event: its locators that are left have the new address. */
  lemma AddressSelf(w: World, e: I.Event, m: int)
    requires Tidy(w) && NewAddr(w, e) && m in w.maps && FitsEntry(w, e, m) && m in NextMaps(w, e)
    ensures EntryOk(Next(w, e), e.i, e.v6, m)
  {
    hide GroupsOk, DistinctIds, Tied, Mine, AfterEvent, Fits, Left, NextMaps, Remaining, Apart, InOrder;
    AddressEntry(w, e, m);
    var f := Fam(w.state, e.i, e.v6);
    var ids, cur, a := Mine(f.locs, w.entryOf, m), AddrOf(e.v6, f.cur), Ip(e.v6, e.new_);
    EventKeepsIff(w.maps[m], ids, cur, a);
    assert EntryOk(w, e.i, e.v6, m);
    LeftSome(w.maps[m], ids, cur, a);
  }

  lemma LeftSome(gs: seq<Group>, ids: seq<int>, cur: Addr, a: Addr)
    ensures Left(gs, ids, cur, a) != [] ==> ids != []
  {}

  /** Any other family: none of its locators has been touched. */
  lemma AddressOther(w: World, e: I.Event, m: int, j: nat, v: bool)
    requires Tidy(w) && NewAddr(w, e) && m in w.maps && FitsEntry(w, e, m) && m in NextMaps(w, e)
    requires j < |w.state.ifaces| && (j != e.i || v != e.v6)
    ensures EntryOk(Next(w, e), j, v, m)
  {
    hide GroupsOk, DistinctIds, Mine, NextMaps, Remaining, InOrder, IsAt, All, FitsEntry;
    var f, g, w' := Fam(w.state, e.i, e.v6), Fam(w.state, j, v), Next(w, e);
    assert Fam(w'.state, j, v) == g;
    assert EntryOk(w, j, v, m) && !Shares(f, g);
    AddressDistinct(w, e, m);
    var ids, others, c := Mine(f.locs, w.entryOf, m), Mine(g.locs, w.entryOf, m), AddrOf(v, g.cur);
    forall k | 0 <= k < |others|
      ensures IsAt(w'.maps[m], others[k], c)
    {
      var id := others[k];
      assert id in others && IsAt(w.maps[m], others[k], c);
      MineIff(g.locs, w.entryOf, m, id);
      MineIff(f.locs, w.entryOf, m, id);
      assert id !in f.locs;
      StillAt(w.maps[m], w'.maps[m], ids, Mine(e.left, w.entryOf, m), Ip(e.v6, e.new_), id, c);
    }
  }

  lemma StillAt(gs: seq<Group>, hs: seq<Group>, ids: seq<int>, left: seq<int>, a: Addr, id: int, c: Addr)
    requires Moves(All(gs), All(hs), ids, left, a) && id !in ids && IsAt(gs, id, c)
    ensures IsAt(hs, id, c)
  {
    hide All, IsAt;
    IsAtIff(gs, id, c);
    IsAtIff(hs, id, c);
    var x :| x in All(gs) && x.id == id && x.addr == c;
    assert All(hs)[x] == All(gs)[x];
  }

  lemma AddressApart(w: World, e: I.Event)
    requires Tidy(w) && NewAddr(w, e)
    ensures Apart(Next(w, e).state)
  {
    hide EntryOk, InOrder, NextMaps, DistinctIds, Remaining;
    var s, s' := w.state, Next(w, e).state;
    RemainingSome(w.maps, w.entryOf, Fam(s, e.i, e.v6).locs, Ip(e.v6, e.new_));
    forall i, v, j, u | 0 <= i < |s'.ifaces| && 0 <= j < |s'.ifaces| && (i != j || v != u)
      ensures !Shares(Fam(s', i, v), Fam(s', j, u))
    {
      assert !Shares(Fam(s, i, v), Fam(s, j, u));
      FamilySome(w, e, i, v);
      FamilySome(w, e, j, u);
    }
  }

  lemma FamilySome(w: World, e: I.Event, i: nat, v: bool)
    requires NewAddr(w, e) && i < |w.state.ifaces|
    requires forall l :: l in e.left ==> l in Fam(w.state, e.i, e.v6).locs
    ensures i < |Next(w, e).state.ifaces|
    ensures forall l :: l in Fam(Next(w, e).state, i, v).locs ==> l in Fam(w.state, i, v).locs
  {
    hide NextMaps, Remaining;
  }

  lemma {:induction false} RemainingSome(maps: Maps, entryOf: map<int, int>, locs: seq<int>, a: Addr)
    ensures forall l :: l in Remaining(maps, entryOf, locs, a) ==> l in locs
    decreases |locs|
  {
    hide Informing, IsDuplicate;
    if locs != [] {
      RemainingSome(Informing(maps, entryOf, locs[0], a), entryOf, locs[1..], a);
    }
  }

  // ---------- a status event ----------

  /** The same identities with the same addresses in the same places. */
  ghost predicate SamePlaces(gs: seq<Group>, hs: seq<Group>) {
    && |gs| == |hs| && (forall p :: 0 <= p < |gs| ==> |gs[p]| == |hs[p]|)
    && (forall p, j :: 0 <= p < |gs| && 0 <= j < |gs[p]| ==> hs[p][j].id == gs[p][j].id && hs[p][j].addr == gs[p][j].addr)
  }

  lemma SamePlacesKeep(gs: seq<Group>, hs: seq<Group>)
    requires SamePlaces(gs, hs)
    ensures DistinctIds(gs) ==> DistinctIds(hs)
    ensures forall ids, c :: Tied(gs, ids, c) ==> Tied(hs, ids, c)
  {
    forall ids, c | Tied(gs, ids, c)
      ensures Tied(hs, ids, c)
    {
      forall i | 0 <= i < |ids| ensures IsAt(hs, ids[i], c) {
        assert IsAt(gs, ids[i], c);
        var p, j :| 0 <= p < |gs| && 0 <= j < |gs[p]| && gs[p][j].id == ids[i] && gs[p][j].addr == c;
        assert hs[p][j].id == ids[i] && hs[p][j].addr == c;
      }
    }
  }

  lemma StatusTidy(w: World, e: I.Event)
    requires Tidy(w) && Happens(w, e) && e.Status?
    ensures Tidy(Next(w, e))
  {
    hide GroupsOk, DistinctIds, Tied, Mine, StatingAll, Shares;
    var w', x := Next(w, e), w.state.ifaces[e.i];
    assert forall j, v :: 0 <= j < |w.state.ifaces| ==> Fam(w'.state, j, v) == Fam(w.state, j, v);
    StatusKeys(w.maps, w.entryOf, x.v4.locs, x.v6.locs, !x.up);
    forall m | m in w'.maps
      ensures GroupsOk(w'.maps[m]) && DistinctIds(w'.maps[m])
      ensures forall j, v :: 0 <= j < |w'.state.ifaces| ==> EntryOk(w', j, v, m)
    {
      StatusEventMeans(w.maps, w.entryOf, x.v4.locs, x.v6.locs, !x.up, m);
      assert SamePlaces(w.maps[m], w'.maps[m]);
      SamePlacesKeep(w.maps[m], w'.maps[m]);
      forall j, v | 0 <= j < |w'.state.ifaces|
        ensures EntryOk(w', j, v, m)
      {
        assert EntryOk(w, j, v, m);
      }
    }
  }

  lemma StatusKeys(maps: Maps, entryOf: map<int, int>, locs4: seq<int>, locs6: seq<int>, up: bool)
    ensures AfterStatus(maps, entryOf, locs4, locs6, up).Keys == maps.Keys
  {
    StatingKeys(maps, entryOf, locs4, up);
    StatingKeys(StatingAll(maps, entryOf, locs4, up), entryOf, locs6, up);
  }

  lemma {:induction false} StatingKeys(maps: Maps, entryOf: map<int, int>, locs: seq<int>, up: bool)
    ensures StatingAll(maps, entryOf, locs, up).Keys == maps.Keys
    decreases |locs|
  {
    hide StateSet;
    if locs != [] { StatingKeys(Stating(maps, entryOf, locs[0], up), entryOf, locs[1..], up); }
  }

  // ---------- runs ----------

  lemma IdleTidy(w: World, e: I.Event)
    requires Tidy(w) && Happens(w, e)
    requires e.BeginTick? || e.Fire? || e.EndTick? || (e.Address? && Fam(w.state, e.i, e.v6).cur == Some(e.new_))
    ensures Tidy(Next(w, e))
  {
    hide GroupsOk, DistinctIds, Tied, Mine, Shares, Remaining;
    var w' := Next(w, e);
    assert |w'.state.ifaces| == |w.state.ifaces|;
    assert forall j, v :: 0 <= j < |w.state.ifaces| ==>
             Fam(w'.state, j, v).locs == Fam(w.state, j, v).locs && Fam(w'.state, j, v).cur == Fam(w.state, j, v).cur;
    forall j, v, m | 0 <= j < |w'.state.ifaces| && m in w'.maps
      ensures EntryOk(w', j, v, m)
    {
      assert EntryOk(w, j, v, m);
    }
    forall i, v, j, u | 0 <= i < |w'.state.ifaces| && 0 <= j < |w'.state.ifaces| && (i != j || v != u)
      ensures !Shares(Fam(w'.state, i, v), Fam(w'.state, j, u))
    {
      assert !Shares(Fam(w.state, i, v), Fam(w.state, j, u));
      SharesSame(Fam(w.state, i, v), Fam(w.state, j, u), Fam(w'.state, i, v), Fam(w'.state, j, u));
    }
  }

  lemma SharesSame(f: I.Family, g: I.Family, f': I.Family, g': I.Family)
    requires f'.locs == f.locs && g'.locs == g.locs
    ensures Shares(f', g') <==> Shares(f, g)
  {}

  /** One event of any kind keeps every mapping in order exactly if it fits, and then all is as tidy as before. */
  lemma StepOrderIff(w: World, e: I.Event)
    requires Tidy(w) && Happens(w, e)
    ensures InOrder(Next(w, e)) <==> FitsAll(w, e)
    ensures FitsAll(w, e) ==> Tidy(Next(w, e))
  {
    hide Tidy, InOrder, Happens, Next, FitsEntry;
    TidyOrder(w);
    if NewAddr(w, e) {
      AddressOrderIff(w, e);
      if FitsAll(w, e) { AddressTidy(w, e); }
    } else {
      if e.Status? { StatusTidy(w, e); } else { IdleTidy(w, e); }
      TidyOrder(Next(w, e));
    }
  }

  lemma TidyOrder(w: World)
    requires Tidy(w)
    ensures InOrder(w)
  {}

  ghost predicate IsRun(w: World, es: seq<I.Event>)
    decreases |es|
  {
    es == [] || (Happens(w, es[0]) && IsRun(Next(w, es[0]), es[1..]))
  }

  ghost function After(w: World, es: seq<I.Event>): World
    requires IsRun(w, es)
    decreases |es|
  {
    if es == [] then w else After(Next(w, es[0]), es[1..])
  }

  /** Every mapping is in order before, between and after the events. */
  ghost predicate AlwaysInOrder(w: World, es: seq<I.Event>)
    requires IsRun(w, es)
    decreases |es|
  {
    InOrder(w) && (es != [] ==> AlwaysInOrder(Next(w, es[0]), es[1..]))
  }

  /** Each new address fits every mapping as it is when the address comes. */
  ghost predicate AlwaysFits(w: World, es: seq<I.Event>)
    requires IsRun(w, es)
    decreases |es|
  {
    es != [] ==> FitsAll(w, es[0]) && AlwaysFits(Next(w, es[0]), es[1..])
  }

  /**
    Over any sequence of address and status events of all interfaces, with ticks and rounds between
    them: every local mapping stays in order throughout if and only if each new address fits when
    it comes. In the end every locator still on an interface then has the address of the interface.
   */
  lemma {:induction false} OrderKeptIff(w: World, es: seq<I.Event>)
    requires Tidy(w) && IsRun(w, es)
    ensures AlwaysInOrder(w, es) <==> AlwaysFits(w, es)
    ensures AlwaysFits(w, es) ==> Tidy(After(w, es))
    decreases |es|
  {
    hide Tidy, InOrder, Happens, Next, FitsAll;
    TidyOrder(w);
    if es != [] {
      StepOrderIff(w, es[0]);
      if FitsAll(w, es[0]) {
        OrderKeptIff(Next(w, es[0]), es[1..]);
      } else {
        assert !InOrder(Next(w, es[0]));
      }
    }
  }
}
