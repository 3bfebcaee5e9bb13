/**
  A mapping and its locators (lispd/liblisp/lisp_mapping.c, lisp_locator.c): a list of lists, one
  for each address family in use, each sorted by address, and a count of the addressed locators.
  The value of an address is the number its bytes in network order spell, which is how they compare.
 */
module Mappings {
  import opened Options

  datatype Addr = NoAddr | Ip(v6: bool, value: nat)

  /** locator_t; id is its identity in memory. */
  datatype Loc = Loc(id: int, addr: Addr, up: bool, priority: nat, weight: nat, mpriority: nat, mweight: nat)

  type Group = seq<Loc>

  /** The order of families: no address, IPv4, IPv6. */
  function Rank(a: Addr): (r: nat)
    ensures r <= 2
  {
    if a.NoAddr? then 0 else if a.v6 then 2 else 1
  }

  /** locator_cmp_addr: no-address locators are equal only to themselves, and otherwise "smaller". */
  function CmpAddr(x: Loc, y: Loc): int {
    if Rank(x.addr) != Rank(y.addr) then -1
    else if x.addr.NoAddr? then if x.id == y.id then 0 else 2
    else if x.addr.value == y.addr.value then 0
    else if x.addr.value > y.addr.value then 1 else 2
  }

  /** locator_list_cmp_afi */
  function CmpAfi(g: Group, h: Group): int {
    if g == [] || h == [] then -2
    else if Rank(g[0].addr) > Rank(h[0].addr) then 1
    else if Rank(g[0].addr) < Rank(h[0].addr) then 2
    else 0
  }

  // ---------- the invariant ----------

  function Val(l: Loc): nat {
    if l.addr.Ip? then l.addr.value else 0
  }

  predicate Ascending(g: Group) {
    forall i, j :: 0 <= i < j < |g| ==> Val(g[i]) < Val(g[j])
  }

  predicate Homogeneous(g: Group, rank: nat) {
    forall i :: 0 <= i < |g| ==> Rank(g[i].addr) == rank
  }

  predicate GroupOk(g: Group) {
    g != [] && Homogeneous(g, Rank(g[0].addr)) && (g[0].addr.Ip? ==> Ascending(g))
  }

  predicate GroupsOk(gs: seq<Group>) {
    && (forall i :: 0 <= i < |gs| ==> GroupOk(gs[i]))
    && (forall i, j :: 0 <= i < j < |gs| ==> Rank(gs[i][0].addr) < Rank(gs[j][0].addr))
  }

  function Addressed(g: Group): nat {
    if g != [] && g[0].addr.Ip? then |g| else 0
  }

  /** The number of addressed locators in a list of groups. */
  function Count(gs: seq<Group>): nat {
    if gs == [] then 0 else Addressed(gs[0]) + Count(gs[1..])
  }

  // ---------- adding a locator ----------

  /** The place of an address in a sorted group: the first index whose address is not below it. */
  function Place(g: Group, a: Addr): (k: nat)
    ensures k <= |g|
    ensures forall i :: 0 <= i < k ==> g[i].addr.Ip? && a.Ip? && g[i].addr.value < a.value
    ensures k < |g| && a.Ip? && g[k].addr.Ip? ==> a.value <= g[k].addr.value
  {
    if g != [] && a.Ip? && g[0].addr.Ip? && g[0].addr.value < a.value then 1 + Place(g[1..], a) else 0
  }

  /** A group with a locator added: an address already there keeps the smaller priority value. */
  function AddToGroup(g: Group, l: Loc): Group {
    var k := Place(g, l.addr);
    if l.addr.Ip? && k < |g| && g[k].addr == l.addr then
      if g[k].priority > l.priority then g[k := l] else g
    else g[..k] + [l] + g[k..]
  }

  /** The place of a family among the groups. */
  function GroupPlace(gs: seq<Group>, rank: nat): (k: nat)
    ensures k <= |gs|
    ensures forall i :: 0 <= i < k ==> gs[i] != [] && Rank(gs[i][0].addr) < rank
    ensures k < |gs| && gs[k] != [] ==> rank <= Rank(gs[k][0].addr)
  {
    if gs != [] && gs[0] != [] && Rank(gs[0][0].addr) < rank then 1 + GroupPlace(gs[1..], rank) else 0
  }

  predicate HasGroup(gs: seq<Group>, rank: nat) {
    var p := GroupPlace(gs, rank);
    p < |gs| && gs[p] != [] && Rank(gs[p][0].addr) == rank
  }

  function AddTo(gs: seq<Group>, l: Loc): seq<Group> {
    var p := GroupPlace(gs, Rank(l.addr));
    if HasGroup(gs, Rank(l.addr)) then gs[p := AddToGroup(gs[p], l)]
    else gs[..p] + [[l]] + gs[p..]
  }

  predicate HasAddr(g: Group, a: Addr) {
    var k := Place(g, a);
    a.Ip? && k < |g| && g[k].addr == a
  }

  lemma InsertAscending(g: Group, k: nat, l: Loc)
    requires k <= |g| && Ascending(g)
    requires forall i :: 0 <= i < k ==> Val(g[i]) < Val(l)
    requires k < |g| ==> Val(l) < Val(g[k])
    ensures Ascending(g[..k] + [l] + g[k..])
  {
    assert forall i :: k <= i < |g| ==> Val(l) < Val(g[i]);
  }

  lemma ReplaceAscending(g: Group, k: nat, l: Loc)
    requires k < |g| && Ascending(g) && Val(g[k]) == Val(l)
    ensures Ascending(g[k := l])
  {}

  lemma InsertHomogeneous(g: Group, k: nat, l: Loc)
    requires k <= |g| && Homogeneous(g, Rank(l.addr))
    ensures Homogeneous(g[..k] + [l] + g[k..], Rank(l.addr))
    ensures k < |g| ==> Homogeneous(g[k := l], Rank(l.addr))
  {}

  lemma AddToGroupOk(g: Group, l: Loc)
    requires GroupOk(g) && Rank(g[0].addr) == Rank(l.addr)
    ensures var g' := AddToGroup(g, l);
            && GroupOk(g') && Rank(g'[0].addr) == Rank(l.addr)
            && |g'| == |g| + if HasAddr(g, l.addr) then 0 else 1
  {
    hide Ascending;
    var k := Place(g, l.addr);
    InsertHomogeneous(g, k, l);
    if l.addr.Ip? {
      if HasAddr(g, l.addr) {
        ReplaceAscending(g, k, l);
      } else {
        InsertAscending(g, k, l);
      }
    }
  }

  lemma PlaceIs(g: Group, a: Addr, k: nat)
    requires k <= |g| && a.Ip?
    requires forall i :: 0 <= i < k ==> g[i].addr.Ip? && g[i].addr.value < a.value
    requires k < |g| ==> g[k].addr.Ip? && a.value <= g[k].addr.value
    ensures Place(g, a) == k
  {}

  lemma GroupPlaceIs(gs: seq<Group>, rank: nat, p: nat)
    requires p <= |gs|
    requires forall i :: 0 <= i < p ==> gs[i] != [] && Rank(gs[i][0].addr) < rank
    requires p < |gs| ==> gs[p] != [] && rank <= Rank(gs[p][0].addr)
    ensures GroupPlace(gs, rank) == p
  {}

  lemma AddToOk(gs: seq<Group>, l: Loc)
    requires GroupsOk(gs)
    ensures GroupsOk(AddTo(gs, l))
  {
    hide AddToGroup, GroupOk;
    var p := GroupPlace(gs, Rank(l.addr));
    GroupsNonEmpty(gs);
    if HasGroup(gs, Rank(l.addr)) {
      assert GroupOk(gs[p]);
      AddToGroupOk(gs[p], l);
      GroupNonEmpty(AddToGroup(gs[p], l));
    } else {
      SingletonOk(l);
    }
  }

  lemma GroupNonEmpty(g: Group)
    requires GroupOk(g)
    ensures g != []
  {}

  lemma SingletonOk(l: Loc)
    ensures GroupOk([l])
  {}

  lemma GroupsNonEmpty(gs: seq<Group>)
    requires GroupsOk(gs)
    ensures forall i :: 0 <= i < |gs| ==> gs[i] != []
  {}

  // ---------- what a mapping holds ----------

  /** The locator stored for an address. */
  function Lookup(gs: seq<Group>, a: Addr): Option<Loc> {
    if a.Ip? && HasGroup(gs, Rank(a)) then FindIn(gs[GroupPlace(gs, Rank(a))], a) else None
  }

  function FindIn(g: Group, a: Addr): Option<Loc> {
    if HasAddr(g, a) then Some(g[Place(g, a)]) else None
  }

  /** The locators without address. */
  function Inactive(gs: seq<Group>): Group {
    if HasGroup(gs, 0) then gs[GroupPlace(gs, 0)] else []
  }

  /** Nothing is stored that the lookups do not find. */
  lemma EverythingFound(gs: seq<Group>, i: nat, j: nat)
    requires GroupsOk(gs) && i < |gs| && j < |gs[i]|
    ensures gs[i][j].addr.Ip? ==> Lookup(gs, gs[i][j].addr) == Some(gs[i][j])
    ensures gs[i][j].addr.NoAddr? ==> Inactive(gs) == gs[i]
  {
    var l := gs[i][j];
    assert GroupOk(gs[i]);
    GroupPlaceIs(gs, Rank(l.addr), i);
    if l.addr.Ip? {
      assert Ascending(gs[i]);
      PlaceIs(gs[i], l.addr, j);
    }
  }

  lemma FindIff(g: Group, a: Addr, x: Loc)
    requires GroupOk(g) && Rank(g[0].addr) == Rank(a) && a.Ip?
    ensures FindIn(g, a) == Some(x) <==> x in g && x.addr == a
  {
    if x in g && x.addr == a {
      var j :| 0 <= j < |g| && g[j] == x;
      assert Ascending(g);
      PlaceIs(g, a, j);
    }
  }

  lemma AddElements(g: Group, l: Loc, x: Loc)
    requires GroupOk(g) && Rank(g[0].addr) == Rank(l.addr) && l.addr.Ip?
    ensures x.addr != l.addr ==> (x in AddToGroup(g, l) <==> x in g)
    ensures FindIn(g, l.addr).None? ==> l in AddToGroup(g, l)
    ensures FindIn(g, l.addr).Some? ==>
              var e := FindIn(g, l.addr).value; (if e.priority > l.priority then l else e) in AddToGroup(g, l)
  {
    hide GroupOk;
    var k := Place(g, l.addr);
    if FindIn(g, l.addr).Some? {
      ReplaceElements(g, k, l, x);
    } else {
      InsertElements(g, k, l, x);
    }
  }

  lemma ReplaceElements(g: Group, k: nat, l: Loc, x: Loc)
    requires k < |g| && g[k].addr == l.addr
    ensures x.addr != l.addr ==> (x in g[k := l] <==> x in g)
    ensures l in g[k := l]
  {
    assert g[k := l][k] == l;
    assert forall i :: 0 <= i < |g| && i != k ==> g[k := l][i] == g[i];
  }

  lemma InsertElements(g: Group, k: nat, l: Loc, x: Loc)
    requires k <= |g|
    ensures x in g[..k] + [l] + g[k..] <==> x in g || x == l
  {
    assert g == g[..k] + g[k..];
  }

  /** The locator that stays of an old one and a new one for the same address. */
  function Better(old_: Option<Loc>, l: Loc): Loc {
    if old_.Some? && old_.value.priority <= l.priority then old_.value else l
  }

  /** What adding a locator to a group means for the addresses found in it. */
  lemma GroupLookup(g: Group, l: Loc, a: Addr)
    requires GroupOk(g) && Rank(g[0].addr) == Rank(l.addr) == Rank(a) && a.Ip?
    ensures FindIn(AddToGroup(g, l), a) == if a == l.addr then Some(Better(FindIn(g, a), l)) else FindIn(g, a)
  {
    hide GroupOk, FindIn, AddToGroup;
    var g' := AddToGroup(g, l);
    AddToGroupOk(g, l);
    GroupNonEmpty(g);
    GroupNonEmpty(g');
    if a == l.addr {
      var b := Better(FindIn(g, a), l);
      if FindIn(g, a).Some? { FindIff(g, a, FindIn(g, a).value); }
      AddElements(g, l, b);
      FindIff(g', a, b);
    } else {
      if FindIn(g, a).Some? {
        AddElements(g, l, FindIn(g, a).value);
        FindIff(g, a, FindIn(g, a).value);
        FindIff(g', a, FindIn(g, a).value);
      } else if FindIn(g', a).Some? {
        AddElements(g, l, FindIn(g', a).value);
        FindIff(g, a, FindIn(g', a).value);
        FindIff(g', a, FindIn(g', a).value);
      }
    }
  }

  /** Adding a locator, as the rest of the daemon sees it: every address, the inactive ones, the count. */
  lemma AddToMeans(gs: seq<Group>, l: Loc, a: Addr)
    requires GroupsOk(gs)
    ensures a.Ip? ==>
              Lookup(AddTo(gs, l), a) == if a == l.addr then Some(Better(Lookup(gs, a), l)) else Lookup(gs, a)
    ensures Inactive(AddTo(gs, l)) == (if l.addr.NoAddr? then [l] else []) + Inactive(gs)
  {
    hide GroupsOk, Lookup, Inactive, AddTo;
    if a.Ip? { AddToLookup(gs, l, a); }
    AddToInactive(gs, l);
  }

  lemma AddToLookup(gs: seq<Group>, l: Loc, a: Addr)
    requires GroupsOk(gs) && a.Ip?
    ensures Lookup(AddTo(gs, l), a) == if a == l.addr then Some(Better(Lookup(gs, a), l)) else Lookup(gs, a)
  {
    hide GroupOk, FindIn, AddToGroup;
    AddToOk(gs, l);
    GroupsNonEmpty(gs);
    GroupsNonEmpty(AddTo(gs, l));
    AddToPlaces(gs, l, Rank(a));
    SingletonFind(l, a);
    if HasGroup(gs, Rank(a)) && Rank(a) == Rank(l.addr) {
      GroupsMember(gs, GroupPlace(gs, Rank(a)));
      GroupLookup(gs[GroupPlace(gs, Rank(a))], l, a);
    }
  }

  lemma AddToInactive(gs: seq<Group>, l: Loc)
    requires GroupsOk(gs)
    ensures Inactive(AddTo(gs, l)) == (if l.addr.NoAddr? then [l] else []) + Inactive(gs)
  {
    hide GroupOk, AddToGroup;
    AddToOk(gs, l);
    GroupsNonEmpty(gs);
    GroupsNonEmpty(AddTo(gs, l));
    AddToPlaces(gs, l, 0);
    if l.addr.NoAddr? && HasGroup(gs, 0) { InactiveFront(gs[GroupPlace(gs, 0)], l); }
  }

  lemma InactiveFront(g: Group, l: Loc)
    requires l.addr.NoAddr?
    ensures AddToGroup(g, l) == [l] + g
  {}

  lemma SingletonFind(l: Loc, a: Addr)
    requires a.Ip?
    ensures FindIn([l], a) == if l.addr == a then Some(l) else None
  {}

  /** Where the group of a family is after an addition. */
  lemma AddToPlaces(gs: seq<Group>, l: Loc, rank: nat)
    requires GroupsOk(gs) && GroupsOk(AddTo(gs, l))
    ensures var gs' := AddTo(gs, l);
            var p, p' := GroupPlace(gs, rank), GroupPlace(gs', rank);
            if rank == Rank(l.addr) then
              HasGroup(gs', rank) && gs'[p'] == if HasGroup(gs, rank) then AddToGroup(gs[p], l) else [l]
            else (HasGroup(gs', rank) <==> HasGroup(gs, rank)) && (HasGroup(gs, rank) ==> gs'[p'] == gs[p])
  {
    hide GroupOk, AddToGroup, GroupsOk;
    GroupsNonEmpty(gs);
    GroupsRanks(gs);
    var q := GroupPlace(gs, Rank(l.addr));
    if HasGroup(gs, Rank(l.addr)) {
      assert GroupOk(gs[q]) by { GroupsMember(gs, q); }
      AddToGroupOk(gs[q], l);
      GroupNonEmpty(AddToGroup(gs[q], l));
      UpdatePlaces(gs, q, AddToGroup(gs[q], l), rank);
    } else {
      InsertPlaces(gs, l, rank);
    }
  }

  lemma GroupsMember(gs: seq<Group>, q: nat)
    requires GroupsOk(gs) && q < |gs|
    ensures GroupOk(gs[q])
  {}

  ghost predicate RanksAscend(gs: seq<Group>) {
    && (forall i :: 0 <= i < |gs| ==> gs[i] != [])
    && (forall i, j :: 0 <= i < j < |gs| ==> Rank(gs[i][0].addr) < Rank(gs[j][0].addr))
  }

  lemma GroupsRanks(gs: seq<Group>)
    requires GroupsOk(gs)
    ensures RanksAscend(gs)
  {}

  lemma UpdatePlaces(gs: seq<Group>, q: nat, g: Group, rank: nat)
    requires RanksAscend(gs) && q < |gs| && g != [] && Rank(g[0].addr) == Rank(gs[q][0].addr)
    ensures GroupPlace(gs[q := g], rank) == GroupPlace(gs, rank)
    ensures HasGroup(gs[q := g], rank) == HasGroup(gs, rank)
    ensures HasGroup(gs, rank) ==> (GroupPlace(gs, rank) == q <==> rank == Rank(g[0].addr))
  {
    GroupPlaceIs(gs[q := g], rank, GroupPlace(gs, rank));
  }

  lemma InsertPlaces(gs: seq<Group>, l: Loc, rank: nat)
    requires RanksAscend(gs) && !HasGroup(gs, Rank(l.addr))
    ensures var q, p := GroupPlace(gs, Rank(l.addr)), GroupPlace(gs, rank);
            var gs' := gs[..q] + [[l]] + gs[q..];
            && GroupPlace(gs', rank) == (if rank > Rank(l.addr) then p + 1 else p)
            && HasGroup(gs', rank) == (HasGroup(gs, rank) || rank == Rank(l.addr))
            && (rank == Rank(l.addr) ==> gs'[q] == [l])
            && (HasGroup(gs, rank) ==> gs'[if rank > Rank(l.addr) then p + 1 else p] == gs[p])
  {
    hide RanksAscend, Rank, GroupPlace;
    var q, p := GroupPlace(gs, Rank(l.addr)), GroupPlace(gs, rank);
    var gs' := gs[..q] + [[l]] + gs[q..];
    assert Inserted(gs, gs', q, l);
    PlacesOrdered(gs, Rank(l.addr), rank);
    if rank > Rank(l.addr) {
      InsertPlaceAbove(gs, gs', q, p, l, rank);
    } else {
      InsertPlaceBelow(gs, gs', q, p, l, rank);
    }
  }

  lemma PlacesOrdered(gs: seq<Group>, r: nat, s: nat)
    requires RanksAscend(gs)
    ensures r <= s ==> GroupPlace(gs, r) <= GroupPlace(gs, s)
    ensures s <= r ==> GroupPlace(gs, s) <= GroupPlace(gs, r)
    ensures s < r && GroupPlace(gs, s) == GroupPlace(gs, r) ==> !HasGroup(gs, s)
  {}

  ghost predicate Inserted(gs: seq<Group>, gs': seq<Group>, q: nat, l: Loc) {
    && q <= |gs| && |gs'| == |gs| + 1 && gs'[q] == [l]
    && (forall i :: 0 <= i < q ==> gs'[i] == gs[i])
    && (forall i :: q < i <= |gs| ==> gs'[i] == gs[i - 1])
  }

  lemma InsertPlaceAbove(gs: seq<Group>, gs': seq<Group>, q: nat, p: nat, l: Loc, rank: nat)
    requires RanksAscend(gs) && Inserted(gs, gs', q, l) && p == GroupPlace(gs, rank)
    requires q <= p && rank > Rank(l.addr)
    ensures GroupPlace(gs', rank) == p + 1 && HasGroup(gs', rank) == HasGroup(gs, rank)
  {
    forall i | 0 <= i < p + 1
      ensures gs'[i] != [] && Rank(gs'[i][0].addr) < rank
    {
      if i > q { assert gs'[i] == gs[i - 1]; }
    }
    GroupPlaceIs(gs', rank, p + 1);
  }

  lemma InsertPlaceBelow(gs: seq<Group>, gs': seq<Group>, q: nat, p: nat, l: Loc, rank: nat)
    requires RanksAscend(gs) && Inserted(gs, gs', q, l) && p == GroupPlace(gs, rank)
    requires p <= q && rank <= Rank(l.addr) && (rank == Rank(l.addr) ==> p == q)
    ensures GroupPlace(gs', rank) == p
    ensures HasGroup(gs', rank) == if p == q then rank == Rank(l.addr) else HasGroup(gs, rank)
  {
    GroupPlaceIs(gs', rank, p);
  }

  lemma {:induction false} CountUpdate(gs: seq<Group>, q: nat, g: Group)
    requires q < |gs|
    ensures Count(gs[q := g]) == Count(gs) - Addressed(gs[q]) + Addressed(g)
  {
    var gs' := gs[q := g];
    if q == 0 {
      assert gs'[1..] == gs[1..];
    } else {
      assert gs'[1..] == gs[1..][q - 1 := g];
      CountUpdate(gs[1..], q - 1, g);
    }
  }

  lemma {:induction false} CountInsert(gs: seq<Group>, q: nat, g: Group)
    requires q <= |gs|
    ensures Count(gs[..q] + [g] + gs[q..]) == Count(gs) + Addressed(g)
  {
    var gs' := gs[..q] + [g] + gs[q..];
    if q == 0 {
      assert gs'[1..] == gs;
    } else {
      assert gs'[1..] == gs[1..][..q - 1] + [g] + gs[1..][q - 1..];
      CountInsert(gs[1..], q - 1, g);
    }
  }

  /** The count goes up exactly when an address comes in that was not there. */
  lemma CountAdd(gs: seq<Group>, l: Loc)
    requires GroupsOk(gs)
    ensures Count(AddTo(gs, l)) == Count(gs) + if l.addr.Ip? && Lookup(gs, l.addr).None? then 1 else 0
  {
    hide AddToGroup, GroupsOk, GroupOk, HasAddr, Count;
    var q := GroupPlace(gs, Rank(l.addr));
    if HasGroup(gs, Rank(l.addr)) {
      GroupsMember(gs, q);
      AddToGroupOk(gs[q], l);
      GroupNonEmpty(AddToGroup(gs[q], l));
      CountUpdate(gs, q, AddToGroup(gs[q], l));
    } else {
      CountInsert(gs, q, [l]);
    }
  }

  // ---------- adding any sequence of locators ----------

  function AddAll(ls: seq<Loc>): seq<Group> {
    if ls == [] then [] else AddTo(AddAll(ls[..|ls| - 1]), ls[|ls| - 1])
  }

  /** The earliest locator of smallest priority value among those with an address. */
  ghost predicate IsBest(ls: seq<Loc>, i: nat)
    requires i < |ls|
  {
    && (forall j :: 0 <= j < |ls| && ls[j].addr == ls[i].addr ==> ls[i].priority <= ls[j].priority)
    && (forall j :: 0 <= j < i && ls[j].addr == ls[i].addr ==> ls[i].priority < ls[j].priority)
  }

  ghost predicate FromBest(ls: seq<Loc>, a: Addr, found: Option<Loc>) {
    match found
    case Some(l) => exists i :: 0 <= i < |ls| && IsBest(ls, i) && ls[i] == l && l.addr == a
    case None => forall i :: 0 <= i < |ls| ==> ls[i].addr != a
  }

  lemma BestStep(ls: seq<Loc>, l: Loc, a: Addr, found: Option<Loc>)
    requires FromBest(ls, a, found)
    ensures FromBest(ls + [l], a, if a == l.addr then Some(Better(found, l)) else found)
  {
    var ls' := ls + [l];
    if found.Some? {
      var i :| 0 <= i < |ls| && IsBest(ls, i) && ls[i] == found.value && found.value.addr == a;
      assert ls'[i] == ls[i];
      if a == l.addr && found.value.priority > l.priority {
        assert IsBest(ls', |ls|);
      } else {
        assert IsBest(ls', i);
      }
    } else if a == l.addr {
      assert IsBest(ls', |ls|);
    }
  }

  function InactiveOf(ls: seq<Loc>): Group {
    if ls == [] then []
    else (if ls[|ls| - 1].addr.NoAddr? then [ls[|ls| - 1]] else []) + InactiveOf(ls[..|ls| - 1])
  }

  /**
    Whatever locators are added, in whatever order: the groups are in order, every address keeps
    its best locator and the locators without address stand in front, the latest first.
   */
  lemma {:induction false} AddAllKeepsBest(ls: seq<Loc>, a: Addr)
    ensures GroupsOk(AddAll(ls))
    ensures a.Ip? ==> FromBest(ls, a, Lookup(AddAll(ls), a))
    ensures Inactive(AddAll(ls)) == InactiveOf(ls)
  {
    hide GroupsOk, FromBest, Lookup, AddTo, Inactive;
    if ls == [] {
      EmptyFacts(a);
    } else {
      var n := |ls| - 1;
      AddAllKeepsBest(ls[..n], a);
      AddToOk(AddAll(ls[..n]), ls[n]);
      AddToMeans(AddAll(ls[..n]), ls[n], a);
      assert ls == ls[..n] + [ls[n]];
      if a.Ip? { BestStep(ls[..n], ls[n], a, Lookup(AddAll(ls[..n]), a)); }
    }
  }

  lemma EmptyFacts(a: Addr)
    ensures GroupsOk([]) && Lookup([], a).None? && FromBest([], a, None) && Inactive([]) == []
  {}
}
