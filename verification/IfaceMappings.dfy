/**
  What an address event of an interface does to the local mappings (xtr_if_event in
  lispd/control/lisp_xtr.c): each locator of the interface is activated, dropped as a duplicate or
  given the new address where it stands, and then each mapping of the interface is sorted again.
 */
module IfaceMappings {
  import opened Options
  import opened Seqs
  import opened GenericList
  import opened Mappings
  import opened MappingStore

  // ---------- one mapping ----------

  /** An inactive locator taken off its list; the list stays, even if it is now empty. */
  function Unlisted(gs: seq<Group>, id: int): seq<Group>
    requires IsInactive(gs, id)
  {
    gs[0 := Drop(gs[0], FirstId(gs[0], id))]
  }

  /** An inactive locator when its interface gets an address: one for an address already there is a duplicate. */
  function Woken(gs: seq<Group>, id: int, a: Addr): seq<Group>
    requires IsInactive(gs, id)
  {
    if Lookup(gs, a).Some? then Unlisted(gs, id)
    else AddTo(Dropped(gs, FirstId(gs[0], id)), gs[0][FirstId(gs[0], id)].(addr := a))
  }

  function Relocated(g: Group, id: int, a: Addr): (r: Group)
    ensures |r| == |g|
    ensures forall i :: 0 <= i < |g| ==> r[i] == if g[i].id == id then g[i].(addr := a) else g[i]
  {
    seq(|g|, i requires 0 <= i < |g| => if g[i].id == id then g[i].(addr := a) else g[i])
  }

  /** locator_clone_addr: the locator gets the address where it stands */
  function Overwritten(gs: seq<Group>, id: int, a: Addr): (r: seq<Group>)
    ensures |r| == |gs|
    ensures forall i :: 0 <= i < |gs| ==> r[i] == Relocated(gs[i], id, a)
  {
    seq(|gs|, i requires 0 <= i < |gs| => Relocated(gs[i], id, a))
  }

  function Informed(gs: seq<Group>, id: int, a: Addr): seq<Group> {
    if IsInactive(gs, id) then Woken(gs, id, a) else Overwritten(gs, id, a)
  }

  function InformedAll(gs: seq<Group>, ids: seq<int>, a: Addr): seq<Group>
    decreases |ids|
  {
    if ids == [] then gs else InformedAll(Informed(gs, ids[0], a), ids[1..], a)
  }

  /** The event as one mapping sees it. */
  function AfterEvent(gs: seq<Group>, ids: seq<int>, a: Addr): seq<Group> {
    Sorted(InformedAll(gs, ids, a), a)
  }

  // ---------- when the mapping stays in order ----------

  ghost predicate DistinctIds(gs: seq<Group>) {
    forall p, j, q, k ::
      0 <= p < |gs| && 0 <= j < |gs[p]| && 0 <= q < |gs| && 0 <= k < |gs[q]| && gs[p][j].id == gs[q][k].id
      ==> p == q && j == k
  }

  ghost predicate IsAt(gs: seq<Group>, id: int, c: Addr) {
    exists p, j :: 0 <= p < |gs| && 0 <= j < |gs[p]| && gs[p][j].id == id && gs[p][j].addr == c
  }

  /** The locators of the interface in a mapping have the address of the interface, or none while it has none. */
  ghost predicate Tied(gs: seq<Group>, ids: seq<int>, cur: Addr) {
    NoRepeats(ids) && forall i :: 0 <= i < |ids| ==> IsAt(gs, ids[i], cur)
  }

  /** What must hold before the event. */
  ghost predicate Fits(gs: seq<Group>, ids: seq<int>, cur: Addr, a: Addr) {
    || ids == []
    || (cur.Ip? && Lookup(gs, a).None?)
    || (cur.NoAddr? && (|ids| < |Inactive(gs)| || (|ids| == 1 && Lookup(gs, a).None?)))
  }

  /** Sorting a mapping in order changes nothing. */
  lemma SortedSame(gs: seq<Group>, a: Addr)
    requires GroupsOk(gs) && a.Ip?
    ensures Sorted(gs, a) == gs
  {
    hide GroupOk, Insert, FirstAt;
    var p := GroupPlace(gs, Rank(a));
    if HasGroup(gs, Rank(a)) {
      var g := gs[p];
      GroupsMember(gs, p);
      var k := FirstAt(g, a);
      if k < |g| {
        ReplaceIsAdd(g, g[k], k);
        assert g[k := g[k]] == g;
      }
      assert gs[p := g] == gs;
    }
  }

  /** Two locators of one mapping never share an address. */
  lemma AddressOnce(gs: seq<Group>, i: int, j: int, c: Addr)
    requires GroupsOk(gs) && IsAt(gs, i, c) && IsAt(gs, j, c) && c.Ip?
    ensures i == j
  {
    hide GroupsOk, Lookup;
    var p, k :| 0 <= p < |gs| && 0 <= k < |gs[p]| && gs[p][k].id == i && gs[p][k].addr == c;
    var q, l :| 0 <= q < |gs| && 0 <= l < |gs[q]| && gs[q][l].id == j && gs[q][l].addr == c;
    EverythingFound(gs, p, k);
    EverythingFound(gs, q, l);
  }

  lemma TiedOnce(gs: seq<Group>, ids: seq<int>, cur: Addr)
    requires GroupsOk(gs) && Tied(gs, ids, cur) && cur.Ip?
    ensures |ids| <= 1
  {
    hide GroupsOk, IsAt;
    if |ids| > 1 { AddressOnce(gs, ids[0], ids[1], cur); }
  }

  // ---------- an address replaced ----------

  lemma OverwrittenIs(gs: seq<Group>, p: nat, j: nat, a: Addr)
    requires DistinctIds(gs) && p < |gs| && j < |gs[p]|
    ensures Overwritten(gs, gs[p][j].id, a) == gs[p := Moved(gs[p], j, a)]
  {
    var id := gs[p][j].id;
    var r := Overwritten(gs, id, a);
    forall i | 0 <= i < |gs|
      ensures r[i] == gs[p := Moved(gs[p], j, a)][i]
    {
      assert forall k :: 0 <= k < |gs[i]| ==> (gs[i][k].id == id <==> i == p && k == j);
      if i != p { assert Relocated(gs[i], id, a) == gs[i]; } else { assert Relocated(gs[p], id, a) == Moved(gs[p], j, a); }
    }
  }

  lemma UnusedIff(gs: seq<Group>, p: nat, j: nat, a: Addr)
    requires GroupsOk(gs) && p < |gs| && j < |gs[p]| && a.Ip? && Rank(a) == Rank(gs[p][j].addr) && a != gs[p][j].addr
    ensures Unused(gs[p], j, a) <==> Lookup(gs, a).None?
  {
    hide GroupOk, FindIn;
    GroupsMember(gs, p);
    Family(gs[p], j);
    GroupsNonEmpty(gs);
    GroupPlaceIs(gs, Rank(a), p) by { GroupsRanks(gs); }
    forall x
      ensures FindIn(gs[p], a) == Some(x) <==> x in gs[p] && x.addr == a
    {
      FindIff(gs[p], a, x);
    }
    if i :| 0 <= i < |gs[p]| && i != j && gs[p][i].addr == a {
      assert gs[p][i] in gs[p];
    }
  }

  /** The address of an addressed locator replaced, and the mapping sorted: in order exactly if the address is new to it. */
  lemma ReplacedOkIff(gs: seq<Group>, p: nat, j: nat, a: Addr)
    requires GroupsOk(gs) && DistinctIds(gs) && p < |gs| && j < |gs[p]| && gs[p][j].addr.Ip?
    requires Rank(a) == Rank(gs[p][j].addr) && a != gs[p][j].addr
    ensures GroupsOk(Sorted(gs[p := Moved(gs[p], j, a)], a)) <==> Lookup(gs, a).None?
    ensures GroupsOk(Sorted(gs[p := Moved(gs[p], j, a)], a)) ==> IsAt(Sorted(gs[p := Moved(gs[p], j, a)], a), gs[p][j].id, a)
  {
    hide GroupsOk, Resort, Lookup, Sorted, Unused;
    var r := Sorted(gs[p := Moved(gs[p], j, a)], a);
    assert forall i :: 0 <= i < |gs[p]| && i != j ==> gs[p][i].id != gs[p][j].id;
    ChangeMeans(gs, p, j, a);
    UnusedIff(gs, p, j, a);
    if GroupsOk(r) {
      assert Moved(gs[p], j, a)[j] in multiset(r[p]);
      assert Moved(gs[p], j, a)[j] in r[p];
    }
  }

  // ---------- a first address ----------

  lemma InactiveIs(gs: seq<Group>, id: int)
    requires GroupsOk(gs) && IsAt(gs, id, NoAddr)
    ensures IsInactive(gs, id) && Inactive(gs) == gs[0] && gs[0][0].addr.NoAddr?
  {
    hide GroupsOk, FirstId;
    var p, j :| 0 <= p < |gs| && 0 <= j < |gs[p]| && gs[p][j].id == id && gs[p][j].addr == NoAddr;
    EverythingFound(gs, p, j);
    GroupPlaceIs0(gs);
  }

  lemma InactiveAt(gs: seq<Group>, id: int)
    requires GroupsOk(gs) && Inactive(gs) != []
    ensures IsAt(gs, id, NoAddr) <==> HasId(Inactive(gs), id)
  {
    hide GroupsOk;
    GroupPlaceIs0(gs);
    if IsAt(gs, id, NoAddr) {
      var p, j :| 0 <= p < |gs| && 0 <= j < |gs[p]| && gs[p][j].id == id && gs[p][j].addr == NoAddr;
      EverythingFound(gs, p, j);
      assert Inactive(gs)[j].id == id;
    }
    if k :| 0 <= k < |Inactive(gs)| && Inactive(gs)[k].id == id {
      GroupsMember(gs, 0);
      Family(gs[0], k);
      assert gs[0][k].id == id && gs[0][k].addr == NoAddr;
    }
  }

  lemma LookupAt(gs: seq<Group>, a: Addr)
    requires Lookup(gs, a).Some?
    ensures IsAt(gs, Lookup(gs, a).value.id, a)
  {
    var p := GroupPlace(gs, Rank(a));
    assert gs[p][Place(gs[p], a)].addr == a;
  }

  ghost predicate HasId(g: Group, id: int) {
    exists j :: 0 <= j < |g| && g[j].id == id
  }

  ghost predicate HasIds(g: Group, ids: seq<int>) {
    forall i :: 0 <= i < |ids| ==> HasId(g, ids[i])
  }

  /** The other inactive locators are still inactive when one of them is not. */
  lemma StillInactive(g: Group, k: nat, ids: seq<int>)
    requires k < |g| && ids != [] && NoRepeats(ids) && g[k].id == ids[0] && HasIds(g, ids)
    ensures HasIds(Drop(g, k), ids[1..])
  {
    forall i | 0 <= i < |ids[1..]|
      ensures HasId(Drop(g, k), ids[1..][i])
    {
      var id := ids[1..][i];
      assert id == ids[i + 1] && ids[0] != ids[i + 1] && HasId(g, ids[i + 1]);
      var j :| 0 <= j < |g| && g[j].id == id;
      assert Drop(g, k)[if j < k then j else j - 1].id == id;
    }
  }

  ghost predicate AllInactive(gs: seq<Group>, ids: seq<int>) {
    NoRepeats(ids) && HasIds(Inactive(gs), ids)
  }

  lemma TiedInactive(gs: seq<Group>, ids: seq<int>)
    requires GroupsOk(gs) && Tied(gs, ids, NoAddr)
    ensures AllInactive(gs, ids)
  {
    hide GroupsOk, IsAt;
    forall i | 0 <= i < |ids|
      ensures HasId(Inactive(gs), ids[i])
    {
      InactiveIs(gs, ids[i]);
      InactiveAt(gs, ids[i]);
    }
  }

  lemma FirstInactive(gs: seq<Group>, ids: seq<int>)
    requires GroupsOk(gs) && AllInactive(gs, ids) && ids != []
    ensures IsInactive(gs, ids[0]) && Inactive(gs) == gs[0] && gs[0] != [] && gs[0][0].addr.NoAddr?
    ensures NoRepeats(ids[1..])
  {
    hide GroupsOk, FirstId;
    assert HasId(Inactive(gs), ids[0]);
    GroupPlaceIs0(gs);
  }

  /** While the address is there, every inactive locator of the interface is a duplicate; the last one leaves an empty list. */
  lemma {:induction false} DuplicatesOkIff(gs: seq<Group>, ids: seq<int>, a: Addr)
    requires GroupsOk(gs) && AllInactive(gs, ids) && a.Ip? && Lookup(gs, a).Some?
    ensures var r := InformedAll(gs, ids, a);
            && (GroupsOk(r) <==> ids == [] || |ids| < |Inactive(gs)|)
            && (GroupsOk(r) ==> Lookup(r, a) == Lookup(gs, a))
            && (!GroupsOk(r) ==> r != [] && r[0] == [])
    decreases |ids|
  {
    hide GroupsOk, FirstId, Lookup, AddTo, Count;
    if ids != [] {
      FirstInactive(gs, ids);
      var k := FirstId(gs[0], ids[0]);
      var ds := Unlisted(gs, ids[0]);
      DroppedMeans(gs, k, a);
      StillInactive(gs[0], k, ids);
      if |gs[0]| > 1 {
        assert ds == Dropped(gs, k);
        DuplicatesOkIff(ds, ids[1..], a);
      } else {
        assert ids[1..] == [] by { OnlyOne(gs[0], ids); }
        EmptyNotOk(ds);
      }
    }
  }

  lemma OnlyOne(g: Group, ids: seq<int>)
    requires |g| == 1 && NoRepeats(ids) && HasIds(g, ids)
    ensures |ids| <= 1
  {
    if |ids| > 1 {
      TwoDiffer(ids);
      assert false;
    }
  }

  lemma EmptyNotOk(gs: seq<Group>)
    requires gs != [] && gs[0] == []
    ensures !GroupsOk(gs) && forall a :: Sorted(gs, a) == gs
  {
    assert !GroupOk(gs[0]);
  }

  /** The first inactive locator takes a new address, the others of the interface are then its duplicates. */
  lemma WokenOkIff(gs: seq<Group>, ids: seq<int>, a: Addr)
    requires GroupsOk(gs) && AllInactive(gs, ids) && a.Ip? && Lookup(gs, a).None? && ids != []
    ensures var r := InformedAll(gs, ids, a);
            && (GroupsOk(r) <==> |ids| == 1 || |ids| < |Inactive(gs)|)
            && (GroupsOk(r) ==> IsAt(r, ids[0], a))
            && (!GroupsOk(r) ==> r != [] && r[0] == [])
  {
    hide GroupsOk, FirstId, Lookup, AddTo, Count, IsAt;
    FirstInactive(gs, ids);
    var k := FirstId(gs[0], ids[0]);
    ActivationMeans(gs, ids[0], a, a);
    var ds := Activated(gs, ids[0], a);
    assert ds == Informed(gs, ids[0], a);
    StillInactive(gs[0], k, ids);
    DuplicatesOkIff(ds, ids[1..], a);
    if GroupsOk(InformedAll(gs, ids, a)) { LookupAt(InformedAll(gs, ids, a), a); }
  }

  // ---------- the event ----------

  /** The locators that the interface still has in the mapping. */
  function Left(gs: seq<Group>, ids: seq<int>, cur: Addr, a: Addr): seq<int> {
    if ids == [] || cur.Ip? then ids else if Lookup(gs, a).None? then ids[..1] else []
  }

  /**
    An address event keeps a mapping in order if and only if the new address fits: it is new to the
    mapping, or the locators dropped as duplicates are not all the inactive ones. Where it fits, the
    locators that stay on the interface have the new address.
   */
  lemma EventKeepsIff(gs: seq<Group>, ids: seq<int>, cur: Addr, a: Addr)
    requires GroupsOk(gs) && DistinctIds(gs) && Tied(gs, ids, cur) && a.Ip?
    requires cur.Ip? ==> Rank(cur) == Rank(a) && cur != a
    ensures GroupsOk(AfterEvent(gs, ids, a)) <==> Fits(gs, ids, cur, a)
    ensures GroupsOk(AfterEvent(gs, ids, a)) ==> Tied(AfterEvent(gs, ids, a), Left(gs, ids, cur, a), a)
  {
    hide GroupsOk, IsAt, Lookup, Sorted, DistinctIds;
    if ids == [] {
      SortedSame(gs, a);
    } else if cur.Ip? {
      ReplacedEvent(gs, ids, cur, a);
    } else {
      var r := InformedAll(gs, ids, a);
      TiedInactive(gs, ids);
      if Lookup(gs, a).None? { WokenOkIff(gs, ids, a); } else { DuplicatesOkIff(gs, ids, a); }
      if GroupsOk(r) { SortedSame(r, a); } else { EmptyNotOk(r); }
    }
  }

  lemma ReplacedEvent(gs: seq<Group>, ids: seq<int>, cur: Addr, a: Addr)
    requires GroupsOk(gs) && DistinctIds(gs) && Tied(gs, ids, cur) && ids != []
    requires a.Ip? && cur.Ip? && Rank(cur) == Rank(a) && cur != a
    ensures |ids| == 1
    ensures var r := AfterEvent(gs, ids, a);
            (GroupsOk(r) <==> Lookup(gs, a).None?) && (GroupsOk(r) ==> IsAt(r, ids[0], a))
  {
    hide GroupsOk, Lookup, Sorted, FirstId, Inactive;
    TiedOnce(gs, ids, cur);
    assert IsAt(gs, ids[0], cur);
    var p, j :| 0 <= p < |gs| && 0 <= j < |gs[p]| && gs[p][j].id == ids[0] && gs[p][j].addr == cur;
    NotInactive(gs, p, j);
    OverwrittenIs(gs, p, j, a);
    assert InformedAll(gs, ids, a) == Overwritten(gs, ids[0], a);
    ReplacedOkIff(gs, p, j, a);
  }

  lemma NotInactive(gs: seq<Group>, p: nat, j: nat)
    requires GroupsOk(gs) && DistinctIds(gs) && p < |gs| && j < |gs[p]| && gs[p][j].addr.Ip?
    ensures !IsInactive(gs, gs[p][j].id)
  {
    hide GroupsOk;
    if Inactive(gs) != [] {
      GroupPlaceIs0(gs);
      GroupsMember(gs, 0);
      var k := FirstId(gs[0], gs[p][j].id);
      if k < |gs[0]| { Family(gs[0], k); }
    }
  }

  // ---------- a new status ----------

  function Restated(g: Group, id: int, up: bool): (r: Group)
    ensures |r| == |g|
    ensures forall i :: 0 <= i < |g| ==> r[i] == if g[i].id == id then g[i].(up := up) else g[i]
  {
    seq(|g|, i requires 0 <= i < |g| => if g[i].id == id then g[i].(up := up) else g[i])
  }

  /** locator_set_state on a locator of the mapping */
  function StateSet(gs: seq<Group>, id: int, up: bool): (r: seq<Group>)
    ensures |r| == |gs|
    ensures forall i :: 0 <= i < |gs| ==> r[i] == Restated(gs[i], id, up)
  {
    seq(|gs|, i requires 0 <= i < |gs| => Restated(gs[i], id, up))
  }

  function StatesSet(gs: seq<Group>, ids: seq<int>, up: bool): seq<Group>
    decreases |ids|
  {
    if ids == [] then gs else StatesSet(StateSet(gs, ids[0], up), ids[1..], up)
  }

  /** A status event: exactly the locators of the interface take the status, and the order is untouched. */
  lemma {:induction false} StatusMeans(gs: seq<Group>, ids: seq<int>, up: bool)
    requires GroupsOk(gs)
    ensures var r := StatesSet(gs, ids, up);
            && GroupsOk(r) && |r| == |gs|
            && (forall p :: 0 <= p < |gs| ==> |r[p]| == |gs[p]|)
            && (forall p, j :: 0 <= p < |gs| && 0 <= j < |gs[p]| ==>
                  r[p][j] == if gs[p][j].id in ids then gs[p][j].(up := up) else gs[p][j])
    decreases |ids|
  {
    if ids != [] {
      var hs := StateSet(gs, ids[0], up);
      StateSetOk(gs, ids[0], up);
      StatusMeans(hs, ids[1..], up);
      var r := StatesSet(hs, ids[1..], up);
      forall p, j | 0 <= p < |gs| && 0 <= j < |gs[p]|
        ensures r[p][j] == if gs[p][j].id in ids then gs[p][j].(up := up) else gs[p][j]
      {
        MemberOf(gs[p][j].id, ids);
        assert hs[p][j].id == gs[p][j].id;
      }
    }
  }

  lemma StateSetOk(gs: seq<Group>, id: int, up: bool)
    requires GroupsOk(gs)
    ensures GroupsOk(StateSet(gs, id, up))
  {
    var hs := StateSet(gs, id, up);
    forall p | 0 <= p < |gs|
      ensures GroupOk(hs[p]) && Rank(hs[p][0].addr) == Rank(gs[p][0].addr)
    {
      assert GroupOk(gs[p]);
      assert forall j :: 0 <= j < |gs[p]| ==> hs[p][j].addr == gs[p][j].addr;
    }
  }

  lemma MemberOf(id: int, ids: seq<int>)
    requires ids != []
    ensures id in ids <==> id == ids[0] || id in ids[1..]
  {}

  // ---------- all mappings ----------

  /** The locators of a list that belong to one entry. */
  function Mine(locs: seq<int>, entryOf: map<int, int>, e: int): seq<int> {
    if locs == [] then []
    else (if locs[0] in entryOf && entryOf[locs[0]] == e then [locs[0]] else []) + Mine(locs[1..], entryOf, e)
  }

  type Maps = map<int, seq<Group>>

  /** The turn of the event's loop for one locator. */
  function Informing(maps: Maps, entryOf: map<int, int>, l: int, a: Addr): Maps {
    if l in entryOf && entryOf[l] in maps then maps[entryOf[l] := Informed(maps[entryOf[l]], l, a)] else maps
  }

  /** Whether the locator is dropped in its turn. */
  predicate IsDuplicate(maps: Maps, entryOf: map<int, int>, l: int, a: Addr) {
    && l in entryOf && entryOf[l] in maps
    && IsInactive(maps[entryOf[l]], l) && Lookup(maps[entryOf[l]], a).Some?
  }

  function InformingAll(maps: Maps, entryOf: map<int, int>, locs: seq<int>, a: Addr): Maps
    decreases |locs|
  {
    if locs == [] then maps else InformingAll(Informing(maps, entryOf, locs[0], a), entryOf, locs[1..], a)
  }

  /** The locators left on the interface. */
  function Remaining(maps: Maps, entryOf: map<int, int>, locs: seq<int>, a: Addr): seq<int>
    decreases |locs|
  {
    if locs == [] then []
    else (if IsDuplicate(maps, entryOf, locs[0], a) then [] else [locs[0]])
         + Remaining(Informing(maps, entryOf, locs[0], a), entryOf, locs[1..], a)
  }

  /** The turns of the locators of other entries do not concern an entry. */
  lemma {:induction false} EachInformed(maps: Maps, entryOf: map<int, int>, locs: seq<int>, a: Addr, e: int)
    requires e in maps
    ensures InformingAll(maps, entryOf, locs, a).Keys == maps.Keys
    ensures InformingAll(maps, entryOf, locs, a)[e] == InformedAll(maps[e], Mine(locs, entryOf, e), a)
    decreases |locs|
  {
    hide Informed;
    if locs != [] {
      var next := Informing(maps, entryOf, locs[0], a);
      assert next.Keys == maps.Keys;
      EachInformed(next, entryOf, locs[1..], a, e);
      var rest := Mine(locs[1..], entryOf, e);
      if locs[0] in entryOf && entryOf[locs[0]] == e {
        assert ([locs[0]] + rest)[1..] == rest;
      } else {
        assert [] + rest == rest;
      }
    }
  }

  /** All mappings after the event: the attached ones are sorted. */
  function AfterAll(maps: Maps, entryOf: map<int, int>, locs: seq<int>, attached: seq<int>, a: Addr): Maps {
    SortedAll(InformingAll(maps, entryOf, locs, a), attached, a)
  }

  function SortedAll(maps: Maps, attached: seq<int>, a: Addr): (r: Maps)
    ensures r.Keys == maps.Keys
    ensures forall e :: e in maps ==> r[e] == if e in attached then Sorted(maps[e], a) else maps[e]
  {
    map e | e in maps :: if e in attached then Sorted(maps[e], a) else maps[e]
  }

  /**
    An address event of an interface whose mappings are attached to it: every mapping in order is
    in order afterwards if and only if the new address fits it.
   */
  lemma MappingsKeptIff(maps: Maps, entryOf: map<int, int>, locs: seq<int>, attached: seq<int>, cur: Addr, a: Addr,
                        e: int)
    requires e in maps && GroupsOk(maps[e]) && DistinctIds(maps[e]) && a.Ip?
    requires Tied(maps[e], Mine(locs, entryOf, e), cur) && (cur.Ip? ==> Rank(cur) == Rank(a) && cur != a)
    requires Mine(locs, entryOf, e) != [] ==> e in attached
    ensures var after := AfterAll(maps, entryOf, locs, attached, a);
            e in after && (GroupsOk(after[e]) <==> Fits(maps[e], Mine(locs, entryOf, e), cur, a))
  {
    hide GroupsOk, DistinctIds, Tied, Fits, Sorted, Mine, InformingAll;
    var ids := Mine(locs, entryOf, e);
    EachInformed(maps, entryOf, locs, a, e);
    EventKeepsIff(maps[e], ids, cur, a);
    if e !in attached {
      assert InformedAll(maps[e], ids, a) == maps[e];
      SortedSame(maps[e], a);
    }
  }

  /** The turn of a status event's loops for one locator. */
  function Stating(maps: Maps, entryOf: map<int, int>, l: int, up: bool): Maps {
    if l in entryOf && entryOf[l] in maps then maps[entryOf[l] := StateSet(maps[entryOf[l]], l, up)] else maps
  }

  function StatingAll(maps: Maps, entryOf: map<int, int>, locs: seq<int>, up: bool): Maps
    decreases |locs|
  {
    if locs == [] then maps else StatingAll(Stating(maps, entryOf, locs[0], up), entryOf, locs[1..], up)
  }

  lemma {:induction false} EachStated(maps: Maps, entryOf: map<int, int>, locs: seq<int>, up: bool, e: int)
    requires e in maps
    ensures StatingAll(maps, entryOf, locs, up).Keys == maps.Keys
    ensures StatingAll(maps, entryOf, locs, up)[e] == StatesSet(maps[e], Mine(locs, entryOf, e), up)
    decreases |locs|
  {
    hide StateSet;
    if locs != [] {
      var next := Stating(maps, entryOf, locs[0], up);
      assert next.Keys == maps.Keys;
      EachStated(next, entryOf, locs[1..], up, e);
      var rest := Mine(locs[1..], entryOf, e);
      if locs[0] in entryOf && entryOf[locs[0]] == e {
        assert ([locs[0]] + rest)[1..] == rest;
      } else {
        assert [] + rest == rest;
      }
    }
  }

  lemma {:induction false} MineIff(locs: seq<int>, entryOf: map<int, int>, e: int, l: int)
    ensures l in Mine(locs, entryOf, e) <==> l in locs && l in entryOf && entryOf[l] == e
    decreases |locs|
  {
    if locs != [] {
      MineIff(locs[1..], entryOf, e, l);
      MemberOf(l, locs);
    }
  }

  /** All mappings after a status event: the loops over the locators of both families. */
  function AfterStatus(maps: Maps, entryOf: map<int, int>, locs4: seq<int>, locs6: seq<int>, up: bool): Maps {
    StatingAll(StatingAll(maps, entryOf, locs4, up), entryOf, locs6, up)
  }

  /** A locator of the entry that is on one of the two lists. */
  predicate OnLists(id: int, entryOf: map<int, int>, e: int, locs4: seq<int>, locs6: seq<int>) {
    id in entryOf && entryOf[id] == e && (id in locs4 || id in locs6)
  }

  /**
    A status event over all mappings: a locator takes the status exactly if it is on the interface
    and in the mapping of its own entry. Nothing else changes, and every mapping stays in order.
   */
  lemma StatusEventMeans(maps: Maps, entryOf: map<int, int>, locs4: seq<int>, locs6: seq<int>, up: bool, e: int)
    requires e in maps && GroupsOk(maps[e])
    ensures var after := AfterStatus(maps, entryOf, locs4, locs6, up);
            && after.Keys == maps.Keys && GroupsOk(after[e]) && |after[e]| == |maps[e]|
            && (forall p :: 0 <= p < |maps[e]| ==> |after[e][p]| == |maps[e][p]|)
            && (forall p, j :: 0 <= p < |maps[e]| && 0 <= j < |maps[e][p]| ==>
                  after[e][p][j] == if OnLists(maps[e][p][j].id, entryOf, e, locs4, locs6)
                                    then maps[e][p][j].(up := up) else maps[e][p][j])
  {
    hide GroupsOk, StatingAll, StatesSet;
    var mid := StatingAll(maps, entryOf, locs4, up);
    var ids4, ids6 := Mine(locs4, entryOf, e), Mine(locs6, entryOf, e);
    EachStated(maps, entryOf, locs4, up, e);
    StatusMeans(maps[e], ids4, up);
    EachStated(mid, entryOf, locs6, up, e);
    StatusMeans(mid[e], ids6, up);
    forall p, j | 0 <= p < |maps[e]| && 0 <= j < |maps[e][p]|
      ensures OnLists(maps[e][p][j].id, entryOf, e, locs4, locs6)
              <==> maps[e][p][j].id in ids4 || maps[e][p][j].id in ids6
    {
      MineIff(locs4, entryOf, e, maps[e][p][j].id);
      MineIff(locs6, entryOf, e, maps[e][p][j].id);
    }
  }
}
