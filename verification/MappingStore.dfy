/** The mapping as it is changed in place: lists searched, spliced and counted as the source does it. */
module MappingStore {
  import opened Options
  import opened GenericList
  import opened Seqs
  import opened Mappings

  datatype Result = Good | Exists | Bad

  // ---------- the generic insertion on sorted groups ----------

  /** A locator object is in a mapping at most once; this matters only where addresses cannot tell. */
  predicate NewTo(g: Group, l: Loc) {
    l.addr.NoAddr? ==> forall i :: 0 <= i < |g| ==> g[i].id != l.id
  }

  lemma InsertIsAdd(g: Group, l: Loc)
    requires GroupOk(g) && Rank(g[0].addr) == Rank(l.addr) && NewTo(g, l) && !HasAddr(g, l.addr)
    ensures Accepts(l, g, CmpAddr) && Insert(l, g, CmpAddr) == AddToGroup(g, l)
    ensures forall i :: 0 <= i < |g| ==> CmpAddr(l, g[i]) != 0
  {
    var k, p := Stop(l, g, CmpAddr), Place(g, l.addr);
    assert k == p;
  }

  lemma ReplaceIsAdd(g: Group, l: Loc, k: nat)
    requires GroupOk(g) && Rank(g[0].addr) == Rank(l.addr) && l.addr.Ip?
    requires k < |g| && g[k].addr == l.addr
    ensures Accepts(l, Drop(g, k), CmpAddr) && Insert(l, Drop(g, k), CmpAddr) == g[k := l]
    ensures Place(g, l.addr) == k
  {
    hide GroupOk, Stop, Place, Drop;
    Neighbours(g, k);
    PlaceIs(g, l.addr, k);
    TakenOut(g, k, l);
    StopIs(Drop(g, k), l, k);
  }

  lemma TakenOut(g: Group, k: nat, l: Loc)
    requires k < |g|
    ensures var r := Drop(g, k);
            && |r| == |g| - 1 && (forall i :: 0 <= i < k ==> r[i] == g[i]) && (k < |r| ==> r[k] == g[k + 1])
            && r[..k] + [l] + r[k..] == g[k := l]
  {}

  lemma Neighbours(g: Group, k: nat)
    requires GroupOk(g) && k < |g| && g[k].addr.Ip?
    ensures forall i :: 0 <= i < |g| ==> Rank(g[i].addr) == Rank(g[k].addr)
    ensures forall i :: 0 <= i < k ==> Val(g[i]) < Val(g[k])
    ensures k + 1 < |g| ==> Val(g[k]) < Val(g[k + 1])
  {}

  lemma StopIs(r: Group, l: Loc, k: nat)
    requires k <= |r| && l.addr.Ip?
    requires forall i :: 0 <= i < k ==> Rank(r[i].addr) == Rank(l.addr) && Val(r[i]) < Val(l)
    requires k < |r| ==> Rank(r[k].addr) == Rank(l.addr) && Val(l) < Val(r[k])
    ensures Stop(l, r, CmpAddr) == k && Accepts(l, r, CmpAddr)
  {}

  lemma NewGroupIsAdd(gs: seq<Group>, l: Loc)
    requires GroupsOk(gs) && !HasGroup(gs, Rank(l.addr))
    ensures Accepts([l], gs, CmpAfi) && Insert([l], gs, CmpAfi) == AddTo(gs, l)
  {
    assert Stop([l], gs, CmpAfi) == GroupPlace(gs, Rank(l.addr));
  }

  // ---------- an address overwritten in place ----------

  /** The first locator with an address, in a group that may be out of order. */
  function FirstAt(g: Group, a: Addr): (k: nat)
    ensures k <= |g|
    ensures forall i :: 0 <= i < k ==> g[i].addr != a
    ensures k < |g| ==> g[k].addr == a
  {
    if g == [] || g[0].addr == a then 0 else 1 + FirstAt(g[1..], a)
  }

  /** mapping_sort_locators on the group: the locator is taken out and put in again. */
  function Resort(g: Group, a: Addr): Group {
    var k := FirstAt(g, a);
    if k < |g| then Insert(g[k], Drop(g, k), CmpAddr) else g
  }

  ghost predicate Unused(g: Group, j: nat, a: Addr) {
    forall i :: 0 <= i < |g| && i != j ==> g[i].addr != a
  }

  function Moved(g: Group, j: nat, a: Addr): Group
    requires j < |g|
  {
    g[j := g[j].(addr := a)]
  }

  lemma TakeOk(g: Group, k: nat)
    requires GroupOk(g) && k < |g| && |g| > 1
    ensures GroupOk(Drop(g, k)) && Rank(Drop(g, k)[0].addr) == Rank(g[0].addr)
  {
    var r := Drop(g, k);
    assert forall i :: 0 <= i < |r| ==> r[i] == g[if i < k then i else i + 1];
  }

  lemma MovedDrop(g: Group, j: nat, a: Addr)
    requires j < |g| && Unused(g, j, a)
    ensures FirstAt(Moved(g, j, a), a) == j && Drop(Moved(g, j, a), j) == Drop(g, j)
    ensures forall i :: 0 <= i < |g| - 1 ==> Drop(g, j)[i].addr != a
  {
    hide FirstAt;
    var r, d := Drop(g, j), Moved(g, j, a);
    assert forall i :: 0 <= i < |r| ==> r[i] == g[if i < j then i else i + 1];
    assert d[j].addr == a && forall i :: 0 <= i < |g| && i != j ==> d[i].addr != a;
  }

  /** Sorting again after one address changed restores the order and loses nothing. */
  lemma ResortRestores(g: Group, j: nat, a: Addr)
    requires GroupOk(g) && j < |g| && g[j].addr.Ip? && Rank(a) == Rank(g[j].addr) && Unused(g, j, a)
    ensures var g' := Resort(Moved(g, j, a), a);
            && GroupOk(g') && Rank(g'[0].addr) == Rank(g[0].addr)
            && multiset(g') == multiset(Moved(g, j, a))
  {
    hide GroupOk, Insert, FirstAt;
    var d, l, r := Moved(g, j, a), g[j].(addr := a), Drop(g, j);
    MovedDrop(g, j, a);
    DropRemoves(d, j);
    InsertAdds(l, r, CmpAddr);
    Neighbours(g, j);
    if |g| == 1 {
      assert r == [];
      InsertEmpty(l);
      SingletonOk(l);
    } else {
      TakeOk(g, j);
      GroupNonEmpty(r);
      InsertIsAdd(r, l);
      AddToGroupOk(r, l);
    }
  }

  lemma InsertEmpty(l: Loc)
    ensures Insert(l, [], CmpAddr) == [l]
  {}

  /** With the address of another locator the order cannot be restored. */
  lemma ResortFails(g: Group, j: nat, a: Addr, i: nat)
    requires GroupOk(g) && j < |g| && g[j].addr.Ip? && Rank(a) == Rank(g[j].addr)
    requires i < |g| && i != j && g[i].addr == a && g[i].id != g[j].id
    ensures !GroupOk(Resort(Moved(g, j, a), a))
  {
    hide Insert, FirstAt, GroupOk;
    var d := Moved(g, j, a);
    var k := FirstAt(d, a);
    FirstFound(d, a, j);
    DropRemoves(d, k);
    InsertAdds(d[k], Drop(d, k), CmpAddr);
    assert d[i] in d && d[j] in d;
    assert d[i] in multiset(d) && d[j] in multiset(d);
    TwoAlike(Resort(d, a), d[i], d[j]);
  }

  lemma TwoAlike(g: Group, x: Loc, y: Loc)
    requires x in g && y in g && x != y && x.addr == y.addr && x.addr.Ip?
    ensures !GroupOk(g)
  {
    var i :| 0 <= i < |g| && g[i] == x;
    var j :| 0 <= j < |g| && g[j] == y;
    assert i != j && Val(g[i]) == Val(g[j]);
  }

  /** Strict order comes back exactly if no other locator of the group has the new address. */
  lemma ResortIff(g: Group, j: nat, a: Addr)
    requires GroupOk(g) && j < |g| && g[j].addr.Ip? && Rank(a) == Rank(g[j].addr)
    requires forall i :: 0 <= i < |g| && i != j ==> g[i].id != g[j].id
    ensures GroupOk(Resort(Moved(g, j, a), a)) <==> Unused(g, j, a)
  {
    hide GroupOk, Resort;
    if Unused(g, j, a) {
      ResortRestores(g, j, a);
    } else {
      var i :| 0 <= i < |g| && i != j && g[i].addr == a;
      ResortFails(g, j, a, i);
    }
  }

  lemma FirstFound(g: Group, a: Addr, j: nat)
    requires j < |g| && g[j].addr == a
    ensures FirstAt(g, a) < |g|
  {}

  /** Groups of one family each, in the order of families; inside they need not be sorted. */
  ghost predicate Shaped(gs: seq<Group>) {
    RanksAscend(gs) && forall i :: 0 <= i < |gs| ==> Homogeneous(gs[i], Rank(gs[i][0].addr))
  }

  function Sorted(gs: seq<Group>, a: Addr): seq<Group> {
    var p := GroupPlace(gs, Rank(a));
    if HasGroup(gs, Rank(a)) then gs[p := Resort(gs[p], a)] else gs
  }

  lemma ShapedFound(gs: seq<Group>, rank: nat, p: nat)
    requires Shaped(gs) && p <= |gs|
    requires forall i :: 0 <= i < p ==> Rank(gs[i][0].addr) != rank
    requires p < |gs| ==> Rank(gs[p][0].addr) == rank
    ensures HasGroup(gs, rank) <==> p < |gs|
    ensures p < |gs| ==> p == GroupPlace(gs, rank) && Homogeneous(gs[p], rank)
  {}

  lemma Comparable(g: Group, k: nat)
    requires k < |g| && g[k].addr.Ip? && Homogeneous(g, Rank(g[k].addr))
    ensures Accepts(g[k], Drop(g, k), CmpAddr)
  {
    var r := Drop(g, k);
    assert forall i :: 0 <= i < |r| ==> r[i] == g[if i < k then i else i + 1];
  }

  lemma MovedShaped(gs: seq<Group>, p: nat, j: nat, a: Addr)
    requires GroupsOk(gs) && p < |gs| && j < |gs[p]| && Rank(a) == Rank(gs[p][j].addr)
    ensures Shaped(gs[p := Moved(gs[p], j, a)])
    ensures Rank(Moved(gs[p], j, a)[0].addr) == Rank(a)
  {
    assert GroupOk(gs[p]);
  }

  lemma Family(g: Group, j: nat)
    requires GroupOk(g) && j < |g|
    ensures Rank(g[0].addr) == Rank(g[j].addr)
  {}

  lemma ReplacedOk(gs: seq<Group>, p: nat, g: Group)
    requires GroupsOk(gs) && p < |gs| && GroupOk(g) && Rank(g[0].addr) == Rank(gs[p][0].addr)
    ensures GroupsOk(gs[p := g])
  {
    hide GroupOk;
    GroupNonEmpty(g);
  }

  /** One address changed in its group, and the mapping sorted: in order exactly if the address is new to the group. */
  lemma ChangeMeans(gs: seq<Group>, p: nat, j: nat, a: Addr)
    requires GroupsOk(gs) && p < |gs| && j < |gs[p]| && gs[p][j].addr.Ip? && Rank(a) == Rank(gs[p][j].addr)
    requires forall i :: 0 <= i < |gs[p]| && i != j ==> gs[p][i].id != gs[p][j].id
    ensures var r := Sorted(gs[p := Moved(gs[p], j, a)], a);
            && r == gs[p := Resort(Moved(gs[p], j, a), a)]
            && (GroupsOk(r) <==> Unused(gs[p], j, a))
            && (GroupsOk(r) ==> Count(r) == Count(gs) && multiset(r[p]) == multiset(Moved(gs[p], j, a)))
  {
    hide GroupOk, GroupsOk, Resort, FirstAt, Unused;
    var ms := gs[p := Moved(gs[p], j, a)];
    var r := gs[p := Resort(ms[p], a)];
    GroupsMember(gs, p);
    GroupsRanks(gs);
    Family(gs[p], j);
    MovedShaped(gs, p, j, a);
    GroupPlaceIs(ms, Rank(a), p);
    ResortIff(gs[p], j, a);
    if Unused(gs[p], j, a) {
      ResortRestores(gs[p], j, a);
      ReplacedOk(gs, p, r[p]);
      CountUpdate(gs, p, r[p]);
      assert |r[p]| == |multiset(r[p])| == |gs[p]|;
    } else if GroupsOk(r) {
      GroupsMember(r, p);
    }
  }

  // ---------- a locator that gets its first address ----------

  /** The groups without the inactive locator at position k, and without its group if that was the last. */
  function Dropped(gs: seq<Group>, k: nat): seq<Group>
    requires gs != [] && k < |gs[0]|
  {
    if |gs[0]| == 1 then gs[1..] else gs[0 := Drop(gs[0], k)]
  }

  lemma DroppedMeans(gs: seq<Group>, k: nat, a: Addr)
    requires GroupsOk(gs) && gs != [] && gs[0][0].addr.NoAddr? && k < |gs[0]|
    ensures var ds := Dropped(gs, k);
            && GroupsOk(ds) && Count(ds) == Count(gs)
            && (a.Ip? ==> Lookup(ds, a) == Lookup(gs, a))
            && Inactive(ds) == Drop(Inactive(gs), k)
  {
    hide GroupOk, GroupsOk, Count, Lookup, Inactive, Drop;
    if |gs[0]| > 1 {
      DroppedOne(gs, k, a);
    } else {
      DroppedLast(gs, k, a);
    }
  }

  lemma DroppedLast(gs: seq<Group>, k: nat, a: Addr)
    requires GroupsOk(gs) && gs != [] && gs[0][0].addr.NoAddr? && k == 0 && |gs[0]| == 1
    ensures GroupsOk(gs[1..]) && Count(gs[1..]) == Count(gs)
    ensures a.Ip? ==> Lookup(gs[1..], a) == Lookup(gs, a)
    ensures Inactive(gs) == gs[0] && Inactive(gs[1..]) == Drop(Inactive(gs), k)
  {
    hide GroupOk, FindIn, GroupsOk, Count, Addressed;
    GroupsRanks(gs);
    GroupPlaceIs(gs, 0, 0);
    assert Drop(gs[0], k) == [];
    DroppedGroup(gs, Rank(a));
  }

  lemma DroppedOne(gs: seq<Group>, k: nat, a: Addr)
    requires GroupsOk(gs) && gs != [] && gs[0][0].addr.NoAddr? && k < |gs[0]| && |gs[0]| > 1
    ensures var ds := gs[0 := Drop(gs[0], k)];
            && GroupsOk(ds) && Count(ds) == Count(gs)
            && (a.Ip? ==> Lookup(ds, a) == Lookup(gs, a))
            && Inactive(ds) == Drop(Inactive(gs), k)
  {
    hide GroupOk, FindIn;
    var ds := gs[0 := Drop(gs[0], k)];
    GroupsMember(gs, 0);
    GroupsRanks(gs);
    GroupPlaceIs(gs, 0, 0);
    TakeOk(gs[0], k);
    GroupNonEmpty(ds[0]);
    UpdatePlaces(gs, 0, ds[0], Rank(a));
    UpdatePlaces(gs, 0, ds[0], 0);
    CountUpdate(gs, 0, ds[0]);
  }

  lemma DroppedGroup(gs: seq<Group>, rank: nat)
    requires GroupsOk(gs) && gs != [] && gs[0][0].addr.NoAddr?
    ensures GroupsOk(gs[1..]) && Count(gs[1..]) == Count(gs)
    ensures rank > 0 ==> GroupPlace(gs, rank) == GroupPlace(gs[1..], rank) + 1
    ensures rank > 0 ==> HasGroup(gs, rank) == HasGroup(gs[1..], rank)
    ensures Inactive(gs[1..]) == []
  {
    var ds := gs[1..];
    assert GroupOk(gs[0]);
    assert forall i :: 0 <= i < |ds| ==> ds[i] == gs[i + 1] && Rank(ds[i][0].addr) > 0;
    GroupPlaceIs(ds, 0, 0);
  }

  /** The position of a locator, found by identity. */
  function FirstId(g: Group, id: int): (k: nat)
    ensures k <= |g|
    ensures forall i :: 0 <= i < k ==> g[i].id != id
    ensures k < |g| ==> g[k].id == id
  {
    if g == [] || g[0].id == id then 0 else 1 + FirstId(g[1..], id)
  }

  predicate IsInactive(gs: seq<Group>, id: int) {
    FirstId(Inactive(gs), id) < |Inactive(gs)|
  }

  /** The locator is in the group of its family. */
  predicate InGroup(gs: seq<Group>, id: int, a: Addr) {
    HasGroup(gs, Rank(a)) && FirstId(gs[GroupPlace(gs, Rank(a))], id) < |gs[GroupPlace(gs, Rank(a))]|
  }

  /** The groups without a locator, and without its group if that was the last. */
  function Removed(gs: seq<Group>, id: int, a: Addr): seq<Group> {
    var p := GroupPlace(gs, Rank(a));
    if !InGroup(gs, id, a) then gs
    else if |gs[p]| == 1 then Drop(gs, p)
    else gs[p := Drop(gs[p], FirstId(gs[p], id))]
  }

  /** Removal keeps the order, and the number of addressed locators goes down exactly for one of them. */
  lemma RemovedMeans(gs: seq<Group>, id: int, a: Addr)
    requires GroupsOk(gs)
    ensures GroupsOk(Removed(gs, id, a))
    ensures Count(Removed(gs, id, a)) == Count(gs) - if a.Ip? && InGroup(gs, id, a) then 1 else 0
  {
    hide GroupOk, GroupsOk, FirstId, Count, Drop;
    var p := GroupPlace(gs, Rank(a));
    if InGroup(gs, id, a) {
      var k := FirstId(gs[p], id);
      GroupsMember(gs, p);
      GroupNonEmpty(gs[p]);
      if |gs[p]| == 1 {
        GroupDropped(gs, p);
      } else {
        TakeOk(gs[p], k);
        GroupNonEmpty(Drop(gs[p], k));
        ReplacedOk(gs, p, Drop(gs[p], k));
        CountUpdate(gs, p, Drop(gs[p], k));
      }
    }
  }

  lemma GroupDropped(gs: seq<Group>, p: nat)
    requires GroupsOk(gs) && p < |gs|
    ensures GroupsOk(Drop(gs, p)) && Count(Drop(gs, p)) == Count(gs) - Addressed(gs[p])
  {
    hide GroupsOk, Count, Addressed, Drop;
    OthersOk(gs, p);
    CountDrop(gs, p);
  }

  lemma {:induction false} CountDrop(gs: seq<Group>, p: nat)
    requires p < |gs|
    ensures Count(Drop(gs, p)) == Count(gs) - Addressed(gs[p])
  {
    hide Addressed;
    if p == 0 {
      assert Drop(gs, 0) == gs[1..];
    } else {
      CountDrop(gs[1..], p - 1);
      assert Drop(gs, p)[1..] == Drop(gs[1..], p - 1);
    }
  }

  lemma OthersOk(gs: seq<Group>, p: nat)
    requires GroupsOk(gs) && p < |gs|
    ensures GroupsOk(Drop(gs, p))
  {
    hide GroupOk, Rank;
    var ds := Drop(gs, p);
    forall i | 0 <= i < |ds| ensures GroupOk(ds[i]) {
      assert ds[i] == gs[if i < p then i else i + 1];
    }
    GroupsNonEmpty(gs);
    forall i, j | 0 <= i < j < |ds| ensures ds[i] != [] && ds[j] != [] && Rank(ds[i][0].addr) < Rank(ds[j][0].addr) {
      assert ds[i] == gs[if i < p then i else i + 1] && ds[j] == gs[if j < p then j else j + 1];
    }
  }

  lemma RemovedInactive(gs: seq<Group>, id: int)
    requires GroupsOk(gs) && IsInactive(gs, id)
    ensures gs != [] && FirstId(gs[0], id) < |gs[0]| && InGroup(gs, id, NoAddr)
    ensures Removed(gs, id, NoAddr) == Dropped(gs, FirstId(gs[0], id))
  {
    hide GroupsOk, FirstId;
    GroupPlaceIs0(gs);
    GroupZero(gs);
    assert Drop(gs, 0) == gs[1..];
  }

  lemma GroupZero(gs: seq<Group>)
    requires gs != [] && gs[0] != [] && gs[0][0].addr.NoAddr?
    ensures GroupPlace(gs, 0) == 0 && HasGroup(gs, 0)
  {}

  /** The groups after an inactive locator has been given an address. */
  function Activated(gs: seq<Group>, id: int, a: Addr): seq<Group>
    requires GroupsOk(gs) && IsInactive(gs, id)
  {
    GroupPlaceIs(gs, 0, 0);
    var k := FirstId(gs[0], id);
    AddTo(Dropped(gs, k), gs[0][k].(addr := a))
  }

  /**
    Activation moves the locator to its place: order is kept, the locator is found under its new
    address unless a better one is there, every other address and the order of the other inactive
    locators are untouched, and the count goes up exactly if the address is new.
   */
  lemma ActivationMeans(gs: seq<Group>, id: int, a: Addr, b: Addr)
    requires GroupsOk(gs) && IsInactive(gs, id) && a.Ip? && b.Ip?
    ensures var gs' := Activated(gs, id, a);
            var k := FirstId(Inactive(gs), id);
            var l := Inactive(gs)[k].(addr := a);
            && GroupsOk(gs')
            && Lookup(gs', b) == (if a == b then Some(Better(Lookup(gs, a), l)) else Lookup(gs, b))
            && Inactive(gs') == Drop(Inactive(gs), k)
            && Count(gs') == Count(gs) + if Lookup(gs, a).None? then 1 else 0
  {
    hide GroupsOk, FirstId, Lookup, AddTo, Dropped, Drop, Count;
    assert Inactive(gs) == gs[0] && gs[0][0].addr.NoAddr? by { GroupPlaceIs0(gs); }
    var k := FirstId(gs[0], id);
    var l := gs[0][k].(addr := a);
    DroppedMeans(gs, k, b);
    DroppedMeans(gs, k, a);
    var ds := Dropped(gs, k);
    AddToOk(ds, l);
    AddToMeans(ds, l, b);
    CountAdd(ds, l);
    assert [] + Inactive(ds) == Inactive(ds);
  }

  lemma GroupPlaceIs0(gs: seq<Group>)
    requires GroupsOk(gs) && Inactive(gs) != []
    ensures gs != [] && Inactive(gs) == gs[0] && gs[0] != [] && gs[0][0].addr.NoAddr?
  {
    GroupPlaceIs(gs, 0, 0);
  }

  // ---------- copies and comparison ----------

  /** The same locators in other memory; locators without address come out in reverse. */
  ghost predicate Copy(g: Group, h: Group) {
    |h| == |g| && forall k :: 0 <= k < |h| ==> h[k] == Origin(g, k).(id := h[k].id)
  }

  function Origin(g: Group, k: nat): Loc
    requires k < |g|
  {
    if g[0].addr.NoAddr? then g[|g| - 1 - k] else g[k]
  }

  predicate SameFamily(g: Group, h: Group) {
    g != [] && h != [] && Rank(g[0].addr) == Rank(h[0].addr)
  }

  ghost predicate Ids(g: Group, lo: int, hi: int) {
    forall k :: 0 <= k < |g| ==> lo <= g[k].id < hi
  }

  lemma CopyOk(g: Group, h: Group)
    requires GroupOk(g) && Copy(g, h)
    ensures GroupOk(h) && Rank(h[0].addr) == Rank(g[0].addr)
  {
    assert forall k :: 0 <= k < |h| ==> Rank(Origin(g, k).addr) == Rank(g[0].addr);
  }

  lemma CloneStep(g: Group, r: Group, i: nat, id: int)
    requires GroupOk(g) && i < |g| && Copy(g[..i], r) && Ids(r, id, id + i)
    ensures var l := g[i].(id := id + i);
            && Accepts(l, r, CmpAddr)
            && Copy(g[..i + 1], Insert(l, r, CmpAddr)) && Ids(Insert(l, r, CmpAddr), id, id + i + 1)
  {
    hide Stop, Insert;
    var l := g[i].(id := id + i);
    assert forall k :: 0 <= k < |r| ==> Rank(Origin(g[..i], k).addr) == Rank(g[i].addr);
    if g[i].addr.Ip? {
      assert forall k :: 0 <= k < |r| ==> Origin(g[..i], k) == g[k] && Val(g[k]) < Val(l);
      StopIs(r, l, |r|);
      InsertedLast(r, l);
    } else {
      InsertedFirst(r, l);
    }
  }

  lemma InsertedLast(r: Group, l: Loc)
    requires Stop(l, r, CmpAddr) == |r|
    ensures Insert(l, r, CmpAddr) == r + [l]
  {
    assert r[..|r|] + [l] + r[|r|..] == r + [l];
  }

  lemma InsertedFirst(r: Group, l: Loc)
    requires r != [] ==> CmpAddr(l, r[0]) == 2
    ensures Stop(l, r, CmpAddr) == 0 && Insert(l, r, CmpAddr) == [l] + r
  {
    assert r[..0] + [l] + r[0..] == [l] + r;
  }

  /** locator_list_clone: nothing for an empty list */
  method CloneList(g: Group, id: int) returns (clone: Option<Group>)
    requires g != [] ==> GroupOk(g)
    ensures clone.None? <==> g == []
    ensures clone.Some? ==> Copy(g, clone.value) && GroupOk(clone.value) && Ids(clone.value, id, id + |g|)
  {
    hide GroupOk, Insert, Accepts;
    if g == [] { return None; }
    var r: Group := [];
    for i := 0 to |g|
      invariant Copy(g[..i], r) && Ids(r, id, id + i)
    {
      CloneStep(g, r, i, id);
      var _, s := Add(g[i].(id := id + i), r, CmpAddr);
      r := s;
    }
    assert g[..|g|] == g;
    CopyOk(g, r);
    return Some(r);
  }

  /** locator_cmp answers 0 */
  predicate SameLoc(x: Loc, y: Loc) {
    && CmpAddr(x, y) == 0 && x.priority == y.priority && x.weight == y.weight
    && x.mpriority == y.mpriority && x.mweight == y.mweight
  }

  ghost predicate SameGroup(g: Group, h: Group) {
    |g| == |h| && forall k :: 0 <= k < |g| ==> SameLoc(g[k], h[k])
  }

  ghost predicate SameGroups(gs: seq<Group>, hs: seq<Group>) {
    |gs| == |hs| && forall i :: 0 <= i < |gs| ==> SameGroup(gs[i], hs[i])
  }

  /** Every group is a copy of the corresponding one, in memory that the original does not use. */
  ghost predicate Copies(gs: seq<Group>, hs: seq<Group>, id: int) {
    && |gs| == |hs|
    && (forall i :: 0 <= i < |gs| ==> Copy(gs[i], hs[i]))
    && (forall i, k :: 0 <= i < |gs| && 0 <= k < |gs[i]| ==> gs[i][k].id < id)
    && (forall i, k :: 0 <= i < |hs| && 0 <= k < |hs[i]| ==> hs[i][k].id >= id)
  }

  lemma {:induction false} CopiesCount(gs: seq<Group>, hs: seq<Group>)
    requires |gs| == |hs| && forall i :: 0 <= i < |gs| ==> GroupOk(gs[i]) && Copy(gs[i], hs[i])
    ensures Count(gs) == Count(hs)
  {
    if gs != [] {
      CopyOk(gs[0], hs[0]);
      CopiesCount(gs[1..], hs[1..]);
    }
  }

  /** A copy compares equal to its original exactly if no locator is without address. */
  lemma CopiesSameIff(gs: seq<Group>, hs: seq<Group>, id: int)
    requires GroupsOk(gs) && Copies(gs, hs, id)
    ensures GroupsOk(hs) && Count(hs) == Count(gs)
    ensures SameGroups(gs, hs) <==> Inactive(gs) == []
  {
    forall i | 0 <= i < |gs|
      ensures GroupOk(hs[i]) && Rank(hs[i][0].addr) == Rank(gs[i][0].addr)
    {
      CopyOk(gs[i], hs[i]);
    }
    CopiesCount(gs, hs);
    if Inactive(gs) == [] {
      forall i | 0 <= i < |gs|
        ensures SameGroup(gs[i], hs[i])
      {
        EverythingFound(gs, i, 0);
        assert gs[i][0].addr.Ip?;
        SameCopy(gs[i], hs[i]);
      }
    } else {
      GroupPlaceIs0(gs);
      assert !SameLoc(gs[0][0], hs[0][0]);
      assert !SameGroup(gs[0], hs[0]);
    }
  }

  lemma SameCopy(g: Group, h: Group)
    requires GroupOk(g) && Copy(g, h) && g[0].addr.Ip?
    ensures SameGroup(g, h)
  {
    CopyOk(g, h);
  }

  class Mapping {
    var eid: Addr
    var plen: nat
    var groups: seq<Group>
    var count: int

    ghost predicate Valid()
      reads this
    {
      GroupsOk(groups) && count == Count(groups)
    }

    constructor (eid: Addr, plen: nat)
      ensures Valid() && groups == [] && this.eid == eid && this.plen == plen
    {
      this.eid, this.plen, groups, count := eid, plen, [], 0;
    }

    /** mapping_get_loct_lst_with_afi */
    method GroupOf(rank: nat) returns (p: nat)
      requires forall i :: 0 <= i < |groups| ==> groups[i] != []
      ensures p <= |groups|
      ensures forall i :: 0 <= i < p ==> Rank(groups[i][0].addr) != rank
      ensures p < |groups| ==> Rank(groups[p][0].addr) == rank
    {
      p := 0;
      while p < |groups| && Rank(groups[p][0].addr) != rank
        invariant p <= |groups|
        invariant forall i :: 0 <= i < p ==> Rank(groups[i][0].addr) != rank
      {
        p := p + 1;
      }
    }

    /** mapping_add_locator */
    method AddLocator(l: Loc) returns (result: Result)
      requires Valid() && NewTo(Inactive(groups), l)
      modifies this`groups, this`count
      ensures Valid() && groups == AddTo(old(groups), l)
      ensures result == if l.addr.Ip? && Lookup(old(groups), l.addr).Some?
                           && Lookup(old(groups), l.addr).value.priority <= l.priority then Exists else Good
    {
      hide GroupsOk, GroupOk, Count, AddToGroup, Insert;
      ghost var gs := groups;
      AddToOk(gs, l);
      CountAdd(gs, l);
      GroupsNonEmpty(gs);
      var p := GroupOf(Rank(l.addr));
      GroupFound(gs, Rank(l.addr), p);
      if p == |groups| {
        var good, all := Add([l], groups, CmpAfi);
        NewGroupIsAdd(gs, l);
        groups := all;
      } else {
        var g := groups[p];
        GroupsMember(gs, p);
        var k := Find(g, (x: Loc) => CmpAddr(l, x) == 0);
        if k < |g| {
          SameAddress(l, g[k]);
          ReplaceIsAdd(g, l, k);
          AddReplaces(g, l, k);
          if g[k].priority > l.priority {
            var good, h := Add(l, Drop(g, k), CmpAddr);
            groups := groups[p := h];
            return Good;
          }
          groups := groups[p := g];
          return Exists;
        }
        NotThere(g, l);
        InsertIsAdd(g, l);
        var good, h := Add(l, g, CmpAddr);
        groups := groups[p := h];
      }
      if l.addr.Ip? { count := count + 1; }
      return Good;
    }

    /** mapping_sort_locators, on groups that need not be sorted inside */
    method SortLocators(a: Addr) returns (result: Result)
      requires a.Ip? && Shaped(groups)
      modifies this`groups
      ensures groups == Sorted(old(groups), a)
      ensures result == if HasGroup(old(groups), Rank(a))
                           && FirstAt(old(groups)[GroupPlace(old(groups), Rank(a))], a)
                              < |old(groups)[GroupPlace(old(groups), Rank(a))]| then Good else Bad
    {
      hide Insert, FirstAt;
      var p := GroupOf(Rank(a));
      ShapedFound(groups, Rank(a), p);
      if p == |groups| { return Bad; }
      var g := groups[p];
      var k := Find(g, (x: Loc) => x.addr == a);
      assert k == FirstAt(g, a);
      if k == |g| {
        assert groups[p := g] == groups;
        return Bad;
      }
      Comparable(g, k);
      var good, h := Add(g[k], Drop(g, k), CmpAddr);
      groups := groups[p := h];
      return Good;
    }

    /** mapping_update_locators, from the groups of another mapping; clones are allocated from id on */
    method UpdateLocators(src: seq<Group>, id: int)
      requires GroupsOk(src) && forall i, k :: 0 <= i < |src| && 0 <= k < |src[i]| ==> src[i][k].id < id
      modifies this`groups, this`count
      ensures Valid() && Copies(src, groups, id)
    {
      hide GroupOk, Copy, Insert, Accepts;
      var ctr, next := 0, id;
      groups := [];
      for i := 0 to |src|
        invariant |groups| == i && next >= id && ctr == Count(groups)
        invariant forall j :: 0 <= j < i ==> Copy(src[j], groups[j]) && groups[j] != []
        invariant forall j :: 0 <= j < i ==> SameFamily(src[j], groups[j])
        invariant forall j, k :: 0 <= j < i && 0 <= k < |groups[j]| ==> groups[j][k].id >= id
      {
        var g := src[i];
        GroupsMember(src, i);
        GroupNonEmpty(g);
        var clone := CloneList(g, next);
        var h := clone.value;
        CopyOk(g, h);
        GroupNonEmpty(h);
        Appended(groups, h);
        CountAppend(groups, h);
        var good, all := Add(h, groups, CmpAfi);
        groups := all;
        if h[0].addr.Ip? { ctr := ctr + |h|; }
        next := next + |g|;
      }
      count := ctr;
      CopiesSameIff(src, groups, id);
    }

    /**
      mapping_remove_locator, on a locator of this identity and address. For an address the count
      goes down and up again, so it is right afterwards exactly if no addressed locator was removed.
     */
    method RemoveLocator(id: int, a: Addr)
      requires Valid()
      modifies this`groups, this`count
      ensures groups == Removed(old(groups), id, a) && count == old(count) && GroupsOk(groups)
      ensures Valid() <==> a.NoAddr? || !InGroup(old(groups), id, a)
    {
      hide GroupsOk, FirstId, Count, Drop;
      GroupsNonEmpty(groups);
      RemovedMeans(groups, id, a);
      var p := GroupOf(Rank(a));
      GroupFound(groups, Rank(a), p);
      if p == |groups| { return; }
      var g := groups[p];
      var k := Find(g, (x: Loc) => x.id == id);
      assert k == FirstId(g, id);
      if k == |g| { return; }
      var h := Drop(g, k);
      groups := if |h| == 0 then Drop(groups, p) else groups[p := h];
      if !a.NoAddr? { count := count - 1; }
      if !a.NoAddr? { count := count + 1; }
    }

    /** mapping_activate_locator */
    method ActivateLocator(id: int, a: Addr) returns (result: Result)
      requires Valid() && a.Ip? && (HasGroup(groups, 0) ==> IsInactive(groups, id))
      modifies this`groups, this`count
      ensures Valid()
      ensures !HasGroup(old(groups), 0) ==> result == Bad && groups == old(groups)
      ensures HasGroup(old(groups), 0) ==>
                && groups == Activated(old(groups), id, a)
                && count == old(count) + (if Lookup(old(groups), a).None? then 1 else 0)
                && (Lookup(old(groups), a).None? ==> result == Good)
    {
      hide GroupsOk, FirstId, Lookup, AddTo, Dropped, Drop, Count;
      ghost var gs := groups;
      GroupsNonEmpty(groups);
      var p := GroupOf(0);
      GroupFound(gs, 0, p);
      if p == |groups| { return Bad; }
      GroupPlaceIs0(gs);
      var k := Find(groups[p], (x: Loc) => x.id == id);
      assert k == FirstId(groups[p], id);
      var l := groups[p][k].(addr := a);
      ActivationMeans(gs, id, a, a);
      DroppedMeans(gs, k, a);
      RemovedInactive(gs, id);
      RemoveLocator(id, NoAddr);
      result := AddLocator(l);
    }

    /**
      locator_clone_addr on a locator of the mapping, then mapping_sort_locators: what an address
      event does to an addressed locator. The order is restored exactly if no other locator has the
      address; then the locators are the same ones.
     */
    method ChangeAddress(p: nat, j: nat, a: Addr) returns (result: Result)
      requires Valid() && p < |groups| && j < |groups[p]| && groups[p][j].addr.Ip? && Rank(a) == Rank(groups[p][j].addr)
      requires forall i :: 0 <= i < |groups[p]| && i != j ==> groups[p][i].id != groups[p][j].id
      modifies this`groups
      ensures result == Good && |groups| == |old(groups)|
      ensures Valid() <==> Unused(old(groups)[p], j, a)
      ensures Valid() ==> multiset(groups[p]) == multiset(Moved(old(groups)[p], j, a))
      ensures forall i :: 0 <= i < |groups| && i != p ==> groups[i] == old(groups)[i]
    {
      hide GroupOk, Sorted, FirstAt, Unused, Shaped;
      ChangeMeans(groups, p, j, a);
      MovedShaped(groups, p, j, a);
      groups := groups[p := Moved(groups[p], j, a)];
      ChangedFound(old(groups), p, j, a);
      result := SortLocators(a);
    }
  }

  lemma ChangedFound(gs: seq<Group>, p: nat, j: nat, a: Addr)
    requires GroupsOk(gs) && p < |gs| && j < |gs[p]| && a.Ip? && Rank(a) == Rank(gs[p][j].addr)
    ensures var ms := gs[p := Moved(gs[p], j, a)];
            HasGroup(ms, Rank(a)) && GroupPlace(ms, Rank(a)) == p && FirstAt(ms[p], a) < |ms[p]|
  {
    hide GroupOk, GroupsOk, FirstAt;
    GroupsMember(gs, p);
    GroupsRanks(gs);
    Family(gs[p], j);
    MovedShaped(gs, p, j, a);
    GroupPlaceIs(gs[p := Moved(gs[p], j, a)], Rank(a), p);
    FirstFound(Moved(gs[p], j, a), a, j);
  }

  lemma Appended(gs: seq<Group>, h: Group)
    requires h != [] && forall j :: 0 <= j < |gs| ==> gs[j] != [] && Rank(gs[j][0].addr) < Rank(h[0].addr)
    ensures Accepts(h, gs, CmpAfi) && Insert(h, gs, CmpAfi) == gs + [h]
  {}

  lemma CountAppend(gs: seq<Group>, h: Group)
    ensures Count(gs + [h]) == Count(gs) + Addressed(h)
  {
    CountInsert(gs, |gs|, h);
    assert gs[..|gs|] + [h] + gs[|gs|..] == gs + [h];
  }

  /** mapping_cmp: 0 exactly for the same EID address, count and locators, group by group */
  method MappingCmp(m1: Mapping, m2: Mapping) returns (r: int)
    requires m1.eid.Ip? && m2.eid.Ip?
    ensures r == 0 <==> m1.eid == m2.eid && m1.count == m2.count && SameGroups(m1.groups, m2.groups)
  {
    if m1.eid != m2.eid || m1.count != m2.count || |m1.groups| != |m2.groups| { return 1; }
    for i := 0 to |m1.groups|
      invariant forall k :: 0 <= k < i ==> SameGroup(m1.groups[k], m2.groups[k])
    {
      var g, h := m1.groups[i], m2.groups[i];
      if |g| != |h| {
        assert !SameGroup(g, h);
        return 1;
      }
      for j := 0 to |g|
        invariant forall k :: 0 <= k < j ==> SameLoc(g[k], h[k])
      {
        if !SameLoc(g[j], h[j]) {
          assert !SameGroup(g, h);
          return 1;
        }
      }
    }
    return 0;
  }

  /** Updating from a mapping makes the two compare equal, exactly if all its locators have addresses. */
  method UpdateThenCompare(m: Mapping, from: Mapping, id: int) returns (r: int)
    requires m != from && from.Valid() && m.eid.Ip? && m.eid == from.eid
    requires forall i, k :: 0 <= i < |from.groups| && 0 <= k < |from.groups[i]| ==> from.groups[i][k].id < id
    modifies m
    ensures m.Valid()
    ensures r == 0 <==> Inactive(from.groups) == []
  {
    m.UpdateLocators(from.groups, id);
    CopiesSameIff(from.groups, m.groups, id);
    SameGroupsSym(from.groups, m.groups);
    r := MappingCmp(m, from);
  }

  lemma SameGroupsSym(gs: seq<Group>, hs: seq<Group>)
    ensures SameGroups(gs, hs) <==> SameGroups(hs, gs)
  {
    forall g: Group, h: Group | SameGroup(g, h)
      ensures SameGroup(h, g)
    {
      assert forall k :: 0 <= k < |g| ==> SameLoc(h[k], g[k]);
    }
  }

  lemma GroupFound(gs: seq<Group>, rank: nat, p: nat)
    requires GroupsOk(gs) && p <= |gs|
    requires forall i :: 0 <= i < p ==> Rank(gs[i][0].addr) != rank
    requires p < |gs| ==> Rank(gs[p][0].addr) == rank
    ensures HasGroup(gs, rank) <==> p < |gs|
    ensures p < |gs| ==> p == GroupPlace(gs, rank)
    ensures rank == 0 ==> Inactive(gs) == if p < |gs| then gs[p] else []
  {}

  lemma SameAddress(l: Loc, x: Loc)
    requires CmpAddr(l, x) == 0
    ensures l.addr.Ip? ==> l.addr == x.addr
    ensures l.addr.NoAddr? ==> l.id == x.id
  {}

  lemma AddReplaces(g: Group, l: Loc, k: nat)
    requires GroupOk(g) && k == Place(g, l.addr) && k < |g| && g[k].addr == l.addr && l.addr.Ip?
    ensures AddToGroup(g, l) == if g[k].priority > l.priority then g[k := l] else g
    ensures FindIn(g, l.addr) == Some(g[k])
  {}

  lemma NotThere(g: Group, l: Loc)
    requires GroupOk(g) && forall i :: 0 <= i < |g| ==> CmpAddr(l, g[i]) != 0
    ensures NewTo(g, l) || Rank(g[0].addr) != Rank(l.addr)
    ensures !HasAddr(g, l.addr)
  {}
}
