/** What it means that mapping_cmp calls two mappings equal. */
module MappingCompare {
  import opened Options
  import opened Mappings
  import opened MappingStore

  /** What is found for an address in two mappings: nothing in both, or the same priorities and weights. */
  ghost predicate SameFound(x: Option<Loc>, y: Option<Loc>) {
    if x.None? || y.None? then x.None? && y.None?
    else && x.value.priority == y.value.priority && x.value.weight == y.value.weight
         && x.value.mpriority == y.value.mpriority && x.value.mweight == y.value.mweight
  }

  ghost predicate SameEverywhere(gs: seq<Group>, hs: seq<Group>) {
    forall a :: SameFound(Lookup(gs, a), Lookup(hs, a))
  }

  ghost predicate AllAddressed(gs: seq<Group>) {
    forall i, j :: 0 <= i < |gs| && 0 <= j < |gs[i]| ==> gs[i][j].addr.Ip?
  }

  // ---------- ascending numbers ----------

  ghost predicate Rising(s: seq<int>) {
    forall i, j :: 0 <= i < j < |s| ==> s[i] < s[j]
  }

  ghost predicate Has(s: seq<int>, v: int) {
    exists i :: 0 <= i < |s| && s[i] == v
  }

  ghost predicate Within(s: seq<int>, t: seq<int>) {
    forall i :: 0 <= i < |s| ==> Has(t, s[i])
  }

  lemma {:induction false} SameRising(s: seq<int>, t: seq<int>)
    requires Rising(s) && Rising(t) && Within(s, t) && Within(t, s)
    ensures s == t
    decreases |s|
  {
    assert t != [] ==> Has(s, t[0]);
    if s != [] {
      assert Has(t, s[0]);
      assert Has(s, t[0]);
      assert s[0] == t[0];
      RestWithin(s, t);
      RestWithin(t, s);
      SameRising(s[1..], t[1..]);
    }
  }

  lemma RestWithin(s: seq<int>, t: seq<int>)
    requires s != [] && t != [] && s[0] == t[0] && Rising(s) && Within(s, t)
    ensures Within(s[1..], t[1..])
  {
    forall i | 0 <= i < |s[1..]|
      ensures Has(t[1..], s[1..][i])
    {
      assert Has(t, s[i + 1]);
      var k :| 0 <= k < |t| && t[k] == s[i + 1];
      assert s[0] < s[i + 1];
      assert t[1..][k - 1] == s[1..][i];
    }
  }

  // ---------- families and addresses ----------

  function Ranks(gs: seq<Group>): (r: seq<int>)
    requires GroupsOk(gs)
    ensures |r| == |gs| && forall i :: 0 <= i < |gs| ==> r[i] == Rank(gs[i][0].addr)
  {
    seq(|gs|, i requires 0 <= i < |gs| => Rank(gs[i][0].addr))
  }

  function Values(g: Group): (r: seq<int>)
    ensures |r| == |g| && forall i :: 0 <= i < |g| ==> r[i] == Val(g[i])
  {
    seq(|g|, i requires 0 <= i < |g| => Val(g[i]))
  }

  lemma FoundIn(gs: seq<Group>, a: Addr)
    requires Lookup(gs, a).Some?
    ensures var p := GroupPlace(gs, Rank(a));
            && p < |gs| && gs[p] != [] && Rank(gs[p][0].addr) == Rank(a)
            && Place(gs[p], a) < |gs[p]| && gs[p][Place(gs[p], a)].addr == a
  {}

  lemma RanksWithin(gs: seq<Group>, hs: seq<Group>)
    requires GroupsOk(gs) && GroupsOk(hs) && AllAddressed(gs) && SameEverywhere(gs, hs)
    ensures Rising(Ranks(gs)) && Within(Ranks(gs), Ranks(hs))
  {
    hide Lookup;
    forall i | 0 <= i < |gs|
      ensures Has(Ranks(hs), Ranks(gs)[i])
    {
      GroupsNonEmpty(gs);
      EverythingFound(gs, i, 0);
      var a := gs[i][0].addr;
      assert SameFound(Lookup(gs, a), Lookup(hs, a));
      FoundIn(hs, a);
      assert Ranks(hs)[GroupPlace(hs, Rank(a))] == Ranks(gs)[i];
    }
  }

  lemma ValuesWithin(gs: seq<Group>, hs: seq<Group>, p: nat)
    requires GroupsOk(gs) && GroupsOk(hs) && AllAddressed(gs) && SameEverywhere(gs, hs)
    requires p < |gs| && p < |hs| && Rank(gs[p][0].addr) == Rank(hs[p][0].addr)
    ensures Rising(Values(gs[p])) && Within(Values(gs[p]), Values(hs[p]))
  {
    hide Lookup;
    GroupsNonEmpty(gs);
    assert GroupOk(gs[p]) && gs[p][0].addr.Ip?;
    forall j | 0 <= j < |gs[p]|
      ensures Has(Values(hs[p]), Values(gs[p])[j])
    {
      EverythingFound(gs, p, j);
      var a := gs[p][j].addr;
      assert SameFound(Lookup(gs, a), Lookup(hs, a));
      FoundIn(hs, a);
      GroupPlaceIs(hs, Rank(a), p) by { GroupsRanks(hs); }
      assert Values(hs[p])[Place(hs[p], a)] == Values(gs[p])[j];
    }
  }

  lemma Symmetric(gs: seq<Group>, hs: seq<Group>)
    requires SameEverywhere(gs, hs)
    ensures SameEverywhere(hs, gs)
  {
    forall a
      ensures SameFound(Lookup(hs, a), Lookup(gs, a))
    {
      assert SameFound(Lookup(gs, a), Lookup(hs, a));
    }
  }

  lemma GroupSame(gs: seq<Group>, hs: seq<Group>, p: nat)
    requires GroupsOk(gs) && GroupsOk(hs) && AllAddressed(gs) && AllAddressed(hs) && SameEverywhere(gs, hs)
    requires p < |gs| && p < |hs| && Rank(gs[p][0].addr) == Rank(hs[p][0].addr)
    ensures SameGroup(gs[p], hs[p])
  {
    hide Lookup;
    Symmetric(gs, hs);
    ValuesWithin(gs, hs, p);
    ValuesWithin(hs, gs, p);
    SameRising(Values(gs[p]), Values(hs[p]));
    assert |gs[p]| == |Values(gs[p])| == |hs[p]|;
    forall j | 0 <= j < |gs[p]|
      ensures SameLoc(gs[p][j], hs[p][j])
    {
      assert Values(gs[p])[j] == Values(hs[p])[j];
      GroupsMember(gs, p);
      GroupsMember(hs, p);
      Family(gs[p], j);
      Family(hs[p], j);
      EverythingFound(gs, p, j);
      EverythingFound(hs, p, j);
      var a := gs[p][j].addr;
      assert a == hs[p][j].addr;
      assert SameFound(Lookup(gs, a), Lookup(hs, a));
    }
  }

  lemma FoundSame(gs: seq<Group>, hs: seq<Group>, a: Addr)
    requires GroupsOk(gs) && GroupsOk(hs) && SameGroups(gs, hs) && Lookup(gs, a).Some?
    ensures SameFound(Lookup(gs, a), Lookup(hs, a))
  {
    FoundIn(gs, a);
    hide Lookup;
    var p := GroupPlace(gs, Rank(a));
    var j := Place(gs[p], a);
    assert SameGroup(gs[p], hs[p]);
    assert SameLoc(gs[p][j], hs[p][j]);
    EverythingFound(gs, p, j);
    EverythingFound(hs, p, j);
  }

  /**
    Two mappings in order, all of whose locators have addresses, compare equal if and only if they
    hold the same addresses, each with the same priorities and weights. So a change of any of these
    in any locator, and any locator more or less, is noticed; a change of state is not.
   */
  lemma SameIff(gs: seq<Group>, hs: seq<Group>)
    requires GroupsOk(gs) && GroupsOk(hs) && AllAddressed(gs) && AllAddressed(hs)
    ensures SameGroups(gs, hs) <==> SameEverywhere(gs, hs)
  {
    hide Lookup, SameGroup, GroupsOk;
    if SameGroups(gs, hs) {
      SameGroupsSym(gs, hs);
      forall a
        ensures SameFound(Lookup(gs, a), Lookup(hs, a))
      {
        if Lookup(gs, a).Some? { FoundSame(gs, hs, a); }
        if Lookup(hs, a).Some? { FoundSame(hs, gs, a); }
      }
    }
    if SameEverywhere(gs, hs) {
      Symmetric(gs, hs);
      RanksWithin(gs, hs);
      RanksWithin(hs, gs);
      SameRising(Ranks(gs), Ranks(hs));
      assert |gs| == |Ranks(gs)| == |hs|;
      forall p | 0 <= p < |gs|
        ensures SameGroup(gs[p], hs[p])
      {
        assert Ranks(gs)[p] == Ranks(hs)[p];
        GroupsNonEmpty(gs);
        GroupsNonEmpty(hs);
        GroupSame(gs, hs, p);
      }
    }
  }
}
