/** Tables, mappings and messages for which a law of theirs fails. */
module DataExamples {
  import opened Options
  import opened Bytes
  import opened Checksum
  import opened EcmSpec
  import opened Mappings
  import opened MappingStore
  import opened RecordSpec
  import FlowSpec
  import FlowTable
  import IfaceMappings
  import P = Prefixes
  import R = RegistrySpec
  import MapServerAuth
  import MS = MapServerSpec
  import MapServerRuns

  /** A timer of object 1, stopped under object 2, stays in the index when it is gone. */
  lemma WrongOwnerExample()
    ensures var r := R.Create(R.Empty(), 10, R.TimerRec(R.Expiry, 1, 0, None));
            R.Inv(r) && !R.Inv(R.StopOne(r, 2, 10))
  {
    var rec := R.TimerRec(R.Expiry, 1, 0, None);
    hide R.StopOne;
    R.CreateKeepsInv(R.Empty(), 10, rec);
    R.StopOneKeepsInvIff(R.Create(R.Empty(), 10, rec), 2, 10);
  }

  function At(id: int, a: Addr): Loc {
    Loc(id, a, true, 1, 100, 255, 0)
  }

  /** Of two locators the first is given the address of the second. */
  lemma ResortExample()
    ensures var g := [At(1, Ip(false, 7)), At(2, Ip(false, 9))];
            GroupOk(g) && !GroupOk(Resort(Moved(g, 0, Ip(false, 9)), Ip(false, 9)))
  {
    hide Resort;
    var g := [At(1, Ip(false, 7)), At(2, Ip(false, 9))];
    assert g[1].addr == Ip(false, 9);
    ResortIff(g, 0, Ip(false, 9));
  }

  /** A mapping whose only locator has no address differs from its copy. */
  lemma CopyExample()
    ensures var gs, hs := [[At(1, NoAddr)]], [[At(2, NoAddr)]];
            GroupsOk(gs) && Copies(gs, hs, 2) && !SameGroups(gs, hs)
  {
    var gs, hs := [[At(1, NoAddr)]], [[At(2, NoAddr)]];
    assert GroupOk(gs[0]);
    assert Inactive(gs) == gs[0];
    CopiesSameIff(gs, hs, 2);
  }

  /** A mapping with one locator: when it is removed, the count still says one. */
  method RemoveExample(a: Addr) returns (m: MappingStore.Mapping)
    requires a.Ip?
    ensures m.groups == [] && m.count == 1
  {
    hide GroupsOk, AddTo, Removed, Lookup, Inactive;
    OnlyLocator(At(1, a));
    m := new MappingStore.Mapping(NoAddr, 0);
    var _ := m.AddLocator(At(1, a));
    m.RemoveLocator(1, a);
  }

  lemma OnlyLocator(l: Loc)
    requires l.addr.Ip?
    ensures NewTo(Inactive([]), l) && AddTo([], l) == [[l]] && Count([[l]]) == 1 && Removed([[l]], l.id, l.addr) == []
  {}

  /** An address event for an address that another locator has leaves an empty list behind. */
  lemma DuplicateExample()
    ensures var gs, a := [[At(1, NoAddr)], [At(2, Ip(false, 7))]], Ip(false, 7);
            GroupsOk(gs) && !GroupsOk(IfaceMappings.AfterEvent(gs, [1], a))
  {
    hide IfaceMappings.AfterEvent, IfaceMappings.Tied, IfaceMappings.DistinctIds;
    var gs, a := [[At(1, NoAddr)], [At(2, Ip(false, 7))]], Ip(false, 7);
    assert GroupOk(gs[0]) && GroupOk(gs[1]);
    assert IfaceMappings.Tied(gs, [1], NoAddr) by { OneTied(gs); }
    assert IfaceMappings.DistinctIds(gs) by { TwoDistinct(gs); }
    assert Inactive(gs) == gs[0];
    EverythingFound(gs, 1, 0);
    IfaceMappings.EventKeepsIff(gs, [1], NoAddr, a);
  }

  lemma OneTied(gs: seq<Group>)
    requires gs == [[At(1, NoAddr)], [At(2, Ip(false, 7))]]
    ensures IfaceMappings.Tied(gs, [1], NoAddr)
  {
    assert gs[0][0].id == 1 && gs[0][0].addr == NoAddr;
    assert IfaceMappings.IsAt(gs, 1, NoAddr);
    assert [1][0] == 1;
  }

  lemma TwoDistinct(gs: seq<Group>)
    requires gs == [[At(1, NoAddr)], [At(2, Ip(false, 7))]]
    ensures IfaceMappings.DistinctIds(gs)
  {
    assert |gs[0]| == 1 && |gs[1]| == 1 && gs[0][0].id == 1 && gs[1][0].id == 2;
  }

  /** A pushed header over memory that held 1 and 0 does not verify, whatever it carries. */
  lemma HeaderExample(len: nat, id: nat, src: seq<Byte>, dst: seq<Byte>)
    requires len + 20 < WORD && id < WORD && |src| == 4 && |dst| == 4
    ensures Complement(Sum(PushedIp(len, id, src, dst, [1, 0]))) != 0
  {
    hide Sum, Complement, PushedIp;
    HeaderVerifiesIff(len, id, src, dst, [1, 0]);
  }

  /** A message of 256 records is parsed as one of none. */
  lemma ManyRecordsExample(h: seq<Byte>)
    requires |h| == HEADER_LENGTH && 1 <= h[0] / 16 <= 4 && h[3] == 0
    ensures var m := Mapping(Ip(false, 0), 0, 0, false, []);
            var ms, junk := seq(256, _ => m), seq(256, _ => []);
            AllOk(ms, junk) && ParseMessage(Built(h, ms, junk), 0) != Some(Expected(ms, junk, 0))
  {
    hide ParseMessage, Built, Expected;
    var m := Mapping(Ip(false, 0), 0, 0, false, []);
    var ms, junk := seq(256, _ => m), seq(256, _ => []);
    assert MappingOk(m);
    MessageRoundTripIff(h, ms, junk, 0);
  }

  /** A record written for the second of two locators as the probed one names the first if memory held its mark. */
  lemma ProbedExample()
    ensures var ls := [At(1, Ip(false, 7)), At(2, Ip(false, 9))];
            var junk: seq<Junk> := [(0, 2), (0, 0)];
            FirstMark(Marks(ls, junk, Some(Ip(false, 9))), 0) == Some(0)
  {
    var ls := [At(1, Ip(false, 7)), At(2, Ip(false, 9))];
    var junk: seq<Junk> := [(0, 2), (0, 0)];
    assert Marks(ls, junk, Some(Ip(false, 9)))[0] == (0, 2);
  }

  /** A flow inserted again into a table that holds nothing else: hash and list no longer agree, whatever the times. */
  method SameFlowTwice(t: FlowSpec.Tuple, value: int, again: int, temporal: bool, now: real, later: real)
      returns (f: FlowTable.Flows)
    ensures !FlowTable.Agree(f.nodes, f.htable, f.list)
  {
    f := new FlowTable.Flows();
    f.InsertFlow(t, value, temporal, now);
    assert f.Contents()[0].tpl == t;
    f.InsertFlow(t, again, temporal, later);
  }

  const EVERYTHING := P.Prefix(P.V4(0), 0)

  /** A server with one configured site, whose prefix the configuration registers too. */
  function OneStatic(locs: MS.Locators): MS.Ms {
    MS.Ms(R.Empty(), map[EVERYTHING := MS.Site(EVERYTHING, "key", false, false, false)], map[EVERYTHING := 0],
          map[0 := MS.RegSite(EVERYTHING, locs, None)], 0, false, 1, map[])
  }

  /** A message for that prefix which verifies is one that the Map-Server has no list of timers for. */
  lemma StaticTakenExample(locs: MS.Locators)
    ensures var ms, msg := OneStatic(locs), MS.Message([MS.Record(EVERYTHING, locs)], true, _ => true, false, false);
            && MapServerRuns.Configured(ms, {EVERYTHING}) && MS.RecordsOk(msg.recs)
            && !MapServerRuns.TakesNoStatic(ms, msg, {EVERYTHING})
  {
    hide P.Network, MS.BestUpTo;
    var ms, msg := OneStatic(locs), MS.Message([MS.Record(EVERYTHING, locs)], true, _ => true, false, false);
    EverythingNetwork();
    assert MapServerRuns.Configured(ms, {EVERYTHING});
    MS.FoundSiteIsLongest(ms.sites, P.V4(0));
    assert P.Matches(P.V4(0), EVERYTHING) by { EverythingMatches(); }
    assert MS.FindSite(ms.sites, P.V4(0)) == Some(EVERYTHING);
    var rec := msg.recs[0];
    assert MS.Normal(rec) == rec;
    assert MapServerAuth.Admitted(ms.sites, "key", msg.recs)[0] == rec;
  }

  lemma EverythingNetwork()
    ensures P.NetworkPrefix(EVERYTHING) == EVERYTHING
  {}

  lemma EverythingMatches()
    ensures P.Matches(P.V4(0), EVERYTHING)
  {}
}
