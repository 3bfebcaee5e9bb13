/** What a Map-Register can change: nothing before it is authenticated, and then only what its sites allow. */
module MapServerAuth {
  import opened Options
  import opened Prefixes
  import opened RegistrySpec
  import opened MapServerSpec

  /** The key of the first configured site that a record names: the one the message must verify under. */
  function FirstKey(sites: map<Prefix, Site>, recs: seq<Record>): Option<string>
    requires SitesOk(sites) && RecordsOk(recs)
  {
    if recs == [] then None
    else
      var eid := NetworkPrefix(recs[0].eid);
      BestMatches(sites, eid.ip, Width(eid.ip));
      match FindSite(sites, eid.ip)
      case None => FirstKey(sites, recs[1..])
      case Some(p) => Some(sites[p].key)
  }

  /** A message that does not verify under that key changes nothing at all, whatever else it holds. */
  lemma {:induction false} UnauthenticatedChangesNothing(ms: Ms, msg: Message, recs: seq<Record>)
    requires Linked(ms) && RecordsOk(recs)
    requires FirstKey(ms.sites, recs).Some? ==> !msg.auth(FirstKey(ms.sites, recs).value)
    ensures Process(ms, msg, recs, None) ==
            Outcome(ms, None, msg.complete && FirstKey(ms.sites, recs).None?, [])
    decreases |recs|
  {
    hide Network, SitesOk, FindSite, ValidPrefix;
    if recs != [] {
      var eid := NetworkPrefix(recs[0].eid);
      if FindSite(ms.sites, eid.ip).None? { UnauthenticatedChangesNothing(ms, msg, recs[1..]); }
    }
  }

  /** The configuration of a site that a message cannot change. */
  ghost predicate SameConfig(sites: map<Prefix, Site>, sites': map<Prefix, Site>) {
    sites'.Keys == sites.Keys && forall p :: p in sites ==> sites'[p].(proxy := sites[p].proxy) == sites[p]
  }

  /** A registration that the sites allow: inside the prefix of its longest match, or of the same address part. */
  ghost predicate Allowed(sites: map<Prefix, Site>, key: string, eid: Prefix)
    requires SitesOk(sites)
  {
    && ValidPrefix(eid) && FindSite(sites, eid.ip).Some?
    && var p := FindSite(sites, eid.ip).value;
       && p in sites && key <= sites[p].key
       && (if sites[p].moreSpecifics then Covers(sites[p].prefix, eid) else sites[p].prefix.ip == eid.ip)
  }

  lemma {:induction false} BestSame(sites: map<Prefix, Site>, sites': map<Prefix, Site>, ip: Ip, len: nat)
    requires SameConfig(sites, sites') && ValidIp(ip) && len <= Width(ip)
    ensures BestUpTo(sites', ip, len) == BestUpTo(sites, ip, len)
    decreases len
  {
    hide Network;
    if len > 0 { BestSame(sites, sites', ip, len - 1); }
  }

  lemma AllowedSame(sites: map<Prefix, Site>, sites': map<Prefix, Site>, key: string, eid: Prefix)
    requires SitesOk(sites) && SitesOk(sites') && SameConfig(sites, sites') && Allowed(sites', key, eid)
    ensures Allowed(sites, key, eid)
  {
    hide Covers, BestUpTo, SitesOk, ValidPrefix;
    BestSame(sites, sites', eid.ip, Width(eid.ip)) by { ValidParts(eid); }
  }

  lemma ValidParts(p: Prefix)
    requires ValidPrefix(p)
    ensures ValidIp(p.ip)
  {}

  lemma JudgeAllows(sites: map<Prefix, Site>, auth: string -> bool, key: Option<string>, eid: Prefix)
    requires SitesOk(sites) && ValidPrefix(eid) && (key.Some? ==> auth(key.value))
    ensures match Judge(sites, auth, key, eid)
            case Refused => key.None?
            case Skipped(k) =>
              && (k.Some? ==> auth(k.value) && !Allowed(sites, k.value, eid)) && (key.Some? ==> k == key)
              && (k.None? ==> FindSite(sites, eid.ip).None?)
            case Taken(k, p) =>
              && p in sites && FindSite(sites, eid.ip) == Some(p) && auth(k)
              && (key.Some? ==> key == Some(k)) && Allowed(sites, k, eid)
  {
    hide Covers, Network;
    BestMatches(sites, eid.ip, Width(eid.ip));
    if FindSite(sites, eid.ip).Some? {
      PartOfIff(sites[FindSite(sites, eid.ip).value].prefix, eid);
    }
  }

  /** The records that their sites allow under a key, in order, their EIDs reduced to networks. */
  ghost function Admitted(sites: map<Prefix, Site>, key: string, recs: seq<Record>): seq<Record>
    requires SitesOk(sites) && RecordsOk(recs)
  {
    if recs == [] then []
    else
      var rec := Normal(recs[0]);
      (if Allowed(sites, key, rec.eid) then [rec] else []) + Admitted(sites, key, recs[1..])
  }

  lemma {:induction false} AdmittedSame(sites: map<Prefix, Site>, sites': map<Prefix, Site>, key: string, recs: seq<Record>)
    requires SitesOk(sites) && SitesOk(sites') && SameConfig(sites, sites') && RecordsOk(recs)
    ensures Admitted(sites', key, recs) == Admitted(sites, key, recs)
    decreases |recs|
  {
    hide SitesOk, SameConfig, ValidPrefix, Allowed, NetworkPrefix;
    if recs != [] {
      var eid := NetworkPrefix(recs[0].eid);
      SameConfigBack(sites, sites');
      if Allowed(sites', key, eid) { AllowedSame(sites, sites', key, eid); }
      if Allowed(sites, key, eid) { AllowedSame(sites', sites, key, eid); }
      AdmittedSame(sites, sites', key, recs[1..]);
    }
  }

  lemma SameConfigBack(sites: map<Prefix, Site>, sites': map<Prefix, Site>)
    requires SameConfig(sites, sites')
    ensures SameConfig(sites', sites)
  {}

  /** Once the key is verified, the records taken are exactly those admitted under it. */
  lemma {:induction false} TakenExact(ms: Ms, msg: Message, recs: seq<Record>, key: string)
    requires Distinct(ms) && RecordsOk(recs) && msg.auth(key)
    ensures var o := Process(ms, msg, recs, Some(key)); o.taken == Admitted(ms.sites, key, recs) && o.good == msg.complete
    decreases |recs|
  {
    hide Network, SitesOk, Judge, Register, Effect, Allowed, Linked, ValidPrefix;
    LinkedFacts(ms);
    if recs != [] {
      var rec := Normal(recs[0]);
      JudgeAllows(ms.sites, msg.auth, Some(key), rec.eid);
      match Judge(ms.sites, msg.auth, Some(key), rec.eid)
      case Skipped(k) => TakenExact(ms, msg, recs[1..], key);
      case Taken(k, site) =>
        RegisterEffect(ms, site, msg.proxy, rec);
        RegisterDistinct(ms, site, msg.proxy, rec);
        var next := Register(ms, site, msg.proxy, rec);
        LinkedFacts(next);
        EffectConfig(ms, next, {rec.eid});
        TakenExact(next, msg, recs[1..], key);
        AdmittedSame(ms.sites, next.sites, key, recs[1..]);
    }
  }

  function Eids(recs: seq<Record>): set<Prefix> {
    set r | r in recs :: r.eid
  }

  /** What the records taken did: every EID among them is registered and dated, no other EID is touched. */
  ghost predicate Effect(ms: Ms, ms': Ms, eids: set<Prefix>) {
    && ms'.now == ms.now && ms'.ticking == ms.ticking && SameConfig(ms.sites, ms'.sites)
    && ms'.db.Keys == ms.db.Keys + eids
    && ms'.last.Keys == ms.last.Keys + eids
    && (forall e :: e in ms.db ==> ms'.db[e] == ms.db[e])
    && (forall e :: e in eids ==> ms'.last[e] == ms.now)
    && (forall e :: e in ms.last && e !in eids ==> ms'.last[e] == ms.last[e])
    && (forall e :: e in ms.db && e !in eids && ms.db[e] in ms.rsites ==>
          ms.db[e] in ms'.rsites && ms'.rsites[ms.db[e]] == ms.rsites[ms.db[e]])
  }

  /** The facts about the stored sites that the effect of a record needs. */
  ghost predicate Distinct(ms: Ms) {
    && Linked(ms)
    && (forall e, f :: e in ms.db && f in ms.db && ms.db[e] == ms.db[f] ==> e == f)
    && (forall o :: o in ms.rsites ==> o < ms.heap)
  }

  lemma RegisterEffect(ms: Ms, site: Prefix, proxy: bool, rec: Record)
    requires Distinct(ms) && site in ms.sites
    ensures rec.eid in ms.db ==> ms.db[rec.eid] in ms.rsites
    ensures Effect(ms, Register(ms, site, proxy, rec), {rec.eid})
  {
    hide Register, Effect, Linked;
    LinkedFacts(ms);
    if rec.eid in ms.db { RenewEffect(ms, site, proxy, rec); } else { NewEffect(ms, site, proxy, rec); }
  }

  lemma RenewEffect(ms: Ms, site: Prefix, proxy: bool, rec: Record)
    requires Distinct(ms) && site in ms.sites && rec.eid in ms.db && ms.db[rec.eid] in ms.rsites
    ensures Effect(ms, Register(ms, site, proxy, rec), {rec.eid})
  {
    hide Restart, SitesOk, Linked;
    var ms' := Register(ms, site, proxy, rec);
    assert ms'.db.Keys == ms.db.Keys + {rec.eid};
    assert ms'.last.Keys == ms.last.Keys + {rec.eid};
  }

  lemma NewEffect(ms: Ms, site: Prefix, proxy: bool, rec: Record)
    requires Distinct(ms) && site in ms.sites && rec.eid !in ms.db
    ensures Effect(ms, Register(ms, site, proxy, rec), {rec.eid})
  {
    hide Create, Arm, SitesOk, Linked;
    var ms' := Register(ms, site, proxy, rec);
    assert ms'.db.Keys == ms.db.Keys + {rec.eid};
    assert ms'.last.Keys == ms.last.Keys + {rec.eid};
  }

  lemma RegisterDistinct(ms: Ms, site: Prefix, proxy: bool, rec: Record)
    requires Distinct(ms) && site in ms.sites
    ensures rec.eid in ms.db ==> ms.db[rec.eid] in ms.rsites
    ensures Distinct(Register(ms, site, proxy, rec))
  {
    hide Restart, Create, Arm, SitesOk, Linked;
    LinkedFacts(ms);
    RegisterLinked(ms, site, proxy, rec);
  }

  lemma EffectThen(a: Ms, b: Ms, c: Ms, s: set<Prefix>, t: set<Prefix>)
    requires Effect(a, b, s) && Effect(b, c, t) && forall e :: e in a.db ==> a.db[e] in a.rsites
    ensures Effect(a, c, s + t)
  {}

  lemma EffectNone(ms: Ms)
    ensures Effect(ms, ms, {})
  {}

  /**
    After whatever records and key so far: the key, once verified, stays; each record taken is
    allowed by its site under that key; and exactly the EIDs taken are registered and dated now.
   */
  lemma {:induction false} TakenAllowed(ms: Ms, msg: Message, recs: seq<Record>, key: Option<string>)
    requires Distinct(ms) && RecordsOk(recs) && (key.Some? ==> msg.auth(key.value))
    ensures var o := Process(ms, msg, recs, key);
            && (key.Some? ==> o.key == key)
            && (o.taken != [] ==> o.key.Some? && msg.auth(o.key.value))
            && (forall r :: r in o.taken ==> Allowed(ms.sites, o.key.value, r.eid))
            && Effect(ms, o.ms, Eids(o.taken))
    decreases |recs|
  {
    hide Network, SitesOk, Judge, Register, Effect, Allowed, Linked, ValidPrefix;
    LinkedFacts(ms);
    EffectNone(ms);
    assert Eids([]) == {};
    if recs != [] {
      var rec := Normal(recs[0]);
      JudgeAllows(ms.sites, msg.auth, key, rec.eid);
      match Judge(ms.sites, msg.auth, key, rec.eid)
      case Refused =>
      case Skipped(k) => TakenAllowed(ms, msg, recs[1..], k);
      case Taken(k, site) =>
        RegisterEffect(ms, site, msg.proxy, rec);
        RegisterDistinct(ms, site, msg.proxy, rec);
        var next := Register(ms, site, msg.proxy, rec);
        LinkedFacts(next);
        TakenAllowed(next, msg, recs[1..], Some(k));
        var rest := Process(next, msg, recs[1..], Some(k));
        EffectThen(ms, next, rest.ms, {rec.eid}, Eids(rest.taken));
        assert Eids([rec] + rest.taken) == {rec.eid} + Eids(rest.taken);
        forall r | r in rest.taken
          ensures Allowed(ms.sites, k, r.eid)
        {
          EffectConfig(ms, next, {rec.eid});
          AllowedSame(ms.sites, next.sites, k, r.eid);
        }
    }
  }

  lemma EffectConfig(a: Ms, b: Ms, s: set<Prefix>)
    requires Effect(a, b, s)
    ensures SameConfig(a.sites, b.sites)
  {}

  /**
    If a Map-Register verifies under the key of the first
    configured site it names, it takes exactly the records that their own sites allow under that
    key, and otherwise none; and the registrations and dates that change are exactly those of the
    records taken.
   */
  lemma RegisterLaw(ms: Ms, msg: Message)
    requires Distinct(ms) && RecordsOk(msg.recs)
    ensures var o, first := Receive(ms, msg), FirstKey(ms.sites, msg.recs);
            && o.taken == (if first.Some? && msg.auth(first.value)
                           then Admitted(ms.sites, first.value, msg.recs) else [])
            && (first.Some? && msg.auth(first.value) ==> o.key == first && o.good == msg.complete)
            && (first.Some? && !msg.auth(first.value) ==> o.ms == ms && !o.good)
            && (forall r :: r in o.taken ==> first.Some? && Allowed(ms.sites, first.value, r.eid))
            && Effect(ms, o.ms, Eids(o.taken))
  {
    hide Effect, Allowed, Process;
    TakenAllowed(ms, msg, msg.recs, None);
    var first := FirstKey(ms.sites, msg.recs);
    if first.None? || !msg.auth(first.value) {
      UnauthenticatedChangesNothing(ms, msg, msg.recs);
    } else {
      KeyIsFirst(ms, msg, msg.recs);
    }
  }

  lemma {:induction false} KeyIsFirst(ms: Ms, msg: Message, recs: seq<Record>)
    requires Distinct(ms) && RecordsOk(recs)
    requires FirstKey(ms.sites, recs).Some? && msg.auth(FirstKey(ms.sites, recs).value)
    ensures var o, key := Process(ms, msg, recs, None), FirstKey(ms.sites, recs);
            o.key == key && o.taken == Admitted(ms.sites, key.value, recs) && o.good == msg.complete
    decreases |recs|
  {
    hide Network, SitesOk, FindSite, ValidPrefix, Register, Effect;
    LinkedFacts(ms);
    var rec := Normal(recs[0]);
    JudgeAllows(ms.sites, msg.auth, None, rec.eid);
    match Judge(ms.sites, msg.auth, None, rec.eid)
    case Skipped(k) =>
      if k.None? {
        KeyIsFirst(ms, msg, recs[1..]);
      } else {
        TakenAllowed(ms, msg, recs[1..], k);
        TakenExact(ms, msg, recs[1..], k.value);
      }
    case Taken(k, site) =>
      RegisterEffect(ms, site, msg.proxy, rec);
      RegisterDistinct(ms, site, msg.proxy, rec);
      var next := Register(ms, site, msg.proxy, rec);
      LinkedFacts(next);
      EffectConfig(ms, next, {rec.eid});
      TakenAllowed(next, msg, recs[1..], Some(k));
      TakenExact(next, msg, recs[1..], k);
      AdmittedSame(ms.sites, next.sites, k, recs[1..]);
  }

  // ---------- what is stored ----------

  /** The last record for an EID. */
  function LastFor(recs: seq<Record>, e: Prefix): (k: nat)
    requires exists i :: 0 <= i < |recs| && recs[i].eid == e
    ensures k < |recs| && recs[k].eid == e && forall i :: k < i < |recs| ==> recs[i].eid != e
  {
    var n := |recs| - 1;
    if recs[n].eid == e then n else
      assert exists i :: 0 <= i < n && recs[..n][i].eid == e by {
        var i :| 0 <= i < |recs| && recs[i].eid == e;
        assert recs[..n][i] == recs[i];
      }
      LastFor(recs[..n], e)
  }

  /** The stored mapping of an EID compares equal to a record. */
  ghost predicate Stores(ms: Ms, e: Prefix, rec: Record) {
    e in ms.db && ms.db[e] in ms.rsites && ms.rsites[ms.db[e]].locs.compared == rec.locs.compared
  }

  ghost predicate Merges(sites: map<Prefix, Site>, e: Prefix) {
    ValidPrefix(e) && FindSite(sites, e.ip).Some? && FindSite(sites, e.ip).value in sites
    && sites[FindSite(sites, e.ip).value].merge
  }

  lemma RegisterStores(ms: Ms, site: Prefix, proxy: bool, rec: Record)
    requires Linked(ms) && site in ms.sites && !ms.sites[site].merge
    ensures Stores(Register(ms, site, proxy, rec), rec.eid, rec)
  {
    hide Restart, Create, Arm, SitesOk;
  }

  lemma MergesSame(sites: map<Prefix, Site>, sites': map<Prefix, Site>, e: Prefix)
    requires SameConfig(sites, sites')
    ensures Merges(sites', e) <==> Merges(sites, e)
  {
    if ValidPrefix(e) { BestSame(sites, sites', e.ip, Width(e.ip)); }
    hide BestUpTo, ValidPrefix;
  }

  lemma EffectStores(a: Ms, b: Ms, s: set<Prefix>, e: Prefix, rec: Record)
    requires Effect(a, b, s) && Stores(a, e, rec) && e !in s
    ensures Stores(b, e, rec)
  {}

  ghost predicate Takes(taken: seq<Record>, e: Prefix) {
    exists i :: 0 <= i < |taken| && taken[i].eid == e
  }

  /** Unless its site merges, an EID taken ends up with the locators of the last record taken for it. */
  lemma {:induction false} StoredIsLatest(ms: Ms, msg: Message, recs: seq<Record>, key: Option<string>, e: Prefix)
    requires Distinct(ms) && RecordsOk(recs) && (key.Some? ==> msg.auth(key.value)) && !Merges(ms.sites, e)
    requires Takes(Process(ms, msg, recs, key).taken, e)
    ensures var o := Process(ms, msg, recs, key); Stores(o.ms, e, o.taken[LastFor(o.taken, e)])
    decreases |recs|
  {
    hide Network, SitesOk, Judge, Register, Effect, Linked, ValidPrefix, Stores, Allowed, LastFor, Merges;
    LinkedFacts(ms);
    var rec := Normal(recs[0]);
    JudgeAllows(ms.sites, msg.auth, key, rec.eid);
    match Judge(ms.sites, msg.auth, key, rec.eid)
    case Refused =>
    case Skipped(k) => StoredIsLatest(ms, msg, recs[1..], k, e);
    case Taken(k, site) =>
      RegisterEffect(ms, site, msg.proxy, rec);
      RegisterDistinct(ms, site, msg.proxy, rec);
      var next := Register(ms, site, msg.proxy, rec);
      var rest := Process(next, msg, recs[1..], Some(k));
      EffectConfig(ms, next, {rec.eid});
      MergesSame(ms.sites, next.sites, e);
      if Takes(rest.taken, e) {
        StoredIsLatest(next, msg, recs[1..], Some(k), e);
        LastLater(rec, rest.taken, e);
      } else {
        TakenAllowed(next, msg, recs[1..], Some(k));
        assert e !in Eids(rest.taken);
        LastHere(rec, rest.taken, e);
        SiteMerges(ms.sites, site, rec.eid);
        RegisterStores(ms, site, msg.proxy, rec);
        EffectStores(next, rest.ms, Eids(rest.taken), e, rec);
      }
  }

  lemma SiteMerges(sites: map<Prefix, Site>, site: Prefix, e: Prefix)
    requires ValidPrefix(e) && FindSite(sites, e.ip) == Some(site) && site in sites
    ensures Merges(sites, e) <==> sites[site].merge
  {}

  lemma LastLater(rec: Record, taken: seq<Record>, e: Prefix)
    requires Takes(taken, e)
    ensures Takes([rec] + taken, e) && LastFor([rec] + taken, e) == LastFor(taken, e) + 1
  {
    hide LastFor;
    var all, k := [rec] + taken, LastFor(taken, e);
    assert all[k + 1].eid == e;
    assert forall i :: 0 <= i < |taken| ==> all[i + 1] == taken[i];
  }

  lemma LastHere(rec: Record, taken: seq<Record>, e: Prefix)
    requires Takes([rec] + taken, e) && !Takes(taken, e)
    ensures rec.eid == e && LastFor([rec] + taken, e) == 0
  {
    hide LastFor;
    var all := [rec] + taken;
    assert forall i :: 0 < i < |all| ==> all[i] == taken[i - 1];
  }

  // ---------- the proxy flag ----------

  /** What is compared of the locators stored for each registered EID. */
  ghost function StoredLocs(ms: Ms): map<Prefix, seq<int>> {
    StoredIn(ms.db, ms.rsites)
  }

  ghost function StoredIn(db: map<Prefix, Obj>, rsites: map<Obj, RegSite>): map<Prefix, seq<int>> {
    map e | e in db && db[e] in rsites :: rsites[db[e]].locs.compared
  }

  lemma StoredRenewed(db: map<Prefix, Obj>, rsites: map<Obj, RegSite>, rec: Record)
    requires rec.eid in db && db[rec.eid] in rsites
    requires forall e, f :: e in db && f in db && db[e] == db[f] ==> e == f
    ensures var o := db[rec.eid];
            && StoredIn(db, rsites[o := rsites[o].(locs := rec.locs)]) == StoredIn(db, rsites)[rec.eid := rec.locs.compared]
            && (rsites[o].locs.compared == rec.locs.compared ==>
                  StoredIn(db, rsites)[rec.eid := rec.locs.compared] == StoredIn(db, rsites))
  {
    var o := db[rec.eid];
    var m, n := StoredIn(db, rsites[o := rsites[o].(locs := rec.locs)]), StoredIn(db, rsites)[rec.eid := rec.locs.compared];
    assert m.Keys == n.Keys;
    assert forall e :: e in m ==> m[e] == n[e];
  }

  lemma StoredNew(db: map<Prefix, Obj>, rsites: map<Obj, RegSite>, rec: Record, o: Obj, t: Timer)
    requires rec.eid !in db && o !in rsites && forall e :: e in db ==> db[e] in rsites
    ensures StoredIn(db[rec.eid := o], rsites[o := RegSite(rec.eid, rec.locs, Some(t))])
         == StoredIn(db, rsites)[rec.eid := rec.locs.compared]
  {
    var m := StoredIn(db[rec.eid := o], rsites[o := RegSite(rec.eid, rec.locs, Some(t))]);
    var n := StoredIn(db, rsites)[rec.eid := rec.locs.compared];
    assert m.Keys == n.Keys;
    assert forall e :: e in m ==> m[e] == n[e];
  }

  ghost predicate HasSite(sites: map<Prefix, Site>, e: Prefix) {
    ValidPrefix(e) && FindSite(sites, e.ip).Some? && FindSite(sites, e.ip).value in sites
  }

  ghost function SiteOf(sites: map<Prefix, Site>, e: Prefix): Prefix
    requires HasSite(sites, e)
  {
    FindSite(sites, e.ip).value
  }

  /** What is stored after a record: a new EID is entered, other locators replace the old unless the site merges. */
  ghost function After(sites: map<Prefix, Site>, stored: map<Prefix, seq<int>>, rec: Record): map<Prefix, seq<int>> {
    if rec.eid in stored && Merges(sites, rec.eid) then stored else stored[rec.eid := rec.locs.compared]
  }

  /** The sites for which a record came that was new or differed from what was stored then. */
  ghost function Noticed(sites: map<Prefix, Site>, stored: map<Prefix, seq<int>>, taken: seq<Record>): set<Prefix>
    decreases |taken|
  {
    if taken == [] then {}
    else
      var rec := taken[0];
      var same := rec.eid in stored && stored[rec.eid] == rec.locs.compared;
      (if same || !HasSite(sites, rec.eid) then {} else {SiteOf(sites, rec.eid)})
      + Noticed(sites, After(sites, stored, rec), taken[1..])
  }

  lemma {:induction false} NoticedSame(sites: map<Prefix, Site>, sites': map<Prefix, Site>, stored: map<Prefix, seq<int>>,
                                       taken: seq<Record>)
    requires SameConfig(sites, sites')
    ensures Noticed(sites', stored, taken) == Noticed(sites, stored, taken)
    decreases |taken|
  {
    hide FindSite, ValidPrefix, Merges, HasSite;
    if taken != [] {
      MergesSame(sites, sites', taken[0].eid);
      SiteSame(sites, sites', taken[0].eid);
      NoticedSame(sites, sites', After(sites, stored, taken[0]), taken[1..]);
    }
  }

  lemma SiteSame(sites: map<Prefix, Site>, sites': map<Prefix, Site>, e: Prefix)
    requires SameConfig(sites, sites')
    ensures HasSite(sites', e) <==> HasSite(sites, e)
    ensures HasSite(sites, e) ==> SiteOf(sites', e) == SiteOf(sites, e)
  {
    if ValidPrefix(e) { BestSame(sites, sites', e.ip, Width(e.ip)); }
    hide BestUpTo, ValidPrefix;
  }

  lemma RegisterStored(ms: Ms, site: Prefix, proxy: bool, rec: Record)
    requires Distinct(ms) && site in ms.sites && (Merges(ms.sites, rec.eid) <==> ms.sites[site].merge)
    ensures rec.eid in ms.db ==> ms.db[rec.eid] in ms.rsites
    ensures StoredLocs(Register(ms, site, proxy, rec)) == After(ms.sites, StoredLocs(ms), rec)
  {
    hide Restart, Create, Arm, SitesOk, Merges, StoredIn;
    StoredHas(ms, rec.eid);
    if rec.eid in ms.db {
      StoredRenewed(ms.db, ms.rsites, rec);
    } else {
      StoredNew(ms.db, ms.rsites, rec, ms.heap, ms.heap + 1);
    }
  }

  lemma StoredHas(ms: Ms, e: Prefix)
    requires Linked(ms)
    ensures e in StoredLocs(ms) <==> e in ms.db
    ensures e in ms.db ==> ms.db[e] in ms.rsites && StoredLocs(ms)[e] == ms.rsites[ms.db[e]].locs.compared
  {
    hide SitesOk;
  }

  lemma RegisterProxy(ms: Ms, site: Prefix, proxy: bool, rec: Record)
    requires Linked(ms) && site in ms.sites
    ensures var same := rec.eid in StoredLocs(ms) && StoredLocs(ms)[rec.eid] == rec.locs.compared;
            Register(ms, site, proxy, rec).sites
            == if same then ms.sites else ms.sites[site := ms.sites[site].(proxy := proxy)]
  {
    hide Restart, Create, Arm, SitesOk;
  }

  /** Every site with the flag it has, or with the flag of the message if it is one of these. */
  ghost predicate FlagsSet(sites: map<Prefix, Site>, sites': map<Prefix, Site>, noticed: set<Prefix>, proxy: bool) {
    && sites'.Keys == sites.Keys
    && forall p :: p in sites ==> sites'[p] == if p in noticed then sites[p].(proxy := proxy) else sites[p]
  }

  lemma FlagsThen(a: map<Prefix, Site>, b: map<Prefix, Site>, c: map<Prefix, Site>, s: set<Prefix>, t: set<Prefix>, proxy: bool)
    requires FlagsSet(a, b, s, proxy) && FlagsSet(b, c, t, proxy)
    ensures FlagsSet(a, c, s + t, proxy)
  {}

  /**
    A Map-Register gives its proxy flag to exactly those sites for which it had a record taken that
    was new or whose locators differed from the ones stored by then, and changes nothing else of any
    site.
   */
  lemma {:induction false} ProxyLaw(ms: Ms, msg: Message, recs: seq<Record>, key: Option<string>)
    requires Distinct(ms) && RecordsOk(recs) && (key.Some? ==> msg.auth(key.value))
    ensures var o := Process(ms, msg, recs, key);
            FlagsSet(ms.sites, o.ms.sites, Noticed(ms.sites, StoredLocs(ms), o.taken), msg.proxy)
    decreases |recs|
  {
    hide Network, SitesOk, Judge, Register, Effect, Linked, ValidPrefix, Allowed, Merges, After, HasSite, StoredLocs;
    LinkedFacts(ms);
    if recs != [] {
      var rec := Normal(recs[0]);
      JudgeAllows(ms.sites, msg.auth, key, rec.eid);
      match Judge(ms.sites, msg.auth, key, rec.eid)
      case Refused =>
      case Skipped(k) => ProxyLaw(ms, msg, recs[1..], k);
      case Taken(k, site) =>
        RegisterEffect(ms, site, msg.proxy, rec);
        RegisterDistinct(ms, site, msg.proxy, rec);
        var next := Register(ms, site, msg.proxy, rec);
        LinkedFacts(next);
        EffectConfig(ms, next, {rec.eid});
        SiteMerges(ms.sites, site, rec.eid);
        RegisterStored(ms, site, msg.proxy, rec);
        RegisterProxy(ms, site, msg.proxy, rec);
        ProxyLaw(next, msg, recs[1..], Some(k));
        var rest := Process(next, msg, recs[1..], Some(k));
        NoticedSame(ms.sites, next.sites, StoredLocs(next), rest.taken);
        NoticedFirst(ms.sites, StoredLocs(ms), rec, rest.taken, site);
        var same := rec.eid in StoredLocs(ms) && StoredLocs(ms)[rec.eid] == rec.locs.compared;
        FlagsThen(ms.sites, next.sites, rest.ms.sites, if same then {} else {site},
                  Noticed(ms.sites, StoredLocs(next), rest.taken), msg.proxy);
    }
  }

  lemma NoticedFirst(sites: map<Prefix, Site>, stored: map<Prefix, seq<int>>, rec: Record, rest: seq<Record>, site: Prefix)
    requires ValidPrefix(rec.eid) && FindSite(sites, rec.eid.ip) == Some(site) && site in sites
    ensures var same := rec.eid in stored && stored[rec.eid] == rec.locs.compared;
            Noticed(sites, stored, [rec] + rest)
            == (if same then {} else {site}) + Noticed(sites, After(sites, stored, rec), rest)
  {
    assert ([rec] + rest)[1..] == rest;
  }
}
