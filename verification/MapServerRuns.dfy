/** What holds of the Map-Server's registrations over every run. */
module MapServerRuns {
  import opened Options
  import opened Prefixes
  import opened RegistrySpec
  import opened MapServerSpec
  import MapServerAuth
  import opened Seqs
  import WheelSpec

  // ---------- the invariant ----------

  /** The registered sites and the database name each other. */
  ghost predicate DbOk(db: map<Prefix, Obj>, rsites: map<Obj, RegSite>) {
    && (forall e :: e in db ==> db[e] in rsites && rsites[db[e]].eid == e)
    && (forall o :: o in rsites ==> rsites[o].eid in db && db[rsites[o].eid] == o)
  }

  /** Every timer is the one lease of a registered site. */
  ghost predicate TimersOk(timers: map<Timer, TimerRec>, rsites: map<Obj, RegSite>) {
    forall t :: t in timers ==>
      && timers[t].kind == SiteExpiry && timers[t].nonces.None?
      && timers[t].obj in rsites && rsites[timers[t].obj].lease == Some(t)
  }

  /** A site registered by message has its lease, running until LEASE ticks after the latest record. */
  ghost predicate LeasesOk(timers: map<Timer, TimerRec>, alarms: map<Timer, nat>, rsites: map<Obj, RegSite>,
                           last: map<Prefix, nat>, statics: set<Prefix>)
  {
    forall o :: o in rsites ==>
      && (rsites[o].lease.None? <==> rsites[o].eid in statics)
      && (rsites[o].lease.Some? ==>
            var t := rsites[o].lease.value;
            && t in timers && timers[t].obj == o && t in alarms
            && rsites[o].eid in last && alarms[t] == last[rsites[o].eid] + LEASE)
  }

  ghost predicate ClockOk(alarms: map<Timer, nat>, now: nat, ticking: bool) {
    forall t :: t in alarms ==> if ticking then now <= alarms[t] else now < alarms[t]
  }

  ghost predicate HeapOk(timers: map<Timer, TimerRec>, rsites: map<Obj, RegSite>, heap: int) {
    (forall t :: t in timers ==> t < heap) && (forall o :: o in rsites ==> o < heap)
  }

  /** What is not in the database has outlived its lease. */
  ghost predicate LastOk(db: map<Prefix, Obj>, last: map<Prefix, nat>, now: nat, statics: set<Prefix>) {
    && (forall e :: e in last && e !in db ==> last[e] + LEASE <= now)
    && (forall e :: e in statics ==> e in db)
  }

  /** Only a site registered by message has a list of timers. */
  ghost predicate ListsLeased(index: map<Obj, seq<Timer>>, rsites: map<Obj, RegSite>) {
    forall o :: o in index ==> o in rsites && rsites[o].lease.Some?
  }

  ghost predicate Good(ms: Ms, statics: set<Prefix>) {
    && Inv(ms.reg) && SitesOk(ms.sites) && ListsLeased(ms.reg.index, ms.rsites)
    && DbOk(ms.db, ms.rsites)
    && TimersOk(ms.reg.timers, ms.rsites)
    && LeasesOk(ms.reg.timers, ms.reg.alarms, ms.rsites, ms.last, statics)
    && ClockOk(ms.reg.alarms, ms.now, ms.ticking)
    && HeapOk(ms.reg.timers, ms.rsites, ms.heap)
    && LastOk(ms.db, ms.last, ms.now, statics)
  }

  lemma GoodLinked(ms: Ms, statics: set<Prefix>)
    requires Good(ms, statics)
    ensures Linked(ms) && Inv(ms.reg)
    ensures forall t :: t in ms.reg.timers ==> ms.reg.timers[t].obj in ms.rsites
  {}

  // ---------- each step keeps it ----------

  /** The timers of a leased site are its lease and nothing else. */
  lemma OneTimer(ms: Ms, statics: set<Prefix>, o: Obj)
    requires Good(ms, statics) && o in ms.rsites && ms.rsites[o].lease.Some?
    ensures OfKind(ms.reg, o, SiteExpiry) == {ms.rsites[o].lease.value}
    ensures Only(ms.reg.timers, TimersOf(ms.reg, o), SiteExpiry) == [ms.rsites[o].lease.value]
    ensures forall t :: t in ms.reg.timers && ms.reg.timers[t].obj == o ==> t == ms.rsites[o].lease.value
  {
    hide Inv, DbOk, ClockOk, HeapOk, LastOk, SitesOk, Only;
    var l := ms.rsites[o].lease.value;
    assert forall t :: t in OfKind(ms.reg, o, SiteExpiry) <==> t == l;
    assert OfKind(ms.reg, o, SiteExpiry) == {l};
    OnlyOne(ms.reg, o, l);
  }

  lemma OnlyOne(r: Registry, o: Obj, l: Timer)
    requires Inv(r) && l in r.timers && r.timers[l].obj == o && r.timers[l].kind == SiteExpiry
    requires forall t :: t in r.timers && r.timers[t].obj == o ==> t == l
    ensures Only(r.timers, TimersOf(r, o), SiteExpiry) == [l]
  {
    hide TableOk, ListsOk, Only;
    var s := Only(r.timers, TimersOf(r, o), SiteExpiry);
    assert l in s;
    forall i | 0 <= i < |s|
      ensures s[i] == l
    {
      var t := s[i];
      assert t in s;
      assert t in TimersOf(r, o) && t in r.timers && r.timers[t].obj == o;
    }
    OneElement(s, l);
  }

  lemma Delay()
    ensures forall b :: WheelSpec.FiringDelay(LEASE, b) == LEASE
  {}

  lemma RenewGood(ms: Ms, statics: set<Prefix>, site: Prefix, proxy: bool, rec: Record)
    requires Good(ms, statics) && site in ms.sites && rec.eid in ms.db && rec.eid !in statics
    ensures ms.db[rec.eid] in ms.rsites
    ensures Good(Register(ms, site, proxy, rec), statics)
  {
    hide Inv, WheelSpec.FiringDelay, NetworkPrefix, ValidPrefix, Only, LeasesOk, LastOk, ClockOk;
    var o := ms.db[rec.eid];
    LeaseExists(ms, statics, rec.eid);
    var t := ms.rsites[o].lease.value;
    OneTimer(ms, statics, o);
    Delay();
    ArmKeepsInv(ms.reg, t, ms.now + LEASE);
    assert Restart(ms, o) == Arm(ms.reg, t, ms.now + LEASE);
    RenewLease(ms, statics, rec, o, t);
  }

  lemma LeaseExists(ms: Ms, statics: set<Prefix>, e: Prefix)
    requires Good(ms, statics) && e in ms.db && e !in statics
    ensures ms.db[e] in ms.rsites && ms.rsites[ms.db[e]].lease.Some? && ms.rsites[ms.db[e]].lease.value in ms.reg.timers
  {
    hide Inv, SitesOk;
    var o := ms.db[e];
    assert o in ms.rsites && ms.rsites[o].eid == e;
  }

  lemma LeaseIndexed(ms: Ms, statics: set<Prefix>, e: Prefix)
    requires Good(ms, statics) && e in ms.db && e !in statics
    ensures ms.db[e] in ms.reg.index && ms.db[e] in ms.rsites
  {
    hide SitesOk, TableOk, ListsOk;
    LeaseExists(ms, statics, e);
    var o := ms.db[e];
    assert ms.reg.timers[ms.rsites[o].lease.value].obj == o;
  }

  lemma RenewLease(ms: Ms, statics: set<Prefix>, rec: Record, o: Obj, t: Timer)
    requires Good(ms, statics) && rec.eid in ms.db && rec.eid !in statics && o == ms.db[rec.eid]
    requires o in ms.rsites && ms.rsites[o].lease == Some(t)
    ensures var alarms := ms.reg.alarms[t := ms.now + LEASE];
            var last := ms.last[rec.eid := ms.now];
            && LeasesOk(ms.reg.timers, alarms, ms.rsites, last, statics)
            && LeasesOk(ms.reg.timers, alarms, ms.rsites[o := ms.rsites[o].(locs := rec.locs)], last, statics)
            && ClockOk(alarms, ms.now, ms.ticking) && LastOk(ms.db, last, ms.now, statics)
  {
    hide Inv, SitesOk, HeapOk;
  }

  lemma ArmKeepsInv(r: Registry, t: Timer, due: nat)
    requires Inv(r) && t in r.timers
    ensures Inv(Arm(r, t, due))
  {}

  lemma NewGood(ms: Ms, statics: set<Prefix>, site: Prefix, proxy: bool, rec: Record)
    requires Good(ms, statics) && site in ms.sites && rec.eid !in ms.db && rec.eid !in statics
    ensures Good(Register(ms, site, proxy, rec), statics)
  {
    hide Inv, WheelSpec.FiringDelay, SitesOk, DbOk, TimersOk, LeasesOk, ClockOk, LastOk, ListsLeased;
    var o, t := ms.heap, ms.heap + 1;
    Delay();
    ProxiedOk(ms.sites, site, proxy);
    CreateKeepsInv(ms.reg, t, TimerRec(SiteExpiry, o, 0, None));
    NewList(ms.reg, ms.rsites, rec, o, t);
    ArmKeepsInv(Create(ms.reg, t, TimerRec(SiteExpiry, o, 0, None)), t, ms.now + LEASE);
    NewDb(ms.db, ms.rsites, ms.last, ms.now, statics, rec, o, t);
    NewLease(ms, statics, rec, o, t);
  }

  lemma ProxiedOk(sites: map<Prefix, Site>, site: Prefix, proxy: bool)
    requires SitesOk(sites) && site in sites
    ensures SitesOk(Proxied(sites, site, proxy))
  {}

  lemma NewList(r: Registry, rsites: map<Obj, RegSite>, rec: Record, o: Obj, t: Timer)
    requires ListsLeased(r.index, rsites)
    ensures ListsLeased(Create(r, t, TimerRec(SiteExpiry, o, 0, None)).index,
                        rsites[o := RegSite(rec.eid, rec.locs, Some(t))])
  {}

  lemma NewDb(db: map<Prefix, Obj>, rsites: map<Obj, RegSite>, last: map<Prefix, nat>, now: nat,
              statics: set<Prefix>, rec: Record, o: Obj, t: Timer)
    requires DbOk(db, rsites) && LastOk(db, last, now, statics) && rec.eid !in db && o !in rsites
    ensures DbOk(db[rec.eid := o], rsites[o := RegSite(rec.eid, rec.locs, Some(t))])
    ensures LastOk(db[rec.eid := o], last[rec.eid := now], now, statics)
  {}

  lemma NewLease(ms: Ms, statics: set<Prefix>, rec: Record, o: Obj, t: Timer)
    requires Good(ms, statics) && rec.eid !in ms.db && rec.eid !in statics && o !in ms.rsites && t !in ms.reg.timers
    ensures var timers := ms.reg.timers[t := TimerRec(SiteExpiry, o, 0, None)];
            var alarms := ms.reg.alarms[t := ms.now + LEASE];
            var rsites := ms.rsites[o := RegSite(rec.eid, rec.locs, Some(t))];
            && TimersOk(timers, rsites)
            && LeasesOk(timers, alarms, rsites, ms.last[rec.eid := ms.now], statics)
            && ClockOk(alarms, ms.now, ms.ticking)
  {
    hide Inv, SitesOk, LastOk;
  }

  lemma AlarmOwned(ms: Ms, statics: set<Prefix>, t: Timer)
    requires Good(ms, statics) && t in ms.reg.alarms
    ensures Inv(ms.reg) && t in ms.reg.timers && ms.reg.timers[t].obj in ms.rsites
  {
    hide SitesOk;
  }

  lemma ExpireGood(ms: Ms, statics: set<Prefix>, t: Timer)
    requires Good(ms, statics) && ms.ticking && t in ms.reg.alarms && ms.reg.alarms[t] == ms.now
    ensures t in ms.reg.timers && ms.reg.timers[t].obj in ms.rsites
    ensures Good(Expire(ms, t), statics)
    ensures OnlyExpired(ms, Expire(ms, t), t)
  {
    hide Purge, Inv, SitesOk, LastOk, ClockOk, TimersOf;
    AlarmOwned(ms, statics, t);
    var o := ms.reg.timers[t].obj;
    StopAllKeepsInv(ms.reg, o);
    OneTimer(ms, statics, o);
    LeaseStopped(ms, statics, t);
    ExpireClock(ms, statics, t);
  }

  /** Of all registrations, dates, timers and alarms, one registration has gone with its timer. */
  ghost predicate OnlyExpired(ms: Ms, ms': Ms, t: Timer) {
    && t in ms.reg.timers && ms.reg.timers[t].obj in ms.rsites
    && var o := ms.reg.timers[t].obj;
       && ms'.rsites == ms.rsites - {o} && ms'.db == ms.db - {ms.rsites[o].eid} && ms.rsites[o].lease == Some(t)
       && ms'.reg.timers == ms.reg.timers - {t} && ms'.reg.alarms == ms.reg.alarms - {t}
       && ms'.last == ms.last && ms'.sites == ms.sites && ms'.now == ms.now
  }

  lemma LeaseStopped(ms: Ms, statics: set<Prefix>, t: Timer)
    requires Good(ms, statics) && t in ms.reg.timers && ms.reg.timers[t].obj in ms.rsites
    ensures var r := StopAll(ms.reg, ms.reg.timers[t].obj);
            && r.timers == ms.reg.timers - {t} && r.alarms == ms.reg.alarms - {t}
            && r.index == ms.reg.index - {ms.reg.timers[t].obj}
  {
    hide Inv, SitesOk, LastOk, ClockOk, HeapOk, TimersOf;
    var o := ms.reg.timers[t].obj;
    OneTimer(ms, statics, o);
    var ts := Elements(TimersOf(ms.reg, o));
    forall u | u in ms.reg.timers
      ensures u in ts <==> u == t
    {
      StopAllTargets(ms.reg, o, u);
    }
    InvAlarms(ms.reg);
    assert ms.reg.timers - ts == ms.reg.timers - {t};
    assert ms.reg.alarms - ts == ms.reg.alarms - {t};
  }

  lemma InvAlarms(r: Registry)
    requires Inv(r)
    ensures r.alarms.Keys <= r.timers.Keys
  {}

  lemma ExpireClock(ms: Ms, statics: set<Prefix>, t: Timer)
    requires Good(ms, statics) && t in ms.reg.timers && t in ms.reg.alarms && ms.reg.alarms[t] == ms.now
    ensures ms.reg.timers[t].obj in ms.rsites
    ensures LastOk(ms.db - {ms.rsites[ms.reg.timers[t].obj].eid}, ms.last, ms.now, statics)
    ensures ClockOk(StopAll(ms.reg, ms.reg.timers[t].obj).alarms, ms.now, ms.ticking)
  {
    hide Inv, SitesOk, HeapOk;
    PurgeAlarms(ms.reg, Elements(TimersOf(ms.reg, ms.reg.timers[t].obj)));
  }

  lemma PurgeAlarms(r: Registry, ts: set<Timer>)
    ensures forall t :: t in Purge(r, ts).alarms ==> t in r.alarms && Purge(r, ts).alarms[t] == r.alarms[t]
  {}

  // ---------- runs ----------

  datatype Event = BeginTick | Fire(t: Timer) | EndTick | Arrive(msg: Message)

  /**
    A message comes in between ticks. Left out are messages that would renew a registration made by
    the configuration: it has no list of timers, and the source reads the size of that list. These
    are exactly the messages named by NoListIff.
   */
  ghost predicate Enabled(ms: Ms, statics: set<Prefix>, e: Event)
    requires Good(ms, statics)
  {
    GoodLinked(ms, statics);
    match e
    case BeginTick => !ms.ticking
    case Fire(t) => ms.ticking && t in ms.reg.alarms && ms.reg.alarms[t] == ms.now
    case EndTick => ms.ticking && forall t :: t in ms.reg.alarms ==> ms.reg.alarms[t] != ms.now
    case Arrive(msg) => !ms.ticking && RecordsOk(msg.recs) && TakesNoStatic(ms, msg, statics)
  }

  /** Under the key of the first configured site that it names, the message has no static prefix admitted. */
  ghost predicate TakesNoStatic(ms: Ms, msg: Message, statics: set<Prefix>)
    requires SitesOk(ms.sites) && RecordsOk(msg.recs)
  {
    var first := MapServerAuth.FirstKey(ms.sites, msg.recs);
    first.Some? && msg.auth(first.value) ==>
      forall r :: r in MapServerAuth.Admitted(ms.sites, first.value, msg.recs) ==> r.eid !in statics
  }

  lemma GoodDistinct(ms: Ms, statics: set<Prefix>)
    requires Good(ms, statics)
    ensures MapServerAuth.Distinct(ms)
  {
    hide SitesOk, Inv;
  }

  lemma TakesNone(ms: Ms, statics: set<Prefix>, msg: Message)
    requires Good(ms, statics) && RecordsOk(msg.recs)
    ensures Linked(ms)
    ensures TakesNoStatic(ms, msg, statics) <==> forall r :: r in Receive(ms, msg).taken ==> r.eid !in statics
  {
    hide Good, MapServerAuth.Effect, MapServerAuth.Allowed, MapServerAuth.Distinct, MapServerAuth.Admitted, Process, ValidPrefix;
    GoodLinked(ms, statics);
    GoodDistinct(ms, statics);
    MapServerAuth.RegisterLaw(ms, msg);
  }

  ghost function Step(ms: Ms, statics: set<Prefix>, e: Event): Ms
    requires Good(ms, statics) && Enabled(ms, statics, e)
  {
    GoodLinked(ms, statics);
    match e
    case BeginTick => ms.(now := ms.now + 1, ticking := true)
    case Fire(t) => ExpireGood(ms, statics, t); Expire(ms, t)
    case EndTick => ms.(ticking := false)
    case Arrive(msg) => MapServerSpec.Receive(ms, msg).ms
  }

  lemma {:induction false} ProcessGood(ms: Ms, statics: set<Prefix>, msg: Message, recs: seq<Record>,
                                       key: Option<string>)
    requires Good(ms, statics) && RecordsOk(recs)
    requires (GoodLinked(ms, statics); forall r :: r in Process(ms, msg, recs, key).taken ==> r.eid !in statics)
    ensures Linked(ms) && Good(Process(ms, msg, recs, key).ms, statics)
    decreases |recs|
  {
    hide Good, Judge, Register, SitesOk, Network, ValidPrefix;
    GoodLinked(ms, statics);
    if recs != [] {
      var rec := Normal(recs[0]);
      match Judge(ms.sites, msg.auth, key, rec.eid)
      case Refused =>
      case Skipped(k) => ProcessGood(ms, statics, msg, recs[1..], k);
      case Taken(k, site) =>
        JudgeSite(ms.sites, msg.auth, key, rec.eid);
        assert rec in Process(ms, msg, recs, key).taken;
        RegisterGood(ms, statics, site, msg.proxy, rec);
        var next := Register(ms, site, msg.proxy, rec);
        GoodLinked(next, statics);
        assert forall r :: r in Process(next, msg, recs[1..], Some(k)).taken ==> r in Process(ms, msg, recs, key).taken;
        ProcessGood(next, statics, msg, recs[1..], Some(k));
    }
  }

  lemma JudgeSite(sites: map<Prefix, Site>, auth: string -> bool, key: Option<string>, eid: Prefix)
    requires SitesOk(sites) && ValidPrefix(eid)
    ensures var v := Judge(sites, auth, key, eid); v.Taken? ==> v.site in sites
  {
    BestMatches(sites, eid.ip, Width(eid.ip));
  }

  lemma RegisterGood(ms: Ms, statics: set<Prefix>, site: Prefix, proxy: bool, rec: Record)
    requires Good(ms, statics) && site in ms.sites && rec.eid !in statics
    ensures rec.eid in ms.db ==> ms.db[rec.eid] in ms.rsites
    ensures Good(Register(ms, site, proxy, rec), statics)
  {
    if rec.eid in ms.db {
      RenewGood(ms, statics, site, proxy, rec);
    } else {
      NewGood(ms, statics, site, proxy, rec);
    }
    hide Good, Register;
  }

  lemma StepGood(ms: Ms, statics: set<Prefix>, e: Event)
    requires Good(ms, statics) && Enabled(ms, statics, e)
    ensures Good(Step(ms, statics, e), statics)
  {
    match e
    case BeginTick => hide Inv, SitesOk;
    case EndTick => hide Inv, SitesOk;
    case Fire(t) => ExpireGood(ms, statics, t);
    case Arrive(msg) =>
      TakesNone(ms, statics, msg);
      ProcessGood(ms, statics, msg, msg.recs, None);
  }

  ghost predicate RunOf(ms: Ms, statics: set<Prefix>, es: seq<Event>, ms': Ms)
    requires Good(ms, statics)
    decreases |es|
  {
    if es == [] then ms' == ms
    else Enabled(ms, statics, es[0])
         && (StepGood(ms, statics, es[0]); RunOf(Step(ms, statics, es[0]), statics, es[1..], ms'))
  }

  /** As configured: sites, and registrations without a lease. */
  ghost predicate Configured(ms: Ms, statics: set<Prefix>) {
    && ms.reg == Empty() && SitesOk(ms.sites) && DbOk(ms.db, ms.rsites)
    && statics == ms.db.Keys && ms.last == map[] && ms.now == 0 && !ms.ticking
    && (forall o :: o in ms.rsites ==> o < ms.heap && ms.rsites[o].lease.None?)
  }

  lemma ConfiguredGood(ms: Ms, statics: set<Prefix>)
    requires Configured(ms, statics)
    ensures Good(ms, statics)
  {}

  ghost predicate Reachable(ms: Ms, statics: set<Prefix>) {
    exists start, es :: Configured(start, statics) && (ConfiguredGood(start, statics); RunOf(start, statics, es, ms))
  }

  lemma {:induction false} RunGood(ms: Ms, statics: set<Prefix>, es: seq<Event>, ms': Ms)
    requires Good(ms, statics) && RunOf(ms, statics, es, ms')
    ensures Good(ms', statics)
    decreases |es|
  {
    hide Good, Enabled, Step;
    if es != [] {
      StepGood(ms, statics, es[0]);
      RunGood(Step(ms, statics, es[0]), statics, es[1..], ms');
    }
  }

  /**
    The lease. Between ticks a prefix that was not configured statically is registered exactly if
    fewer than 182 ticks have passed since the latest record accepted for it. While it is, it has
    one expiry timer, running and due when the 182 are over. Static registrations have none.
   */
  lemma LeaseLaw(ms: Ms, statics: set<Prefix>, e: Prefix)
    requires Reachable(ms, statics) && !ms.ticking
    ensures e !in statics ==> (e in ms.db <==> e in ms.last && ms.now < ms.last[e] + 182)
    ensures e in statics ==> e in ms.db
    ensures e in ms.db && e !in statics ==>
              exists t :: && OfKind(ms.reg, ms.db[e], SiteExpiry) == {t} && t in ms.reg.alarms
                          && ms.reg.alarms[t] == ms.last[e] + 182
    ensures e in ms.db && e in statics ==> OfKind(ms.reg, ms.db[e], SiteExpiry) == {}
  {
    var start, es :| Configured(start, statics) && (ConfiguredGood(start, statics); RunOf(start, statics, es, ms));
    ConfiguredGood(start, statics);
    RunGood(start, statics, es, ms);
    LeaseNow(ms, statics, e);
  }

  lemma LeaseNow(ms: Ms, statics: set<Prefix>, e: Prefix)
    requires Good(ms, statics)
    ensures !ms.ticking && e !in statics ==> (e in ms.db <==> e in ms.last && ms.now < ms.last[e] + LEASE)
    ensures e in statics ==> e in ms.db
    ensures e in ms.db ==> ms.db[e] in ms.rsites
    ensures e in ms.db && e !in statics ==>
              exists t :: && OfKind(ms.reg, ms.db[e], SiteExpiry) == {t} && t in ms.reg.alarms
                          && ms.reg.alarms[t] == ms.last[e] + LEASE
    ensures e in ms.db && e in statics ==> OfKind(ms.reg, ms.db[e], SiteExpiry) == {}
  {
    hide Inv, SitesOk;
    if e in ms.db {
      var o := ms.db[e];
      if e !in statics {
        OneTimer(ms, statics, o);
        assert OfKind(ms.reg, o, SiteExpiry) == {ms.rsites[o].lease.value};
      } else {
        assert forall t :: t in ms.reg.timers ==> ms.reg.timers[t].obj != o;
        assert OfKind(ms.reg, o, SiteExpiry) == {};
      }
    }
  }

  /**
    A registered prefix has a list of timers exactly if it is not static, and a message has a record
    taken for a registered prefix without one exactly if it is not enabled.
   */
  lemma NoListIff(ms: Ms, statics: set<Prefix>, msg: Message)
    requires Reachable(ms, statics) && RecordsOk(msg.recs)
    ensures Linked(ms)
    ensures forall e :: e in ms.db ==> (ms.db[e] in ms.reg.index <==> e !in statics)
    ensures TakesNoStatic(ms, msg, statics) <==>
              forall r :: r in Receive(ms, msg).taken && r.eid in ms.db ==> ms.db[r.eid] in ms.reg.index
  {
    hide Process, MapServerAuth.Admitted, MapServerAuth.FirstKey, ValidPrefix, TakesNoStatic;
    var start, es :| Configured(start, statics) && (ConfiguredGood(start, statics); RunOf(start, statics, es, ms));
    ConfiguredGood(start, statics);
    RunGood(start, statics, es, ms);
    TakesNone(ms, statics, msg);
    ListIff(ms, statics);
  }

  lemma ListIff(ms: Ms, statics: set<Prefix>)
    requires Good(ms, statics)
    ensures forall e :: e in ms.db ==> (ms.db[e] in ms.reg.index <==> e !in statics)
    ensures forall e :: e in statics ==> e in ms.db
  {
    hide Inv, SitesOk, ClockOk, HeapOk;
    forall e | e in ms.db
      ensures ms.db[e] in ms.reg.index <==> e !in statics
    {
      var o := ms.db[e];
      assert o in ms.rsites && ms.rsites[o].eid == e;
      if e !in statics { LeaseIndexed(ms, statics, e); } else { assert ms.rsites[o].lease.None?; }
    }
  }
}
