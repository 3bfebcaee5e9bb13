/** ms_recv_map_register and the lease callbacks as they run, proved to make the steps of MapServerSpec. */
module MapServerDevice {
  import opened Options
  import opened Seqs
  import opened Prefixes
  import opened RegistrySpec
  import opened RegistryTables
  import opened MapServerSpec
  import opened MapServerRuns
  import WheelSpec

  class MapServer {
    const tables: Tables
    var sites: map<Prefix, Site>
    var db: map<Prefix, Obj>
    var rsites: map<Obj, RegSite>
    var now: nat
    var ticking: bool
    var heap: int
    ghost var last: map<Prefix, nat>
    ghost const statics: set<Prefix>

    ghost function State(): Ms
      reads this, tables
    {
      Ms(tables.State(), sites, db, rsites, now, ticking, heap, last)
    }

    ghost predicate Valid()
      reads this, tables
    {
      Good(State(), statics)
    }

    constructor (sites: map<Prefix, Site>, db: map<Prefix, Obj>, rsites: map<Obj, RegSite>, heap: int)
      requires Configured(Ms(Empty(), sites, db, rsites, 0, false, heap, map[]), db.Keys)
      ensures Valid() && fresh(tables) && State() == Ms(Empty(), sites, db, rsites, 0, false, heap, map[])
      ensures statics == db.Keys
    {
      this.sites, this.db, this.rsites, this.heap := sites, db, rsites, heap;
      now, ticking, last, statics := 0, false, map[], db.Keys;
      tables := new Tables();
      new;
      ConfiguredGood(State(), statics);
    }

    /** lsite_entry_update_expiration_timer; it reads the size of the list without asking whether there is one */
    method UpdateExpirationTimer(o: Obj)
      requires Inv(tables.State()) && o in tables.index
      modifies tables
      ensures State() == old(State()).(reg := Restart(old(State()), o))
    {
      hide Inv, WheelSpec.FiringDelay, Only;
      var ts := tables.TimersOfType(o, SiteExpiry);
      SameSize(ts.value, Only(tables.timers, tables.index[o], SiteExpiry));
      if |ts.value| != 1 { return; }
      assert ts.value[0] in ts.value;
      tables.StartTimer(ts.value[0], now + WheelSpec.FiringDelay(LEASE, ticking));
    }

    /** A record for a prefix that is registered already */
    method RenewSite(site: Prefix, proxy: bool, rec: Record)
      requires Inv(tables.State()) && site in sites && rec.eid in db && db[rec.eid] in rsites && db[rec.eid] in tables.index
      modifies this, tables
      ensures State() == Renewed(old(State()), site, proxy, rec)
    {
      hide Inv, Restart;
      var o := db[rec.eid];
      if rsites[o].locs.compared != rec.locs.compared {
        if !sites[site].merge { rsites := rsites[o := rsites[o].(locs := rec.locs)]; }
        sites := sites[site := sites[site].(proxy := proxy)];
      }
      UpdateExpirationTimer(o);
      RestartSame(old(State()), old(State()).(rsites := rsites, sites := sites), o);
      last := last[rec.eid := now];
    }

    /** A new registration, with lsite_entry_start_expiration_timer */
    method AddSite(site: Prefix, proxy: bool, rec: Record)
      requires Valid() && site in sites
      modifies this, tables
      ensures State() == Added(old(State()), site, proxy, rec)
    {
      hide Good, Inv, Create, Fresh, Arm, WheelSpec.FiringDelay;
      var o, t := heap, heap + 1;
      NewIsFresh(State(), statics);
      db, rsites, heap := db[rec.eid := o], rsites[o := RegSite(rec.eid, rec.locs, Some(t))], heap + 2;
      tables.NewTimer(t, TimerRec(SiteExpiry, o, 0, None));
      tables.StartTimer(t, now + WheelSpec.FiringDelay(LEASE, ticking));
      sites := sites[site := sites[site].(proxy := proxy)];
      last := last[rec.eid := now];
    }

    /** What the loop does with a record it takes */
    method TakeRecord(site: Prefix, proxy: bool, rec: Record)
      requires Valid() && site in sites && rec.eid !in statics
      modifies this, tables
      ensures Valid()
      ensures (GoodLinked(old(State()), statics); State() == Register(old(State()), site, proxy, rec))
    {
      hide Good, Inv, Renewed, Added;
      ghost var ms := State();
      GoodLinked(ms, statics);
      RegisterGood(ms, statics, site, proxy, rec);
      if rec.eid in db {
        LeaseIndexed(ms, statics, rec.eid);
        RenewSite(site, proxy, rec);
      } else {
        AddSite(site, proxy, rec);
      }
    }

    /** One turn of the loop of ms_recv_map_register, for a record whose EID has been reduced to its network */
    method JudgeRecord(rec: Record, msg: Message, key: Option<string>) returns (v: Verdict)
      requires Valid() && ValidPrefix(rec.eid) && (GoodLinked(State(), statics);
                 Judge(sites, msg.auth, key, rec.eid).Taken? ==> rec.eid !in statics)
      modifies this, tables
      ensures Valid()
      ensures (GoodLinked(old(State()), statics); v == Judge(old(sites), msg.auth, key, rec.eid))
      ensures !v.Taken? ==> State() == old(State())
      ensures v.Taken? ==> (GoodLinked(old(State()), statics);
                            v.site in old(sites) && State() == Register(old(State()), v.site, msg.proxy, rec))
    {
      hide Good, Judge, Register, SitesOk, ValidPrefix;
      GoodLinked(State(), statics);
      JudgeSite(sites, msg.auth, key, rec.eid);
      v := Judge(sites, msg.auth, key, rec.eid);
      if v.Taken? { TakeRecord(v.site, msg.proxy, rec); }
    }

    /** ms_recv_map_register; notified is what goes into the Map-Notify, if one is sent */
    method RecvMapRegister(msg: Message) returns (good: bool, notified: seq<Record>)
      requires Valid() && RecordsOk(msg.recs) && (GoodLinked(State(), statics); TakesNoStatic(State(), msg, statics))
      modifies this, tables
      ensures Valid()
      ensures (GoodLinked(old(State()), statics);
               var o := Receive(old(State()), msg);
               && State() == o.ms && good == o.good
               && notified == if good && msg.notify && o.key.Some? then o.taken else [])
    {
      hide Good, Judge, Register, NetworkPrefix, ValidPrefix, Process, Linked, SitesOk;
      var key: Option<string> := None;
      var taken: seq<Record> := [];
      ghost var ms := State();
      TakesNone(ms, statics, msg);
      ghost var all := Process(ms, msg, msg.recs, None);
      for i := 0 to |msg.recs|
        invariant Valid() && Linked(State())
        invariant Onward(all, Process(State(), msg, msg.recs[i..], key), taken)
        invariant forall r :: r in all.taken ==> r.eid !in statics
      {
        var rec := Normal(msg.recs[i]);
        assert msg.recs[i..][0] == msg.recs[i] && msg.recs[i..][1..] == msg.recs[i + 1..];
        ProcessStep(State(), msg, msg.recs[i..], key);
        TurnTakes(all, State(), msg, msg.recs[i..], key, taken);
        var v := JudgeRecord(rec, msg, key);
        GoodLinked(State(), statics);
        match v {
          case Refused => return false, [];
          case Skipped(k) => key := k;
          case Taken(k, site) =>
            key, taken := Some(k), taken + [rec];
        }
      }
      ProcessDone(State(), msg, key);
      good := msg.complete;
      notified := if good && msg.notify && key.Some? then taken else [];
    }

    /** lsite_entry_expiration_timer_cb */
    method ExpirationCb(t: Timer)
      requires Valid() && ticking && t in tables.alarms && tables.alarms[t] == now
      modifies this, tables
      ensures (ExpireGood(old(State()), statics, t); State() == Expire(old(State()), t))
      ensures Valid()
    {
      hide Good, Inv, StopAll;
      ghost var ms := State();
      GoodLinked(ms, statics);
      ExpireGood(ms, statics, t);
      var o := tables.timers[t].obj;
      db := db - {rsites[o].eid};
      var _ := tables.StopTimersFromObj(o);
      rsites := rsites - {o};
    }
  }

  lemma RestartSame(a: Ms, b: Ms, o: Obj)
    requires a.reg == b.reg && a.now == b.now && a.ticking == b.ticking
    ensures Restart(a, o) == Restart(b, o)
  {}

  /** One turn of the record loop. */
  lemma ProcessStep(ms: Ms, msg: Message, recs: seq<Record>, key: Option<string>)
    requires Linked(ms) && RecordsOk(recs) && recs != []
    ensures SitesOk(ms.sites) && ValidPrefix(recs[0].eid) && ValidPrefix(Normal(recs[0]).eid)
    ensures var rec := Normal(recs[0]);
            match Judge(ms.sites, msg.auth, key, rec.eid)
            case Refused => Process(ms, msg, recs, key) == Outcome(ms, key, false, [])
            case Skipped(k) => Process(ms, msg, recs, key) == Process(ms, msg, recs[1..], k)
            case Taken(k, site) =>
              && site in ms.sites && Linked(Register(ms, site, msg.proxy, rec))
              && var rest := Process(Register(ms, site, msg.proxy, rec), msg, recs[1..], Some(k));
                 Process(ms, msg, recs, key) == rest.(taken := [rec] + rest.taken)
  {
    hide Network, Register;
    var rec := Normal(recs[0]);
    JudgeSite(ms.sites, msg.auth, key, rec.eid);
    match Judge(ms.sites, msg.auth, key, rec.eid)
    case Taken(k, site) => RegisterLinked(ms, site, msg.proxy, rec);
    case _ =>
  }

  /** What is left of the loop, together with what was taken, makes the whole. */
  ghost predicate Onward(all: Outcome, rest: Outcome, taken: seq<Record>) {
    rest.ms == all.ms && rest.key == all.key && rest.good == all.good && taken + rest.taken == all.taken
  }

  lemma TurnTakes(all: Outcome, ms: Ms, msg: Message, recs: seq<Record>, key: Option<string>, taken: seq<Record>)
    requires Linked(ms) && RecordsOk(recs) && recs != [] && Onward(all, Process(ms, msg, recs, key), taken)
    ensures SitesOk(ms.sites) && ValidPrefix(Normal(recs[0]).eid)
    ensures match Judge(ms.sites, msg.auth, key, Normal(recs[0]).eid)
            case Refused => all.ms == ms && !all.good
            case Skipped(k) => Onward(all, Process(ms, msg, recs[1..], k), taken)
            case Taken(k, site) =>
              && Normal(recs[0]) in all.taken && site in ms.sites && Linked(Register(ms, site, msg.proxy, Normal(recs[0])))
              && Onward(all, Process(Register(ms, site, msg.proxy, Normal(recs[0])), msg, recs[1..], Some(k)),
                        taken + [Normal(recs[0])])
  {
    hide Linked, SitesOk, Judge, Register, NetworkPrefix, ValidPrefix, Process;
    LinkedFacts(ms);
    ProcessStep(ms, msg, recs, key);
    match Judge(ms.sites, msg.auth, key, Normal(recs[0]).eid)
    case Taken(k, site) =>
      var rest := Process(Register(ms, site, msg.proxy, Normal(recs[0])), msg, recs[1..], Some(k)).taken;
      assert taken + ([Normal(recs[0])] + rest) == taken + [Normal(recs[0])] + rest;
      assert (taken + [Normal(recs[0])])[|taken|] == Normal(recs[0]);
    case _ =>
  }

  lemma ProcessDone(ms: Ms, msg: Message, key: Option<string>)
    requires Linked(ms)
    ensures Process(ms, msg, [], key) == Outcome(ms, key, msg.complete, [])
  {}

  lemma NewIsFresh(ms: Ms, statics: set<Prefix>)
    requires Good(ms, statics)
    ensures Inv(ms.reg) && Fresh(ms.reg, ms.heap + 1, TimerRec(SiteExpiry, ms.heap, 0, None))
  {}

  /** Two lists of the same timers, each without repetition, agree on being one timer. */
  lemma SameSize(a: seq<Timer>, b: seq<Timer>)
    requires NoRepeats(a) && NoRepeats(b) && forall t :: t in a <==> t in b
    ensures |a| == 1 <==> |b| == 1
    ensures |a| == 1 ==> a == b
  {
    if |a| == 1 { OnlyThat(b, a[0]); }
    if |b| == 1 { OnlyThat(a, b[0]); }
  }

  lemma OnlyThat(s: seq<Timer>, t: Timer)
    requires NoRepeats(s) && forall u :: u in s <==> u in [t]
    ensures s == [t]
  {
    assert t in [t] && t in s;
    forall i | 0 <= i < |s|
      ensures s[i] == t
    {
      var u := s[i];
      assert u in s && u in [t];
    }
    OneElement(s, t);
  }
}
