/**
  The timers that a step starts: when each probe timer and each expiry timer is first due.
 */
module XtrFresh {
  import opened Options
  import opened RegistrySpec
  import opened XtrSpec
  import opened XtrInvariant
  import opened XtrRuns
  import opened XtrTheorems
  import opened XtrTimers
  import opened Seqs
  import XtrMisses
  import XtrProbing
  import WheelSpec

  /** A probe timer starts with no nonce, one probe interval ahead; an expiry timer the time to live, in minutes. */
  ghost predicate Programmed(x: Xtr, y: Xtr, t: Timer)
    requires t in y.reg.timers
  {
    match y.reg.timers[t].kind
    case Probing =>
      && HasList(y.reg, t) && NoncesOf(y.reg, t) == [] && t in y.reg.alarms
      && y.reg.alarms[t] == x.now + WheelSpec.FiringDelay(x.cfg.probeInterval, x.ticking)
    case Expiry =>
      && t in y.reg.alarms
      && (y.reg.timers[t].obj in y.entries ==>
            y.reg.alarms[t] == x.now + WheelSpec.FiringDelay(60 * y.entries[y.reg.timers[t].obj].ttl, x.ticking))
    case _ => true
  }

  ghost predicate NewOnes(x: Xtr, y: Xtr) {
    && y.now == x.now && y.ticking == x.ticking && y.cfg == x.cfg
    && forall t :: t in y.reg.timers && t >= x.heap ==> Programmed(x, y, t)
  }

  lemma NewThen(x: Xtr, y: Xtr, z: Xtr, us: set<Timer>, hot: set<Obj>)
    requires Base(y) && NewOnes(x, y) && NewOnes(y, z) && Keep(y, z, us, hot)
    requires forall t :: t in us && t in y.reg.timers ==> t < x.heap
    ensures NewOnes(x, z)
  {
    hide Base, WheelSpec.FiringDelay, Lost, TableOk, ListsOk;
    TimerFacts(y);
    forall t | t in z.reg.timers && t >= x.heap
      ensures Programmed(x, z, t)
    {
      if t in y.reg.timers {
        assert XtrMisses.SameTimer(y.reg, z.reg, t);
        assert Programmed(x, y, t);
      } else {
        assert Programmed(y, z, t);
      }
    }
  }

  /** Nothing new. */
  lemma NewNone(x: Xtr, y: Xtr)
    requires Base(x) && y.now == x.now && y.ticking == x.ticking && y.cfg == x.cfg && y.reg.timers.Keys <= x.reg.timers.Keys
    ensures NewOnes(x, y)
  {
    hide Base, Programmed, TableOk, ListsOk;
    TimerFacts(x);
  }

  lemma NewArmed(x: Xtr, kind: Kind, m: Obj, part: int, duration: int)
    requires Base(x) && m in x.entries
    requires if kind == Probing then duration == x.cfg.probeInterval else kind == Expiry && duration == x.entries[m].ttl * 60
    ensures NewOnes(x, ArmTimer(NewTimer(x, kind, m, part), x.heap, duration))
  {
    hide Base, WheelSpec.FiringDelay, TableOk, ListsOk;
    TimerFacts(x);
  }


  lemma {:induction false} NewProbes(x: Xtr, m: Obj, locs: seq<Loc>)
    requires Base(x) && m in x.entries
    ensures NewOnes(x, ProbeLocators(x, m, locs))
    decreases |locs|
  {
    hide Base, Keep, NewOnes, ProbeLocator;
    if locs == [] {
      NewNone(x, x);
    } else {
      var y := ProbeLocator(x, m, locs[0].id);
      ProbeLocatorIs(x, m, locs[0].id);
      NewArmed(x, Probing, m, locs[0].id, x.cfg.probeInterval);
      ProbeLocatorBase(x, m, locs[0].id);
      NewProbes(y, m, locs[1..]);
      KeepProbes(y, m, locs[1..]);
      NewThen(x, y, ProbeLocators(y, m, locs[1..]), {}, {});
    }
  }

  lemma NewProgram(x: Xtr, m: Obj)
    requires Base(x) && m in x.entries
    ensures NewOnes(x, ProgramProbing(x, m))
  {
    hide Base, Keep, NewOnes, StopKind, ProbeLocators;
    if x.cfg.probeInterval == 0 {
      NewNone(x, x);
    } else {
      var y := x.(reg := StopKind(x.reg, m, Probing));
      StopKindBase(x, m, Probing);
      FewerTimers(x.reg, m, Probing);
      NewNone(x, y);
      KeepProbes(y, m, x.entries[m].locs);
      NewProbes(y, m, x.entries[m].locs);
      NewThen(x, y, ProbeLocators(y, m, x.entries[m].locs), {}, {});
    }
  }

  lemma FewerTimers(r: Registry, m: Obj, kind: Kind)
    ensures StopKind(r, m, kind).timers.Keys <= r.timers.Keys
  {}

  lemma NewRefresh(x: Xtr, m: Obj)
    requires Base(x) && m in x.entries
    ensures m in StartExpiry(x, m).entries && NewOnes(x, ProgramProbing(StartExpiry(x, m), m))
  {
    hide Base, Keep, NewOnes, ProgramProbing, NewTimer, ArmTimer;
    var y := StartExpiry(x, m);
    NewArmed(x, Expiry, m, 0, x.entries[m].ttl * 60);
    StartExpiryBase(x, m);
    ExpiryEntries(x, m);
    NewProgram(y, m);
    KeepProgram(y, m);
    NewThen(x, y, ProgramProbing(y, m), {}, {m});
  }

  lemma NewAdd(x: Xtr, rec: Record)
    requires Base(x)
    ensures NewOnes(x, AddMapping(x, rec))
  {
    hide Base, Keep, NewOnes, StartExpiry, ProgramProbing, MakeLocs;
    var m := x.heap;
    var e := Entry(rec.eid, true, rec.ttl, MakeLocs(rec.addrs, m + 1));
    var y := x.(entries := x.entries[m := e], cache := if rec.eid in x.cache then x.cache else x.cache[rec.eid := m],
                heap := x.heap + 1 + |rec.addrs|);
    NewNone(x, y);
    NewEntryBase(x, e, |rec.addrs|);
    NewRefresh(y, m);
    KeepRefresh(y, m);
    NewThen(x, y, AddMapping(x, rec), {}, {m});
  }

  lemma {:induction false} NewAddAll(x: Xtr, recs: seq<Record>)
    requires Base(x)
    ensures NewOnes(x, AddMappings(x, recs))
    decreases |recs|
  {
    hide Base, Keep, NewOnes, AddMapping;
    if recs == [] {
      NewNone(x, x);
    } else {
      NewAdd(x, recs[0]);
      AddMappingBase(x, recs[0]);
      NewAddAll(AddMapping(x, recs[0]), recs[1..]);
      KeepAddAll(AddMapping(x, recs[0]), recs[1..]);
      NewThen(x, AddMapping(x, recs[0]), AddMappings(x, recs), {}, {});
    }
  }

  lemma NewUpdate(x: Xtr, rec: Record)
    requires Base(x)
    ensures (BaseFacts(x); NewOnes(x, UpdateMapping(x, rec)))
  {
    hide Base, Keep, NewOnes, StartExpiry, ProgramProbing, MakeLocs;
    BaseFacts(x);
    NewNone(x, x);
    if rec.eid in x.cache {
      var m := x.cache[rec.eid];
      var locs := MakeLocs(rec.addrs, x.heap);
      var y := x.(entries := x.entries[m := x.entries[m].(locs := locs)], heap := x.heap + |rec.addrs|);
      NewNone(x, y);
      LocsBelow(rec.addrs, x.heap);
      ReplaceLocsBase(x, m, locs, |rec.addrs|);
      NewRefresh(y, m);
      KeepRefresh(y, m);
      NewThen(x, y, UpdateMapping(x, rec), {}, {m});
    }
  }

  lemma NewAnswered(x: Xtr, m: Obj, addr: int)
    requires Base(x) && m in x.entries
    ensures NewOnes(x, ProbeAnswered(x, m, addr))
  {
    hide Base, Keep, NewOnes, FindByAddr, MarkLocator, ProbeLocator;
    NewNone(x, x);
    match FindByAddr(x.entries[m].locs, addr)
    case None =>
    case Some(id) =>
      var y := MarkLocator(x, m, id, true);
      MarkLocatorBase(x, m, id, true);
      MarkLocatorShape(x, m, id, true);
      NewNone(x, y);
      ProbeLocatorIs(y, m, id);
      NewArmed(y, Probing, m, id, y.cfg.probeInterval);
      KeepNewArmed(y, Probing, m, id, y.cfg.probeInterval);
      NewThen(x, y, ProbeLocator(y, m, id), {}, {});
  }


  lemma RetryTimers(x: Xtr, t: Timer, limit: int, timeout: int, n: Nonce, sent: bool)
    requires HasList(x.reg, t) && x.reg.timers[t].obj in x.entries
    ensures var y := RetryCallback(x, t, limit, timeout, n, sent);
            && y.reg.timers.Keys <= x.reg.timers.Keys && y.now == x.now && y.ticking == x.ticking && y.cfg == x.cfg
            && forall u :: u in y.reg.timers ==> y.reg.timers[u] == x.reg.timers[u]
  {}

  lemma ProbeTimers(x: Xtr, t: Timer, n: Nonce, sent: bool)
    requires HasList(x.reg, t) && x.reg.timers[t].obj in x.entries
    ensures var y := ProbeCallback(x, t, n, sent);
            y.reg.timers == x.reg.timers && y.now == x.now && y.ticking == x.ticking && y.cfg == x.cfg
  {
    hide SetUp, IsUp, Due, AddNonce, Reset;
    NoncesOnly(x.reg, n, x.reg.timers[t].nonces.value);
  }

  lemma CallbackTimers(x: Xtr, t: Timer, n: Nonce, sent: bool)
    requires CallbackReady(x, t)
    ensures var y := Callback(x, t, n, sent);
            y.reg.timers.Keys <= x.reg.timers.Keys && y.now == x.now && y.ticking == x.ticking && y.cfg == x.cfg
  {
    hide RetryCallback, ProbeCallback, RemoveEntry;
    RemovedTimers(x, x.reg.timers[t].obj, Displaced(x.now));
    if x.reg.timers[t].kind == Probing {
      ProbeTimers(x, t, n, sent);
    } else if x.reg.timers[t].kind == RequestRetry {
      RetryTimers(x, t, x.cfg.requestRetries, MRQ_TIMEOUT, n, sent);
    } else if x.reg.timers[t].kind == SmrRetry {
      RetryTimers(x, t, MAX_SMR_RETRANSMIT, SMR_TIMEOUT, n, sent);
    }
  }

  lemma NewMiss(x: Xtr, eid: Eid, n: Nonce, sent: bool)
    requires Base(x)
    ensures NewOnes(x, CacheMiss(x, eid, n, sent))
  {
    hide Base, RetryCallback, TableOk, ListsOk;
    TimerFacts(x);
    var m := x.heap;
    var y := x.(entries := x.entries[m := Entry(eid, false, 0, [])], cache := x.cache[eid := m], heap := m + 1);
    var z := NewTimer(y, RequestRetry, m, 0);
    var w := z.(misses := z.misses[m := Miss(x.now, m + 1, [], [], false, Open)]);
    RetryTimers(w, m + 1, x.cfg.requestRetries, MRQ_TIMEOUT, n, sent);
  }

  lemma NewSolicited(x: Xtr, m: Obj, n: Nonce, sent: bool)
    requires Base(x) && m in x.entries
    ensures NewOnes(x, SolicitedRequest(x, m, n, sent))
  {
    hide Base, RetryCallback, TableOk, ListsOk;
    TimerFacts(x);
    RetryTimers(NewTimer(x, SmrRetry, m, 0), x.heap, MAX_SMR_RETRANSMIT, SMR_TIMEOUT, n, sent);
  }

  lemma NewReply(x: Xtr, n: Nonce, recs: seq<Record>, complete: bool)
    requires Good(x) && Enabled(x, Reply(n, recs, complete))
    ensures NewOnes(x, Step(x, Reply(n, recs, complete)))
  {
    hide Base, XtrMisses.MissesOk, Inv, Keep, NewOnes, AddMappings, UpdateMapping, RemoveEntry, StopOne, Survives;
    BaseFacts(x);
    NewNone(x, x);
    if n in x.reg.table {
      var t := TimerOfNonce(x.reg, n);
      var m := x.reg.timers[t].obj;
      if !x.entries[m].active {
        var y := RemoveEntry(x, m, Answered(x.now));
        RemoveEntryBase(x, m, Answered(x.now));
        RemovedTimers(x, m, Answered(x.now));
        NewNone(x, y);
        KeepAddAll(y, recs);
        NewAddAll(y, recs);
        NewThen(x, y, AddMappings(y, recs), {}, {});
      } else if recs != [] {
        var y := UpdateMapping(x, recs[0]);
        NewUpdate(x, recs[0]);
        UpdateMappingBase(x, recs[0]);
        NewStopped(x, y, m, t);
      }
    }
  }

  lemma RemovedTimers(x: Xtr, m: Obj, ending: Ending)
    requires m in x.entries
    ensures var y := RemoveEntry(x, m, ending);
            y.reg.timers.Keys <= x.reg.timers.Keys && y.now == x.now && y.ticking == x.ticking && y.cfg == x.cfg
  {}

  lemma NewStopped(x: Xtr, y: Xtr, m: Obj, t: Timer)
    requires Base(x) && Base(y) && NewOnes(x, y) && t in x.reg.timers
    ensures NewOnes(x, y.(reg := StopOne(y.reg, m, t)))
  {
    hide Base, Keep, NewOnes, Remove, Belongs, TableOk, ListsOk;
    TimerFacts(x);
    var z := y.(reg := StopOne(y.reg, m, t));
    KeepStopOne(y, m, t);
    NewNone(y, z);
    NewThen(x, y, z, {t}, {});
  }

  lemma NewProbed(x: Xtr, n: Nonce, rec: Option<Record>, addr: int)
    requires Good(x) && Enabled(x, Probed(n, rec, addr))
    ensures NewOnes(x, Step(x, Probed(n, rec, addr)))
  {
    hide Base, XtrMisses.MissesOk, Inv, Keep, NewOnes, ProbeAnswered, StopOne, Silence, OwnEntry;
    BaseFacts(x);
    NewNone(x, x);
    if n in x.reg.table && rec.Some? && ProbedEntry(x, rec.value.eid).Some? {
      var t, m := TimerOfNonce(x.reg, n), ProbedEntry(x, rec.value.eid).value;
      var y := ProbeAnswered(x, m, addr);
      NewAnswered(x, m, addr);
      ProbeAnsweredBase(x, m, addr);
      NewStopped(x, y, m, t);
      NewSilent(x, y.(reg := StopOne(y.reg, m, t)), Step(x, Probed(n, rec, addr)));
    }
  }

  lemma NewSilent(x: Xtr, y: Xtr, z: Xtr)
    requires NewOnes(x, y) && z == y.(misses := z.misses)
    ensures NewOnes(x, z)
  {
    hide WheelSpec.FiringDelay;
    forall t | t in z.reg.timers && t >= x.heap
      ensures Programmed(x, z, t)
    {
      assert Programmed(x, y, t);
    }
  }

  /**
    Every probe timer and every expiry timer that a step starts, whatever the step: a probe timer has
    sent nothing and is due one probe interval from now, an expiry timer as many minutes from now as
    its entry lives.
   */
  lemma StepPrograms(x: Xtr, e: Event)
    requires Good(x) && Enabled(x, e)
    ensures var y := Step(x, e); forall t :: t in y.reg.timers && t !in x.reg.timers ==> Programmed(x, y, t)
  {
    hide Base, XtrMisses.MissesOk, Keep, Programmed, SafeReply, OwnEntry, CacheMiss, SolicitedRequest, MapReply, ProbeReply,
      Callback, TableOk, ListsOk, Inv;
    BaseFacts(x);
    StepKeep(x, e);
    NewAddresses(x, Step(x, e), Touched(x, e), Reprogrammed(x, e));
    match e {
      case BeginTick =>
      case EndTick =>
      case Fire(t, n, sent) =>
        FireReady(x, t);
        CallbackTimers(Expired(x, t), t, n, sent);
        NewNone(x, Step(x, e));
      case Missed(eid, n, sent) => NewMiss(x, eid, n, sent);
      case Solicited(m, n, sent) => NewSolicited(x, m, n, sent);
      case Reply(n, recs, complete) => NewReply(x, n, recs, complete);
      case Probed(n, rec, addr) => NewProbed(x, n, rec, addr);
    }
  }

  lemma NewAddresses(x: Xtr, y: Xtr, ts: set<Timer>, hit: set<Obj>)
    requires Keep(x, y, ts, hit)
    ensures forall t :: t in y.reg.timers && t !in x.reg.timers ==> t >= x.heap
  {}

  /** So are the probe timers of the proxies' locators when the router starts. */
  lemma StartPrograms(cfg: Config, eid: Eid, addrs: seq<(int, bool)>)
    requires cfg.petrs == 0
    ensures var x, y := Bare(cfg, eid, addrs), Start(cfg, eid, addrs);
            forall t :: t in y.reg.timers ==> Programmed(x, y, t)
  {
    hide Base, XtrMisses.MissesOk, Keep, Programmed, ProgramProbing;
    var x := Bare(cfg, eid, addrs);
    BareGood(cfg, eid, addrs);
    NewProgram(x, 0);
    KeepProgram(x, 0);
    NewAddresses(x, ProgramProbing(x, 0), {}, {0});
  }


  // ---------- one expiry timer for each update ----------

  /** The expiry timers are those there were and one more, h, for entry m. */
  ghost predicate OneMore(ts: map<Timer, TimerRec>, us: map<Timer, TimerRec>, m: Obj, h: Timer) {
    && h !in ts && IsKind(us, h, Expiry) && us[h].obj == m
    && (forall u :: IsKind(us, u, Expiry) ==> IsKind(ts, u, Expiry) || u == h)
    && (forall u :: IsKind(ts, u, Expiry) ==> u in us && us[u] == ts[u])
  }

  ghost predicate SameExpiries(ts: map<Timer, TimerRec>, us: map<Timer, TimerRec>) {
    && (forall u :: IsKind(us, u, Expiry) ==> IsKind(ts, u, Expiry))
    && (forall u :: IsKind(ts, u, Expiry) ==> u in us && us[u] == ts[u])
  }

  lemma {:induction false} ProbesNoExpiry(x: Xtr, m: Obj, locs: seq<Loc>)
    requires Base(x) && m in x.entries
    ensures SameExpiries(x.reg.timers, ProbeLocators(x, m, locs).reg.timers)
    decreases |locs|
  {
    hide Base, ProbeLocator;
    if locs != [] {
      TimerUnused(x);
      ProbeLocatorBase(x, m, locs[0].id);
      OneProbe(x, m, locs[0].id);
      ProbesNoExpiry(ProbeLocator(x, m, locs[0].id), m, locs[1..]);
    }
  }

  lemma OneProbe(x: Xtr, m: Obj, id: int)
    requires x.heap !in x.reg.timers
    ensures SameExpiries(x.reg.timers, ProbeLocator(x, m, id).reg.timers) && ProbeLocator(x, m, id).entries == x.entries
  {}

  lemma RefreshExpiry(x: Xtr, m: Obj)
    requires Base(x) && m in x.entries
    ensures m in StartExpiry(x, m).entries
    ensures OneMore(x.reg.timers, ProgramProbing(StartExpiry(x, m), m).reg.timers, m, x.heap)
  {
    hide Base, ProbeLocators, StopKind, StartExpiry, OneMore, SameExpiries;
    var y := StartExpiry(x, m);
    TimerUnused(x);
    Started(x, m);
    StartExpiryBase(x, m);
    if y.cfg.probeInterval != 0 {
      var z := y.(reg := StopKind(y.reg, m, Probing));
      StopKindBase(y, m, Probing);
      ProbesStopped(y.reg, m);
      ProbesNoExpiry(z, m, y.entries[m].locs);
      var w := ProbeLocators(z, m, y.entries[m].locs);
      MoreThenSame(x.reg.timers, y.reg.timers, z.reg.timers, m, x.heap);
      MoreThenSame(x.reg.timers, z.reg.timers, w.reg.timers, m, x.heap);
    }
  }

  lemma Started(x: Xtr, m: Obj)
    requires m in x.entries && x.heap !in x.reg.timers
    ensures OneMore(x.reg.timers, StartExpiry(x, m).reg.timers, m, x.heap) && StartExpiry(x, m).entries == x.entries
  {}

  lemma ProbesStopped(r: Registry, m: Obj)
    ensures SameExpiries(r.timers, StopKind(r, m, Probing).timers)
  {
    hide Others, Belongs;
  }

  lemma MoreThenSame(ts: map<Timer, TimerRec>, us: map<Timer, TimerRec>, vs: map<Timer, TimerRec>, m: Obj, h: Timer)
    requires OneMore(ts, us, m, h) && SameExpiries(us, vs)
    ensures OneMore(ts, vs, m, h)
  {}

  /** The entry has exactly one expiry timer. */
  ghost predicate OneExpiry(y: Xtr, m: Obj) {
    exists h :: IsExpiryOf(y, m, h) && forall u :: IsExpiryOf(y, m, u) ==> u == h
  }

  ghost predicate IsExpiryOf(y: Xtr, m: Obj, u: Timer) {
    IsKind(y.reg.timers, u, Expiry) && y.reg.timers[u].obj == m
  }

  lemma AddExpiry(x: Xtr, rec: Record)
    requires Base(x)
    ensures OneMore(x.reg.timers, AddMapping(x, rec).reg.timers, x.heap, x.heap + 1 + |rec.addrs|)
  {
    hide Base, OneMore, StartExpiry, ProgramProbing, MakeLocs;
    var m := x.heap;
    var e := Entry(rec.eid, true, rec.ttl, MakeLocs(rec.addrs, m + 1));
    var y := x.(entries := x.entries[m := e], cache := if rec.eid in x.cache then x.cache else x.cache[rec.eid := m],
                heap := x.heap + 1 + |rec.addrs|);
    NewEntryBase(x, e, |rec.addrs|);
    RefreshExpiry(y, m);
  }

  /** Each entry added has exactly one expiry timer, and so has each that had. */
  lemma {:induction false} AddAllExpiries(x: Xtr, recs: seq<Record>)
    requires Base(x)
    ensures forall m :: m in x.entries && OneExpiry(x, m) ==> OneExpiry(AddMappings(x, recs), m)
    ensures forall m :: m in AddMappings(x, recs).entries && m >= x.heap ==> OneExpiry(AddMappings(x, recs), m)
    decreases |recs|
  {
    hide Base, OneMore, OneExpiry, AddMapping, TableOk, ListsOk, EntKeep, Lost, RegKeep;
    TimerFacts(x);
    if recs != [] {
      var y := AddMapping(x, recs[0]);
      AddExpiry(x, recs[0]);
      AddMappingBase(x, recs[0]);
      AddAllExpiries(y, recs[1..]);
      OwnExpiry(x, y, x.heap, x.heap + 1 + |recs[0].addrs|);
      AddedEntry(x, recs[0]);
      XtrProbing.AddMappingsEntries(y, recs[1..]);
      forall m | m in x.entries && OneExpiry(x, m)
        ensures OneExpiry(AddMappings(x, recs), m)
      {
        StillOne(x, y, m, x.heap + 1 + |recs[0].addrs|);
      }
    }
  }

  lemma AddedEntry(x: Xtr, rec: Record)
    ensures AddMapping(x, rec).entries.Keys == x.entries.Keys + {x.heap}
  {
    hide StartExpiry, ProgramProbing, MakeLocs;
    var m := x.heap;
    var e := Entry(rec.eid, true, rec.ttl, MakeLocs(rec.addrs, m + 1));
    XtrProbing.RefreshEntries(x.(entries := x.entries[m := e],
                                 cache := if rec.eid in x.cache then x.cache else x.cache[rec.eid := m],
                                 heap := x.heap + 1 + |rec.addrs|), m);
  }

  lemma OwnExpiry(x: Xtr, y: Xtr, m: Obj, h: Timer)
    requires OneMore(x.reg.timers, y.reg.timers, m, h) && forall t :: t in x.reg.timers ==> x.reg.timers[t].obj != m
    ensures OneExpiry(y, m)
  {
    assert IsExpiryOf(y, m, h);
  }

  lemma StillOne(x: Xtr, y: Xtr, m: Obj, h: Timer)
    requires OneMore(x.reg.timers, y.reg.timers, x.heap, h) && m != x.heap && OneExpiry(x, m)
    ensures OneExpiry(y, m)
  {
    var k :| IsExpiryOf(x, m, k) && forall u :: IsExpiryOf(x, m, u) ==> u == k;
    assert IsExpiryOf(y, m, k);
    forall u | IsExpiryOf(y, m, u)
      ensures u == k
    {
      assert u != h;
      assert IsExpiryOf(x, m, u);
    }
  }


  lemma UpdateExpiry(x: Xtr, rec: Record)
    requires Base(x) && rec.eid in x.cache
    ensures (BaseFacts(x);
             OneMore(x.reg.timers, UpdateMapping(x, rec).reg.timers, x.cache[rec.eid], x.heap + |rec.addrs|))
  {
    hide Base, OneMore, StartExpiry, ProgramProbing, MakeLocs;
    BaseFacts(x);
    var m := x.cache[rec.eid];
    var locs := MakeLocs(rec.addrs, x.heap);
    LocsBelow(rec.addrs, x.heap);
    ReplaceLocsBase(x, m, locs, |rec.addrs|);
    RefreshExpiry(x.(entries := x.entries[m := x.entries[m].(locs := locs)], heap := x.heap + |rec.addrs|), m);
  }

  lemma StoppedOneMore(ts: map<Timer, TimerRec>, r: Registry, m: Obj, h: Timer, o: Obj, t: Timer)
    requires OneMore(ts, r.timers, m, h) && t in ts && ts[t].kind != Expiry
    ensures OneMore(ts, StopOne(r, o, t).timers, m, h)
  {
    hide Remove, Belongs;
  }

  /**
    What a Map-Reply does to the expiry timers. For a placeholder: every entry that it adds has
    exactly one. For an active entry: the entry of the first record's prefix has one more, and every
    other expiry timer is as it was; the ones that the entry had go on.
   */
  lemma ReplyExpiries(x: Xtr, n: Nonce, recs: seq<Record>, complete: bool)
    requires Good(x) && Enabled(x, Reply(n, recs, complete)) && n in x.reg.table
    ensures var y, m := Step(x, Reply(n, recs, complete)), (BaseFacts(x); x.reg.timers[TimerOfNonce(x.reg, n)].obj);
            && m in x.entries
            && (!x.entries[m].active ==> forall k :: k in y.entries && k !in x.entries ==> OneExpiry(y, k))
            && (x.entries[m].active && recs != [] && recs[0].eid in x.cache ==>
                  exists h :: OneMore(x.reg.timers, y.reg.timers, x.cache[recs[0].eid], h))
  {
    hide Base, XtrMisses.MissesOk, Inv, OneMore, OneExpiry, AddMappings, UpdateMapping, RemoveEntry, StopOne, Survives;
    BaseFacts(x);
    var t := TimerOfNonce(x.reg, n);
    var m := x.reg.timers[t].obj;
    if !x.entries[m].active {
      var y := RemoveEntry(x, m, Answered(x.now));
      RemoveEntryBase(x, m, Answered(x.now));
      AddAllExpiries(y, recs);
      FewerEntries(x, m, Answered(x.now));
      XtrProbing.AddMappingsEntries(y, recs);
    } else if recs != [] && recs[0].eid in x.cache {
      UpdateExpiry(x, recs[0]);
      NotExpiry(x, n);
      var y, k, h := UpdateMapping(x, recs[0]), x.cache[recs[0].eid], x.heap + |recs[0].addrs|;
      StoppedOneMore(x.reg.timers, y.reg, k, h, m, t);
      assert OneMore(x.reg.timers, Step(x, Reply(n, recs, complete)).reg.timers, k, h);
    }
  }

  lemma FewerEntries(x: Xtr, m: Obj, ending: Ending)
    requires m in x.entries
    ensures var y := RemoveEntry(x, m, ending); y.heap == x.heap && y.entries.Keys <= x.entries.Keys
  {
    hide StopAll;
  }

  lemma NotExpiry(x: Xtr, n: Nonce)
    requires Base(x) && n in x.reg.table
    ensures Inv(x.reg) && x.reg.timers[TimerOfNonce(x.reg, n)].kind != Expiry
  {
    hide Allocated, CacheOk, BoundsOk, ClockOk, IndexOk;
  }
}
