/**
  Nothing hangs: over every run in which sends succeed, each timer of a cached entry, and each probe
  timer of the proxy entry, is running. With XtrInvariant.ClockOk, which rules out overdue alarms,
  every one of them will be heard of again.
 */
module XtrArmed {
  import opened Options
  import opened RegistrySpec
  import opened XtrSpec
  import opened XtrInvariant
  import opened XtrMisses
  import opened XtrRuns
  import opened XtrTheorems
  import XtrProbing

  ghost predicate IsCached(x: Xtr, m: Obj) {
    m in x.entries && x.entries[m].eid in x.cache && x.cache[x.entries[m].eid] == m
  }

  /** A timer that the router depends on. */
  ghost predicate Needed(x: Xtr, t: Timer) {
    && t in x.reg.timers
    && (IsCached(x, x.reg.timers[t].obj) || (x.reg.timers[t].obj == x.cfg.petrs && x.reg.timers[t].kind == Probing))
  }

  /** Every needed timer but those given is running. */
  ghost predicate ArmedBut(x: Xtr, but: set<Timer>) {
    forall t :: Needed(x, t) && t !in but ==> t in x.reg.alarms
  }

  /** No needed timer has been lost: one not running after was needed and not running before. */
  ghost predicate NoLoss(x: Xtr, y: Xtr) {
    forall t :: Needed(y, t) && t !in y.reg.alarms ==> Needed(x, t) && t !in x.reg.alarms
  }

  lemma NoLossArmed(x: Xtr, y: Xtr, but: set<Timer>)
    requires ArmedBut(x, but) && NoLoss(x, y)
    ensures ArmedBut(y, but)
  {}

  lemma NoLossTrans(x: Xtr, y: Xtr, z: Xtr)
    requires NoLoss(x, y) && NoLoss(y, z)
    ensures NoLoss(x, z)
  {}

  /** A step that keeps cache and entries and leaves unarmed only what was. */
  ghost predicate Harmless(x: Xtr, y: Xtr) {
    && y.cache == x.cache && y.cfg == x.cfg
    && y.entries.Keys == x.entries.Keys && (forall m :: m in x.entries ==> y.entries[m].eid == x.entries[m].eid)
    && (forall t :: t in y.reg.timers && t !in y.reg.alarms ==>
          t in x.reg.timers && y.reg.timers[t] == x.reg.timers[t] && t !in x.reg.alarms)
  }

  lemma HarmlessNoLoss(x: Xtr, y: Xtr)
    requires Harmless(x, y)
    ensures NoLoss(x, y)
  {}

  lemma HarmlessTrans(x: Xtr, y: Xtr, z: Xtr)
    requires Harmless(x, y) && Harmless(y, z)
    ensures Harmless(x, z)
  {}

  lemma HarmlessSelf(x: Xtr)
    ensures Harmless(x, x)
  {}

  // ---------- the small steps ----------

  lemma NewArmedHarmless(x: Xtr, kind: Kind, obj: Obj, part: int, duration: int)
    ensures Harmless(x, ArmTimer(NewTimer(x, kind, obj, part), x.heap, duration))
  {}

  lemma StopKindHarmless(x: Xtr, m: Obj)
    ensures Harmless(x, x.(reg := StopKind(x.reg, m, Probing)))
  {}

  lemma StopOneHarmless(x: Xtr, o: Obj, t: Timer)
    ensures Harmless(x, x.(reg := StopOne(x.reg, o, t)))
  {}

  lemma LocsHarmless(x: Xtr, m: Obj, locs: seq<Loc>, room: nat)
    requires m in x.entries
    ensures Harmless(x, x.(entries := x.entries[m := x.entries[m].(locs := locs)], heap := x.heap + room))
  {}

  lemma {:induction false} ProbeLocatorsHarmless(x: Xtr, m: Obj, locs: seq<Loc>)
    ensures Harmless(x, ProbeLocators(x, m, locs))
    decreases |locs|
  {
    hide Harmless, NewTimer, ArmTimer;
    if locs == [] {
      HarmlessSelf(x);
    } else {
      var y := ProbeLocator(x, m, locs[0].id);
      NewArmedHarmless(x, Probing, m, locs[0].id, x.cfg.probeInterval);
      ProbeLocatorsHarmless(y, m, locs[1..]);
      HarmlessTrans(x, y, ProbeLocators(y, m, locs[1..]));
    }
  }

  lemma ProgramProbingHarmless(x: Xtr, m: Obj)
    requires m in x.entries
    ensures Harmless(x, ProgramProbing(x, m))
  {
    hide Harmless, StopKind, ProbeLocators;
    if x.cfg.probeInterval == 0 {
      HarmlessSelf(x);
    } else {
      var y := x.(reg := StopKind(x.reg, m, Probing));
      StopKindHarmless(x, m);
      ProbeLocatorsHarmless(y, m, x.entries[m].locs);
      HarmlessTrans(x, y, ProbeLocators(y, m, x.entries[m].locs));
    }
  }

  lemma RefreshHarmless(x: Xtr, m: Obj)
    requires m in x.entries
    ensures StartExpiry(x, m).entries == x.entries
    ensures Harmless(x, ProgramProbing(StartExpiry(x, m), m))
  {
    hide Harmless, ProgramProbing;
    NewArmedHarmless(x, Expiry, m, 0, x.entries[m].ttl * 60);
    ProgramProbingHarmless(StartExpiry(x, m), m);
    HarmlessTrans(x, StartExpiry(x, m), ProgramProbing(StartExpiry(x, m), m));
  }

  // ---------- the handlers ----------

  lemma NewEntryNoLoss(x: Xtr, y: Xtr, m: Obj)
    requires m !in x.entries && y.reg == x.reg && y.cfg == x.cfg
    requires forall t :: t in x.reg.timers ==> x.reg.timers[t].obj in x.entries
    requires y.entries.Keys == x.entries.Keys + {m} && forall k :: k in x.entries ==> y.entries[k] == x.entries[k]
    requires forall e :: e in y.cache ==> (e in x.cache && y.cache[e] == x.cache[e]) || y.cache[e] == m
    ensures NoLoss(x, y)
  {}

  lemma AddMappingNoLoss(x: Xtr, rec: Record)
    requires Base(x)
    ensures NoLoss(x, AddMapping(x, rec))
  {
    hide Base, Harmless, NoLoss, StartExpiry, ProgramProbing;
    BaseFacts(x);
    var m := x.heap;
    var y := x.(entries := x.entries[m := Entry(rec.eid, true, rec.ttl, MakeLocs(rec.addrs, m + 1))],
                cache := if rec.eid in x.cache then x.cache else x.cache[rec.eid := m],
                heap := x.heap + 1 + |rec.addrs|);
    assert y.entries.Keys == x.entries.Keys + {m};
    NewEntryNoLoss(x, y, m);
    RefreshHarmless(y, m);
    HarmlessNoLoss(y, AddMapping(x, rec));
    NoLossTrans(x, y, AddMapping(x, rec));
  }

  lemma {:induction false} AddMappingsNoLoss(x: Xtr, recs: seq<Record>)
    requires Base(x)
    ensures NoLoss(x, AddMappings(x, recs))
    decreases |recs|
  {
    hide Base, NoLoss, AddMapping;
    if recs == [] {
      HarmlessSelf(x);
      HarmlessNoLoss(x, x);
    } else {
      var y := AddMapping(x, recs[0]);
      AddMappingNoLoss(x, recs[0]);
      AddMappingBase(x, recs[0]);
      AddMappingsNoLoss(y, recs[1..]);
      NoLossTrans(x, y, AddMappings(y, recs[1..]));
    }
  }

  lemma UpdateMappingHarmless(x: Xtr, rec: Record)
    requires Base(x)
    ensures forall e :: e in x.cache ==> x.cache[e] in x.entries
    ensures Harmless(x, UpdateMapping(x, rec))
  {
    hide Base, Harmless, StartExpiry, ProgramProbing;
    BaseFacts(x);
    if rec.eid in x.cache {
      var m := x.cache[rec.eid];
      var locs := MakeLocs(rec.addrs, x.heap);
      var y := x.(entries := x.entries[m := x.entries[m].(locs := locs)], heap := x.heap + |rec.addrs|);
      LocsHarmless(x, m, locs, |rec.addrs|);
      RefreshHarmless(y, m);
      HarmlessTrans(x, y, UpdateMapping(x, rec));
    } else {
      HarmlessSelf(x);
    }
  }

  /** The timers of a removed entry are gone; no other entry becomes cached. */
  lemma RemoveEntryNoLoss(x: Xtr, m: Obj, ending: Ending)
    requires Base(x) && m in x.entries
    ensures NoLoss(x, RemoveEntry(x, m, ending))
    ensures IsCached(x, m) ==> forall t :: t in RemoveEntry(x, m, ending).reg.timers
                                 ==> RemoveEntry(x, m, ending).reg.timers[t].obj != m
    ensures !IsCached(x, m) ==> !IsCached(RemoveEntry(x, m, ending), m)
    ensures RemoveEntry(x, m, ending).cfg == x.cfg
    ensures forall t :: t in RemoveEntry(x, m, ending).reg.timers ==>
              t in x.reg.timers && RemoveEntry(x, m, ending).reg.timers[t] == x.reg.timers[t]
  {
    hide StopAll, Inv, Allocated, TimersOk, BoundsOk, ClockOk;
    if x.entries[m].eid in x.cache {
      PurgedFrame(x.reg, x.cache[x.entries[m].eid]);
    }
  }

  /** A retry that is sent runs its timer again; the last one takes timer and entry away. */
  lemma RetryArms(x: Xtr, t: Timer, limit: int, timeout: int, n: Nonce)
    requires Base(x) && HasList(x.reg, t) && ArmedBut(x, {t}) && x.reg.timers[t].kind in {RequestRetry, SmrRetry}
    ensures x.reg.timers[t].obj in x.entries
    ensures ArmedBut(RetryCallback(x, t, limit, timeout, n, true), {})
  {
    hide Base, RemoveEntry, LogSend, Due;
    BaseFacts(x);
    var m := x.reg.timers[t].obj;
    if |NoncesOf(x.reg, t)| - 1 >= limit {
      var ending := if x.reg.timers[t].kind == RequestRetry then TimedOut(x.now) else Displaced(x.now);
      RemoveEntryNoLoss(x, m, ending);
      NoLossArmed(x, RemoveEntry(x, m, ending), {t});
    }
  }

  lemma ProbeArms(x: Xtr, t: Timer, n: Nonce)
    requires Base(x) && HasList(x.reg, t) && ArmedBut(x, {t}) && x.reg.timers[t].kind == Probing
    ensures x.reg.timers[t].obj in x.entries
    ensures ArmedBut(ProbeCallback(x, t, n, true), {})
  {
    hide Base, SetUp, Due, IsUp, Needed;
    BaseFacts(x);
    var y := ProbeCallback(x, t, n, true);
    ProbeKeeps(x, t, n);
    forall u | Needed(y, u)
      ensures u in y.reg.alarms
    {
      NeededSame(x, y, u);
      ProbeNeeded(x, t, n);
    }
  }

  lemma NeededSame(x: Xtr, y: Xtr, t: Timer)
    requires y.cache == x.cache && y.cfg == x.cfg && y.reg.timers == x.reg.timers
    requires y.entries.Keys == x.entries.Keys && forall m :: m in x.entries ==> y.entries[m].eid == x.entries[m].eid
    ensures Needed(y, t) <==> Needed(x, t)
  {}

  lemma ProbeKeeps(x: Xtr, t: Timer, n: Nonce)
    requires HasList(x.reg, t) && x.reg.timers[t].obj in x.entries
    ensures var y := ProbeCallback(x, t, n, true);
            && y.cache == x.cache && y.cfg == x.cfg && y.reg.timers == x.reg.timers
            && y.entries.Keys == x.entries.Keys && (forall m :: m in x.entries ==> y.entries[m].eid == x.entries[m].eid)
            && (forall u :: u in x.reg.alarms ==> u in y.reg.alarms)
  {
    hide ProbeCallback, SetUp;
    XtrProbing.ProbeCallbackShape(x, t, n, true);
    XtrProbing.ProbeCallbackAlarms(x, t, n, true);
  }

  /** The one case in which a probe timer is left alone is an entry that nothing leads to. */
  lemma ProbeNeeded(x: Xtr, t: Timer, n: Nonce)
    requires HasList(x.reg, t) && x.reg.timers[t].obj in x.entries && x.reg.timers[t].kind == Probing
    ensures Needed(x, t) ==> t in ProbeCallback(x, t, n, true).reg.alarms
  {
    hide IsUp, Due, SetUp;
  }

  // ---------- events ----------

  lemma CacheMissArmed(x: Xtr, eid: Eid, n: Nonce)
    requires Base(x) && ArmedBut(x, {}) && eid !in x.cache && n !in x.used
    ensures ArmedBut(CacheMiss(x, eid, n, true), {})
  {
    hide Base, RetryCallback, Create, NoLoss, ArmedBut;
    BaseFacts(x);
    var m := x.heap;
    var y := x.(entries := x.entries[m := Entry(eid, false, 0, [])], cache := x.cache[eid := m], heap := m + 1);
    assert y.entries.Keys == x.entries.Keys + {m};
    NewEntryNoLoss(x, y, m);
    NoLossArmed(x, y, {});
    PlaceholderBase(x, eid);
    NewTimerBase(y, RequestRetry, m, 0);
    var z := NewTimer(y, RequestRetry, m, 0);
    NewUnarmed(y, RequestRetry, m);
    var w := z.(misses := z.misses[m := Miss(x.now, m + 1, [], [], false, Open)]);
    MissesBase(z, w.misses);
    MissesArmed(z, w);
    RetryArms(w, m + 1, x.cfg.requestRetries, MRQ_TIMEOUT, n);
  }

  lemma NewUnarmed(x: Xtr, kind: Kind, m: Obj)
    requires ArmedBut(x, {})
    ensures ArmedBut(NewTimer(x, kind, m, 0), {x.heap})
    ensures x.heap in NewTimer(x, kind, m, 0).reg.timers && NewTimer(x, kind, m, 0).reg.timers[x.heap].kind == kind
  {
    var y := NewTimer(x, kind, m, 0);
    forall t | Needed(y, t) && t != x.heap
      ensures t in y.reg.alarms
    {
      assert Needed(x, t);
    }
  }

  lemma MissesArmed(x: Xtr, y: Xtr)
    requires ArmedBut(x, {x.heap - 2}) && y == x.(misses := y.misses)
    ensures ArmedBut(y, {x.heap - 2})
  {
    forall t | Needed(y, t)
      ensures Needed(x, t)
    {}
  }

  lemma SolicitedArmed(x: Xtr, m: Obj, n: Nonce)
    requires Base(x) && ArmedBut(x, {}) && m in x.entries && n !in x.used
    ensures ArmedBut(SolicitedRequest(x, m, n, true), {})
  {
    hide Base, RetryCallback, Create, ArmedBut;
    NewTimerBase(x, SmrRetry, m, 0);
    NewUnarmed(x, SmrRetry, m);
    RetryArms(NewTimer(x, SmrRetry, m, 0), x.heap, MAX_SMR_RETRANSMIT, SMR_TIMEOUT, n);
  }

  lemma MapReplyNoLoss(x: Xtr, n: Nonce, recs: seq<Record>, complete: bool)
    requires Base(x) && Inv(x.reg)
    ensures forall t :: t in x.reg.timers ==> x.reg.timers[t].obj in x.entries
    ensures forall e :: e in x.cache ==> x.cache[e] in x.entries
    ensures NoLoss(x, MapReply(x, n, recs, complete).0)
  {
    hide Base, Inv, NoLoss, Harmless, RemoveEntry, AddMappings, UpdateMapping, StopOne;
    BaseFacts(x);
    HarmlessSelf(x);
    HarmlessNoLoss(x, x);
    if n in x.reg.table {
      var t := TimerOfNonce(x.reg, n);
      var m := x.reg.timers[t].obj;
      if !x.entries[m].active {
        var y := RemoveEntry(x, m, Answered(x.now));
        RemoveEntryBase(x, m, Answered(x.now));
        RemoveEntryNoLoss(x, m, Answered(x.now));
        AddMappingsNoLoss(y, recs);
        NoLossTrans(x, y, AddMappings(y, recs));
      } else if recs != [] {
        var y := UpdateMapping(x, recs[0]);
        UpdateMappingHarmless(x, recs[0]);
        StopOneHarmless(y, m, t);
        HarmlessTrans(x, y, y.(reg := StopOne(y.reg, m, t)));
        HarmlessNoLoss(x, y.(reg := StopOne(y.reg, m, t)));
      }
    }
  }

  lemma ProbeReplyNoLoss(x: Xtr, n: Nonce, rec: Option<Record>, addr: int)
    requires Base(x) && Inv(x.reg)
    ensures forall e :: e in x.cache ==> x.cache[e] in x.entries
    ensures NoLoss(x, ProbeReply(x, n, rec, addr).0)
  {
    hide Base, Inv, NoLoss, Harmless, ProbeAnswered, StopOne;
    BaseFacts(x);
    HarmlessSelf(x);
    HarmlessNoLoss(x, x);
    if n in x.reg.table && rec.Some? && ProbedEntry(x, rec.value.eid).Some? {
      var t, m := TimerOfNonce(x.reg, n), ProbedEntry(x, rec.value.eid).value;
      var y := ProbeAnswered(x, m, addr);
      var z := ProbeReply(x, n, rec, addr).0;
      ProbeAnsweredHarmless(x, m, addr);
      StopOneHarmless(y, m, t);
      MissesHarmless(y, y.(reg := StopOne(y.reg, m, t)), z);
      HarmlessTrans(x, y, z);
      HarmlessNoLoss(x, z);
    }
  }

  lemma MissesHarmless(x: Xtr, y: Xtr, z: Xtr)
    requires Harmless(x, y) && z == y.(misses := z.misses)
    ensures Harmless(x, z)
  {}

  lemma ProbeAnsweredHarmless(x: Xtr, m: Obj, addr: int)
    requires m in x.entries
    ensures Harmless(x, ProbeAnswered(x, m, addr))
  {
    hide Harmless, SetUp, NewTimer, ArmTimer;
    match FindByAddr(x.entries[m].locs, addr)
    case None => HarmlessSelf(x);
    case Some(id) =>
      var y := MarkLocator(x, m, id, true);
      LocsHarmless(x, m, SetUp(x.entries[m].locs, id, true), 0);
      NewArmedHarmless(y, Probing, m, id, x.cfg.probeInterval);
      HarmlessTrans(x, y, ProbeLocator(y, m, id));
  }

  lemma FireArmed(x: Xtr, t: Timer, n: Nonce)
    requires Base(x) && ArmedBut(x, {}) && t in x.reg.alarms && n !in x.used
    ensures CallbackReady(Expired(x, t), t)
    ensures ArmedBut(Callback(Expired(x, t), t, n, true), {})
  {
    hide Base, ArmedBut, RetryCallback, ProbeCallback, RemoveEntry;
    FireReady(x, t);
    TimerListed(x, t);
    var y := Expired(x, t);
    ExpiredArmed(x, t);
    ReadyToFire(y, t);
    match y.reg.timers[t].kind {
      case Expiry => ExpiryArmed(y, t, Displaced(y.now));
      case RequestRetry => RetryArms(y, t, y.cfg.requestRetries, MRQ_TIMEOUT, n);
      case SmrRetry => RetryArms(y, t, MAX_SMR_RETRANSMIT, SMR_TIMEOUT, n);
      case Probing => ProbeArms(y, t, n);
    }
  }

  lemma ExpiredArmed(x: Xtr, t: Timer)
    requires ArmedBut(x, {})
    ensures ArmedBut(Expired(x, t), {t})
  {
    forall u | Needed(Expired(x, t), u)
      ensures Needed(x, u)
    {}
  }

  lemma ExpiryArmed(x: Xtr, t: Timer, ending: Ending)
    requires Base(x) && ArmedBut(x, {t}) && t in x.reg.timers && x.reg.timers[t].kind == Expiry
    ensures x.reg.timers[t].obj in x.entries
    ensures ArmedBut(RemoveEntry(x, x.reg.timers[t].obj, ending), {})
  {
    hide Base, RemoveEntry;
    BaseFacts(x);
    var m := x.reg.timers[t].obj;
    RemoveEntryNoLoss(x, m, ending);
    NoLossArmed(x, RemoveEntry(x, m, ending), {t});
  }

  // ---------- runs ----------

  predicate Sent(e: Event) {
    match e
    case Fire(_, _, sent) => sent
    case Missed(_, _, sent) => sent
    case Solicited(_, _, sent) => sent
    case _ => true
  }

  lemma StepArmed(x: Xtr, e: Event)
    requires Good(x) && Enabled(x, e) && Sent(e) && ArmedBut(x, {})
    ensures ArmedBut(Step(x, e), {})
  {
    hide Base, MissesOk, ArmedBut, NoLoss, SafeReply, OwnEntry, Callback, CacheMiss, SolicitedRequest, MapReply,
      ProbeReply;
    BaseFacts(x);
    match e {
      case BeginTick => ClockArmed(x, Step(x, e));
      case EndTick => ClockArmed(x, Step(x, e));
      case Fire(t, n, sent) => FireArmed(x, t, n);
      case Missed(eid, n, sent) => CacheMissArmed(x, eid, n);
      case Solicited(m, n, sent) => SolicitedArmed(x, m, n);
      case Reply(n, recs, complete) =>
        MapReplyNoLoss(x, n, recs, complete);
        NoLossArmed(x, Step(x, e), {});
      case Probed(n, rec, addr) =>
        ProbeReplyNoLoss(x, n, rec, addr);
        NoLossArmed(x, Step(x, e), {});
    }
  }

  lemma ClockArmed(x: Xtr, y: Xtr)
    requires ArmedBut(x, {}) && y == x.(now := y.now, ticking := y.ticking)
    ensures ArmedBut(y, {})
  {
    assert Harmless(x, y);
    HarmlessNoLoss(x, y);
    NoLossArmed(x, y, {});
  }

  lemma {:induction false} RunArmed(x: Xtr, es: seq<Event>, y: Xtr)
    requires Good(x) && ArmedBut(x, {}) && RunOf(x, es, y) && forall k :: 0 <= k < |es| ==> Sent(es[k])
    ensures ArmedBut(y, {})
    decreases |es|
  {
    hide Good, Enabled, Step, ArmedBut, Sent;
    if es != [] {
      StepGood(x, es[0]);
      StepArmed(x, es[0]);
      RunArmed(Step(x, es[0]), es[1..], y);
    }
  }

  /**
    From the start of the router on, if sends succeed, every timer of an entry in the cache is
    running, and so is every probe timer of the proxy entry.
   */
  lemma TimersRun(cfg: Config, eid: Eid, addrs: seq<(int, bool)>, es: seq<Event>, x: Xtr, t: Timer)
    requires RunFrom(cfg, eid, addrs, es, x) && (forall k :: 0 <= k < |es| ==> Sent(es[k]))
    requires t in x.reg.timers
    requires IsCached(x, x.reg.timers[t].obj) || (x.reg.timers[t].obj == x.cfg.petrs && x.reg.timers[t].kind == Probing)
    ensures t in x.reg.alarms && x.now <= x.reg.alarms[t]
  {
    hide Start, RunOf, Sent;
    StartGood(cfg, eid, addrs);
    StartArmed(cfg, eid, addrs);
    RunArmed(Start(cfg, eid, addrs), es, x);
    RunGood(Start(cfg, eid, addrs), es, x);
    assert Needed(x, t);
  }

  lemma StartArmed(cfg: Config, eid: Eid, addrs: seq<(int, bool)>)
    requires cfg.petrs == 0
    ensures ArmedBut(Start(cfg, eid, addrs), {})
  {
    hide ProgramProbing, Harmless;
    var x := Bare(cfg, eid, addrs);
    assert ArmedBut(x, {});
    ProgramProbingHarmless(x, 0);
    HarmlessNoLoss(x, ProgramProbing(x, 0));
    NoLossArmed(x, ProgramProbing(x, 0), {});
  }
}
