/**
  How map cache entries end: every mapping in the cache has a running expiry timer, and the first of
  them to fire is final, because refreshing a mapping starts another timer and stops none.
 */
module XtrExpiry {
  import opened Options
  import opened RegistrySpec
  import opened XtrSpec
  import opened XtrInvariant
  import opened XtrMisses
  import opened XtrRuns
  import opened XtrTheorems
  import XtrProbing

  /** t is a running expiry timer of entry m. */
  ghost predicate Expires(r: Registry, t: Timer, m: Obj) {
    IsKind(r.timers, t, Expiry) && r.timers[t].obj == m && t in r.alarms
  }

  ghost predicate WillExpire(r: Registry, m: Obj) {
    exists t :: Expires(r, t, m)
  }

  /** Expiry timers that exist are as they were. */
  ghost predicate Kept(r: Registry, r': Registry) {
    forall t :: IsKind(r.timers, t, Expiry) ==>
      && t in r'.timers && r'.timers[t] == r.timers[t]
      && (t in r.alarms ==> t in r'.alarms && r'.alarms[t] == r.alarms[t])
  }

  /** Every active entry in the cache has a running expiry timer. */
  ghost predicate CacheExpires(x: Xtr) {
    forall e :: e in x.cache && x.cache[e] in x.entries && x.entries[x.cache[e]].active
      ==> WillExpire(x.reg, x.cache[e])
  }

  /**
    What a step does to cached entries: each was cached before, with its expiry timers untouched,
    or is new, and then either a placeholder or timed itself.
   */
  ghost predicate StillCached(x: Xtr, y: Xtr, e: Eid)
    requires e in y.cache
  {
    && e in x.cache && y.cache[e] == x.cache[e]
    && (x.cache[e] in x.entries && x.cache[e] in y.entries ==>
          x.entries[x.cache[e]].active == y.entries[x.cache[e]].active)
    && (forall t :: Expires(x.reg, t, x.cache[e]) ==>
          Expires(y.reg, t, x.cache[e]) && y.reg.alarms[t] == x.reg.alarms[t])
  }

  ghost predicate NewlyCached(x: Xtr, y: Xtr, e: Eid)
    requires e in y.cache
  {
    && y.cache[e] >= x.heap
    && (y.cache[e] in y.entries && y.entries[y.cache[e]].active ==> WillExpire(y.reg, y.cache[e]))
  }

  ghost predicate Keeps(x: Xtr, y: Xtr) {
    x.heap <= y.heap && forall e :: e in y.cache ==> StillCached(x, y, e) || NewlyCached(x, y, e)
  }

  lemma KeepsExpiry(x: Xtr, y: Xtr)
    requires CacheExpires(x) && Keeps(x, y) && forall e :: e in x.cache ==> x.cache[e] in x.entries
    ensures CacheExpires(y)
  {
    forall e | e in y.cache && y.cache[e] in y.entries && y.entries[y.cache[e]].active
      ensures WillExpire(y.reg, y.cache[e])
    {
      if StillCached(x, y, e) {
        assert WillExpire(x.reg, x.cache[e]);
        var t :| Expires(x.reg, t, x.cache[e]);
        assert Expires(y.reg, t, y.cache[e]);
      }
    }
  }

  /** A step that leaves the cache alone, keeps its entries and their expiry timers. */
  ghost predicate Quiet(x: Xtr, y: Xtr) {
    && x.heap <= y.heap && y.cache == x.cache && Kept(x.reg, y.reg)
    && (forall m :: m in x.entries ==> m in y.entries && y.entries[m].active == x.entries[m].active)
  }

  lemma QuietKeeps(x: Xtr, y: Xtr)
    requires Quiet(x, y)
    ensures Keeps(x, y)
  {
    forall e | e in y.cache
      ensures StillCached(x, y, e)
    {}
  }

  lemma QuietTrans(x: Xtr, y: Xtr, z: Xtr)
    requires Quiet(x, y) && Quiet(y, z)
    ensures Quiet(x, z)
  {}

  // ---------- the small steps ----------

  lemma NewTimerQuiet(x: Xtr, kind: Kind, obj: Obj, part: int)
    requires Base(x)
    ensures Quiet(x, NewTimer(x, kind, obj, part))
  {
    hide Base;
    TimerUnused(x);
  }

  lemma ArmQuiet(x: Xtr, t: Timer, duration: int)
    requires !IsKind(x.reg.timers, t, Expiry) || t !in x.reg.alarms
    ensures Quiet(x, ArmTimer(x, t, duration))
  {}

  lemma NewArmedQuiet(x: Xtr, kind: Kind, obj: Obj, part: int, duration: int)
    requires Base(x)
    ensures Quiet(x, ArmTimer(NewTimer(x, kind, obj, part), x.heap, duration))
    ensures kind == Expiry ==> Expires(ArmTimer(NewTimer(x, kind, obj, part), x.heap, duration).reg, x.heap, obj)
  {
    hide Base;
    NewTimerQuiet(x, kind, obj, part);
    NotArmed(x);
    ArmQuiet(NewTimer(x, kind, obj, part), x.heap, duration);
    QuietTrans(x, NewTimer(x, kind, obj, part), ArmTimer(NewTimer(x, kind, obj, part), x.heap, duration));
  }

  lemma NotArmed(x: Xtr)
    requires Base(x)
    ensures x.heap !in x.reg.alarms
  {}

  lemma {:induction false} ProbeLocatorsQuiet(x: Xtr, m: Obj, locs: seq<Loc>)
    requires Base(x) && m in x.entries
    ensures Quiet(x, ProbeLocators(x, m, locs))
    decreases |locs|
  {
    hide Base, Quiet, NewTimer, ArmTimer;
    if locs == [] {
      QuietSelf(x);
    } else {
      var y := ProbeLocator(x, m, locs[0].id);
      NewArmedQuiet(x, Probing, m, locs[0].id, x.cfg.probeInterval);
      ProbeLocatorBase(x, m, locs[0].id);
      QuietEntry(x, y, m);
      ProbeLocatorsQuiet(y, m, locs[1..]);
      QuietTrans(x, y, ProbeLocators(y, m, locs[1..]));
    }
  }

  lemma QuietSelf(x: Xtr)
    ensures Quiet(x, x)
  {}

  lemma QuietEntry(x: Xtr, y: Xtr, m: Obj)
    requires Quiet(x, y) && m in x.entries
    ensures m in y.entries
  {}

  lemma ProgramProbingQuiet(x: Xtr, m: Obj)
    requires Base(x) && m in x.entries
    ensures Quiet(x, ProgramProbing(x, m))
  {
    hide Base, Quiet, StopKind, ProbeLocators;
    if x.cfg.probeInterval == 0 {
      QuietSelf(x);
    } else {
      var y := x.(reg := StopKind(x.reg, m, Probing));
      StopKindBase(x, m, Probing);
      StopKindQuiet(x, m);
      ProbeLocatorsQuiet(y, m, x.entries[m].locs);
      QuietTrans(x, y, ProbeLocators(y, m, x.entries[m].locs));
    }
  }

  lemma StopKindQuiet(x: Xtr, m: Obj)
    ensures Quiet(x, x.(reg := StopKind(x.reg, m, Probing)))
  {}

  lemma StopOneQuiet(x: Xtr, o: Obj, t: Timer)
    requires !IsKind(x.reg.timers, t, Expiry)
    ensures Quiet(x, x.(reg := StopOne(x.reg, o, t)))
  {}

  /** A refreshed entry gets an expiry timer of its own. */
  lemma RefreshQuiet(x: Xtr, m: Obj)
    requires Base(x) && m in x.entries
    ensures StartExpiry(x, m).entries == x.entries
    ensures var y := ProgramProbing(StartExpiry(x, m), m); Quiet(x, y) && WillExpire(y.reg, m)
  {
    hide Base, Quiet, ProgramProbing, Expires;
    StartExpiryBase(x, m);
    NewArmedQuiet(x, Expiry, m, 0, x.entries[m].ttl * 60);
    var y := StartExpiry(x, m);
    ProgramProbingQuiet(y, m);
    var z := ProgramProbing(y, m);
    QuietTrans(x, y, z);
    QuietExpires(y, z, x.heap, m);
  }

  lemma QuietExpires(x: Xtr, y: Xtr, t: Timer, m: Obj)
    requires Quiet(x, y) && Expires(x.reg, t, m)
    ensures Expires(y.reg, t, m) && y.reg.alarms[t] == x.reg.alarms[t]
  {}

  // ---------- the handlers ----------

  lemma AddMappingKeeps(x: Xtr, rec: Record)
    requires Base(x)
    ensures Keeps(x, AddMapping(x, rec))
  {
    hide Base, Quiet, StartExpiry, ProgramProbing, WillExpire;
    var m := x.heap;
    var e := Entry(rec.eid, true, rec.ttl, MakeLocs(rec.addrs, m + 1));
    NewEntryBase(x, e, |rec.addrs|);
    var y := x.(entries := x.entries[m := e],
                cache := if rec.eid in x.cache then x.cache else x.cache[rec.eid := m],
                heap := x.heap + 1 + |rec.addrs|);
    RefreshQuiet(y, m);
    var z := AddMapping(x, rec);
    BaseFacts(x);
    AddedKeeps(x, y, z, m, rec.eid);
  }

  lemma AddedKeeps(x: Xtr, y: Xtr, z: Xtr, m: Obj, eid: Eid)
    requires Quiet(y, z) && m == x.heap <= y.heap && m !in x.entries && y.reg == x.reg
    requires (forall k :: k in x.entries ==> k in y.entries && y.entries[k] == x.entries[k])
    requires forall e :: e in x.cache ==> x.cache[e] in x.entries
    requires y.cache == (if eid in x.cache then x.cache else x.cache[eid := m]) && WillExpire(z.reg, m)
    ensures Keeps(x, z)
  {
    hide WillExpire;
    forall e | e in z.cache
      ensures StillCached(x, z, e) || NewlyCached(x, z, e)
    {
      if e in x.cache { assert StillCached(x, z, e); }
    }
  }

  lemma UpdateMappingKeeps(x: Xtr, rec: Record)
    requires Base(x)
    ensures forall e :: e in x.cache ==> x.cache[e] in x.entries
    ensures Quiet(x, UpdateMapping(x, rec))
  {
    hide Base, Quiet, StartExpiry, ProgramProbing, WillExpire;
    BaseFacts(x);
    if rec.eid in x.cache {
      var m := x.cache[rec.eid];
      var locs := MakeLocs(rec.addrs, x.heap);
      ReplaceLocsBase(x, m, locs, |rec.addrs|);
      var y := x.(entries := x.entries[m := x.entries[m].(locs := locs)], heap := x.heap + |rec.addrs|);
      LocsQuiet(x, m, locs, |rec.addrs|);
      RefreshQuiet(y, m);
      QuietTrans(x, y, UpdateMapping(x, rec));
    } else {
      QuietSelf(x);
    }
  }

  lemma LocsQuiet(x: Xtr, m: Obj, locs: seq<Loc>, room: nat)
    requires m in x.entries
    ensures Quiet(x, x.(entries := x.entries[m := x.entries[m].(locs := locs)], heap := x.heap + room))
  {}

  /** Removing an entry takes the timers of the cached entry and of no other. */
  lemma RemoveEntryKeeps(x: Xtr, m: Obj, ending: Ending)
    requires Base(x) && m in x.entries
    ensures Keeps(x, RemoveEntry(x, m, ending))
  {
    hide StopAll, Inv, Allocated, TimersOk, BoundsOk, ClockOk;
    if x.entries[m].eid in x.cache {
      var d := x.cache[x.entries[m].eid];
      PurgedFrame(x.reg, d);
      var y := RemoveEntry(x, m, ending);
      forall e | e in y.cache
        ensures StillCached(x, y, e)
      {
        assert x.cache[e] != d;
      }
    } else {
      QuietSelf(x);
      QuietKeeps(x, x);
    }
  }

  lemma KeepsTrans(x: Xtr, y: Xtr, z: Xtr)
    requires Keeps(x, y) && Keeps(y, z)
    requires (forall e :: e in x.cache ==> x.cache[e] in x.entries) && (forall e :: e in y.cache ==> y.cache[e] in y.entries)
    ensures Keeps(x, z)
  {
    forall e | e in z.cache
      ensures StillCached(x, z, e) || NewlyCached(x, z, e)
    {
      if StillCached(y, z, e) && NewlyCached(x, y, e) {
        if z.cache[e] in z.entries && z.entries[z.cache[e]].active {
          assert WillExpire(y.reg, y.cache[e]);
          var t :| Expires(y.reg, t, y.cache[e]);
          assert Expires(z.reg, t, z.cache[e]);
        }
      }
    }
  }

  lemma {:induction false} AddMappingsKeeps(x: Xtr, recs: seq<Record>)
    requires Base(x)
    ensures Keeps(x, AddMappings(x, recs))
    decreases |recs|
  {
    hide Base, Keeps, AddMapping;
    BaseFacts(x);
    if recs == [] {
      QuietSelf(x);
      QuietKeeps(x, x);
    } else {
      var y := AddMapping(x, recs[0]);
      AddMappingKeeps(x, recs[0]);
      AddMappingBase(x, recs[0]);
      BaseFacts(y);
      AddMappingsKeeps(y, recs[1..]);
      KeepsTrans(x, y, AddMappings(y, recs[1..]));
    }
  }

  /** A retry timer that fires concerns no expiry timer, unless it removes the entry. */
  lemma RetryCallbackKeeps(x: Xtr, t: Timer, limit: int, timeout: int, n: Nonce, sent: bool)
    requires Base(x) && HasList(x.reg, t) && x.reg.timers[t].kind != Expiry
    ensures x.reg.timers[t].obj in x.entries
    ensures Keeps(x, RetryCallback(x, t, limit, timeout, n, sent))
  {
    hide Base, Keeps, RemoveEntry, LogSend, LogStall, Due;
    BaseFacts(x);
    var m := x.reg.timers[t].obj;
    if |NoncesOf(x.reg, t)| - 1 < limit {
      var y := RetryCallback(x, t, limit, timeout, n, sent);
      assert Quiet(x, y);
      QuietKeeps(x, y);
    } else {
      RemoveEntryKeeps(x, m, if x.reg.timers[t].kind == RequestRetry then TimedOut(x.now) else Displaced(x.now));
    }
  }

  lemma ProbeCallbackQuiet(x: Xtr, t: Timer, n: Nonce, sent: bool)
    requires Base(x) && HasList(x.reg, t) && x.reg.timers[t].kind == Probing
    ensures x.reg.timers[t].obj in x.entries
    ensures Quiet(x, ProbeCallback(x, t, n, sent))
  {
    hide Base, SetUp, ProbeCallback;
    BaseFacts(x);
    XtrProbing.ProbeCallbackShape(x, t, n, sent);
    XtrProbing.ProbeCallbackAlarms(x, t, n, sent);
  }

  /** The wheel has taken the timer off; for any timer but an expiry timer that is no loss here. */
  lemma ExpiredQuiet(x: Xtr, t: Timer)
    requires !IsKind(x.reg.timers, t, Expiry)
    ensures Quiet(x, Expired(x, t))
  {}

  lemma FireExpiryKeeps(x: Xtr, t: Timer, ending: Ending)
    requires Base(x) && Base(Expired(x, t)) && t in x.reg.timers && x.reg.timers[t].obj in x.entries
    ensures Keeps(x, RemoveEntry(Expired(x, t), x.reg.timers[t].obj, ending))
  {
    hide StopAll, Inv, Allocated, TimersOk, BoundsOk, ClockOk;
    var y, m := Expired(x, t), x.reg.timers[t].obj;
    var z := RemoveEntry(y, m, ending);
    if x.entries[m].eid in x.cache {
      PurgedFrame(y.reg, x.cache[x.entries[m].eid]);
    }
    forall e | e in z.cache
      ensures StillCached(x, z, e)
    {
      assert x.cache[e] != m;
    }
  }

  lemma PlaceholderKeeps(x: Xtr, eid: Eid)
    requires Base(x) && eid !in x.cache
    ensures Keeps(x, x.(entries := x.entries[x.heap := Entry(eid, false, 0, [])],
                        cache := x.cache[eid := x.heap], heap := x.heap + 1))
  {
    hide Base;
    BaseFacts(x);
    var y := x.(entries := x.entries[x.heap := Entry(eid, false, 0, [])],
                cache := x.cache[eid := x.heap], heap := x.heap + 1);
    forall e | e in y.cache && e != eid
      ensures StillCached(x, y, e)
    {}
  }

  lemma CacheMissKeeps(x: Xtr, eid: Eid, n: Nonce, sent: bool)
    requires Base(x) && eid !in x.cache && n !in x.used
    ensures Keeps(x, CacheMiss(x, eid, n, sent))
  {
    hide Base, RetryCallback, Keeps, Create, Quiet;
    BaseFacts(x);
    var m := x.heap;
    var y := x.(entries := x.entries[m := Entry(eid, false, 0, [])], cache := x.cache[eid := m], heap := m + 1);
    PlaceholderBase(x, eid);
    PlaceholderKeeps(x, eid);
    NewTimerBase(y, RequestRetry, m, 0);
    NewTimerQuiet(y, RequestRetry, m, 0);
    var z := NewTimer(y, RequestRetry, m, 0);
    var w := z.(misses := z.misses[m := Miss(x.now, m + 1, [], [], false, Open)]);
    MissesBase(z, w.misses);
    MissesQuiet(y, z, w);
    QuietKeeps(y, w);
    BaseFacts(y);
    BaseFacts(w);
    KeepsTrans(x, y, w);
    NewTimerKind(y, RequestRetry, m, 0);
    RetryCallbackKeeps(w, m + 1, x.cfg.requestRetries, MRQ_TIMEOUT, n, sent);
    KeepsTrans(x, w, CacheMiss(x, eid, n, sent));
  }

  lemma MissesQuiet(x: Xtr, y: Xtr, z: Xtr)
    requires Quiet(x, y) && z == y.(misses := z.misses)
    ensures Quiet(x, z)
  {}

  lemma SolicitedKeeps(x: Xtr, m: Obj, n: Nonce, sent: bool)
    requires Base(x) && m in x.entries && n !in x.used
    ensures Keeps(x, SolicitedRequest(x, m, n, sent))
  {
    hide Base, RetryCallback, Keeps, Create, Quiet;
    var y := NewTimer(x, SmrRetry, m, 0);
    NewTimerBase(x, SmrRetry, m, 0);
    NewTimerQuiet(x, SmrRetry, m, 0);
    QuietKeeps(x, y);
    NewTimerKind(x, SmrRetry, m, 0);
    BaseFacts(x);
    BaseFacts(y);
    RetryCallbackKeeps(y, x.heap, MAX_SMR_RETRANSMIT, SMR_TIMEOUT, n, sent);
    KeepsTrans(x, y, SolicitedRequest(x, m, n, sent));
  }

  lemma MapReplyKeeps(x: Xtr, n: Nonce, recs: seq<Record>, complete: bool)
    requires Base(x) && (BaseFacts(x); SafeReply(x, n, recs))
    ensures forall t :: t in x.reg.timers ==> x.reg.timers[t].obj in x.entries
    ensures forall e :: e in x.cache ==> x.cache[e] in x.entries
    ensures Keeps(x, MapReply(x, n, recs, complete).0)
  {
    hide Base, Inv, Keeps, Quiet, RemoveEntry, AddMappings, UpdateMapping, StopOne;
    BaseFacts(x);
    QuietSelf(x);
    QuietKeeps(x, x);
    if n in x.reg.table {
      var t := TimerOfNonce(x.reg, n);
      var m := x.reg.timers[t].obj;
      if !x.entries[m].active {
        var y := RemoveEntry(x, m, Answered(x.now));
        RemoveEntryBase(x, m, Answered(x.now));
        RemoveEntryKeeps(x, m, Answered(x.now));
        BaseFacts(y);
        AddMappingsKeeps(y, recs);
        KeepsTrans(x, y, AddMappings(y, recs));
      } else if recs != [] {
        var y := UpdateMapping(x, recs[0]);
        UpdateMappingKeeps(x, recs[0]);
        UpdateKeepsTimer(x, recs[0], t);
        AskingTimer(x, n);
        StopOneQuiet(y, m, t);
        QuietTrans(x, y, y.(reg := StopOne(y.reg, m, t)));
        QuietKeeps(x, y.(reg := StopOne(y.reg, m, t)));
      }
    }
  }

  lemma ProbeReplyKeeps(x: Xtr, n: Nonce, rec: Option<Record>, addr: int)
    requires Base(x) && Inv(x.reg) && (rec.Some? ==> OwnEntry(x, n, rec.value.eid))
    ensures forall e :: e in x.cache ==> x.cache[e] in x.entries
    ensures Keeps(x, ProbeReply(x, n, rec, addr).0)
  {
    hide Base, Inv, Keeps, Quiet, ProbeAnswered, StopOne;
    BaseFacts(x);
    QuietSelf(x);
    QuietKeeps(x, x);
    if n in x.reg.table && rec.Some? && ProbedEntry(x, rec.value.eid).Some? {
      var t, m := TimerOfNonce(x.reg, n), ProbedEntry(x, rec.value.eid).value;
      var y := ProbeAnswered(x, m, addr);
      var z := ProbeReply(x, n, rec, addr).0;
      ProbeAnsweredQuiet(x, m, addr, t);
      AskingTimer(x, n);
      StopOneQuiet(y, m, t);
      MissesQuiet(y, y.(reg := StopOne(y.reg, m, t)), z);
      QuietTrans(x, y, z);
      QuietKeeps(x, z);
    }
  }

  lemma ProbeAnsweredQuiet(x: Xtr, m: Obj, addr: int, t: Timer)
    requires Base(x) && m in x.entries && t in x.reg.timers
    ensures var y := ProbeAnswered(x, m, addr);
            Quiet(x, y) && t in y.reg.timers && y.reg.timers[t] == x.reg.timers[t]
  {
    hide Base, Quiet, MarkLocator, NewTimer, ArmTimer;
    match FindByAddr(x.entries[m].locs, addr)
    case None => QuietSelf(x);
    case Some(id) =>
      var y := MarkLocator(x, m, id, true);
      MarkLocatorBase(x, m, id, true);
      MarkedQuiet(x, m, id);
      NewArmedQuiet(y, Probing, m, id, x.cfg.probeInterval);
      QuietTrans(x, y, ProbeLocator(y, m, id));
      NewArmedTimers(y, m, id, t) by { TimerBelowHeap(x, t); }
  }

  lemma MarkedQuiet(x: Xtr, m: Obj, id: int)
    requires m in x.entries
    ensures var y := MarkLocator(x, m, id, true);
            Quiet(x, y) && y.reg == x.reg && y.cfg == x.cfg && m in y.entries && y.heap == x.heap
  {}

  lemma NewArmedTimers(x: Xtr, m: Obj, id: int, t: Timer)
    requires t in x.reg.timers && t < x.heap
    ensures var y := ProbeLocator(x, m, id); t in y.reg.timers && y.reg.timers[t] == x.reg.timers[t]
  {}

  // ---------- runs ----------

  lemma StepKeeps(x: Xtr, e: Event)
    requires Good(x) && Enabled(x, e)
    ensures Keeps(x, Step(x, e))
  {
    hide Base, MissesOk, Keeps, Quiet, SafeReply, OwnEntry, RetryCallback, ProbeCallback, RemoveEntry,
      CacheMiss, SolicitedRequest, MapReply, ProbeReply;
    BaseFacts(x);
    match e {
      case BeginTick => ClockQuiet(x, Step(x, e));
      case EndTick => ClockQuiet(x, Step(x, e));
      case Fire(t, n, sent) => FireKeeps(x, t, n, sent);
      case Missed(eid, n, sent) => CacheMissKeeps(x, eid, n, sent);
      case Solicited(m, n, sent) => SolicitedKeeps(x, m, n, sent);
      case Reply(n, recs, complete) => MapReplyKeeps(x, n, recs, complete);
      case Probed(n, rec, addr) => ProbeReplyKeeps(x, n, rec, addr);
    }
  }

  lemma ClockQuiet(x: Xtr, y: Xtr)
    requires y == x.(now := y.now, ticking := y.ticking)
    ensures Keeps(x, y)
  {
    assert Quiet(x, y);
    QuietKeeps(x, y);
  }

  lemma FireKeeps(x: Xtr, t: Timer, n: Nonce, sent: bool)
    requires Base(x) && t in x.reg.alarms && n !in x.used
    ensures CallbackReady(Expired(x, t), t)
    ensures Keeps(x, Callback(Expired(x, t), t, n, sent))
  {
    hide Base, Keeps, Quiet, RetryCallback, ProbeCallback, RemoveEntry;
    FireReady(x, t);
    BaseFacts(x);
    var y := Expired(x, t);
    var z := Callback(y, t, n, sent);
    if x.reg.timers[t].kind == Expiry {
      FireExpiryKeeps(x, t, Displaced(x.now));
    } else {
      ExpiredQuiet(x, t);
      QuietKeeps(x, y);
      BaseFacts(y);
      match y.reg.timers[t].kind {
        case RequestRetry => RetryCallbackKeeps(y, t, y.cfg.requestRetries, MRQ_TIMEOUT, n, sent);
        case SmrRetry => RetryCallbackKeeps(y, t, MAX_SMR_RETRANSMIT, SMR_TIMEOUT, n, sent);
        case Probing =>
          ProbeCallbackQuiet(y, t, n, sent);
          QuietKeeps(y, z);
        case _ =>
          QuietSelf(y);
          QuietKeeps(y, z);
      }
      KeepsTrans(x, y, z);
    }
  }

  lemma {:induction false} RunExpires(x: Xtr, es: seq<Event>, y: Xtr)
    requires Good(x) && CacheExpires(x) && RunOf(x, es, y)
    ensures CacheExpires(y)
    decreases |es|
  {
    hide Enabled, Step, Base, MissesOk, CacheExpires;
    if es != [] {
      BaseFacts(x);
      StepGood(x, es[0]);
      StepKeeps(x, es[0]);
      KeepsExpiry(x, Step(x, es[0]));
      RunExpires(Step(x, es[0]), es[1..], y);
    }
  }

  /** In every state the router can be in, a mapping in its cache has a running expiry timer. */
  lemma CachedMappingsExpire(x: Xtr, e: Eid)
    requires Reachable(x) && e in x.cache
    ensures x.cache[e] in x.entries
    ensures x.entries[x.cache[e]].active ==>
              exists t :: && IsKind(x.reg.timers, t, Expiry) && x.reg.timers[t].obj == x.cache[e]
                          && t in x.reg.alarms && x.now <= x.reg.alarms[t]
  {
    hide ProgramProbing, Enabled, Step;
    ReachableGood(x);
    BaseFacts(x);
    var cfg, eid, addrs, es :| RunFrom(cfg, eid, addrs, es, x);
    StartGood(cfg, eid, addrs);
    StartEmpty(cfg, eid, addrs);
    RunExpires(Start(cfg, eid, addrs), es, x);
    if x.entries[x.cache[e]].active {
      assert WillExpire(x.reg, x.cache[e]);
      var t :| Expires(x.reg, t, x.cache[e]);
    }
  }

  lemma StartEmpty(cfg: Config, eid: Eid, addrs: seq<(int, bool)>)
    requires cfg.petrs == 0
    ensures CacheExpires(Start(cfg, eid, addrs))
  {
    hide Base, MissesOk, Quiet;
    var x := Bare(cfg, eid, addrs);
    BareGood(cfg, eid, addrs);
    ProgramProbingQuiet(x, 0);
    QuietCache(x, ProgramProbing(x, 0));
  }

  lemma QuietCache(x: Xtr, y: Xtr)
    requires Quiet(x, y)
    ensures y.cache == x.cache
  {}

  /**
    The first expiry is final: whatever replies refresh the mapping in between, as long as it is
    in the cache each of its expiry timers still runs and is due when it was. So it is gone once
    the tick of the earliest is over.
   */
  lemma {:induction false} FirstExpiryIsFinal(x: Xtr, es: seq<Event>, y: Xtr, e: Eid, t: Timer)
    requires Good(x) && RunOf(x, es, y)
    requires e in x.cache && Expires(x.reg, t, x.cache[e])
    ensures e in y.cache && y.cache[e] == x.cache[e] ==>
              Expires(y.reg, t, y.cache[e]) && y.reg.alarms[t] == x.reg.alarms[t] && y.now <= x.reg.alarms[t]
    ensures !y.ticking && y.now >= x.reg.alarms[t] ==> !(e in y.cache && y.cache[e] == x.cache[e])
    decreases |es|
  {
    hide Enabled, Step, Base, MissesOk;
    BaseFacts(x);
    if es == [] {
      OnTime(x, t);
    } else {
      StepGood(x, es[0]);
      StepKeeps(x, es[0]);
      var z := Step(x, es[0]);
      RunGood(z, es[1..], y);
      OnTimeAll(y);
      if e in z.cache && z.cache[e] == x.cache[e] {
        assert StillCached(x, z, e);
        FirstExpiryIsFinal(z, es[1..], y, e, t);
      } else {
        CacheInjective(x);
        forall f | f in z.cache
          ensures z.cache[f] != x.cache[e]
        {
          if StillCached(x, z, f) { assert z.cache[f] == x.cache[f]; }
        }
        NeverBack(z, es[1..], y, x.cache[e]);
      }
    }
  }

  lemma OnTime(x: Xtr, t: Timer)
    requires Good(x) && t in x.reg.alarms
    ensures if x.ticking then x.now <= x.reg.alarms[t] else x.now < x.reg.alarms[t]
  {
    hide Inv, Allocated, TimersOk, CacheOk, BoundsOk, MissesOk;
  }

  lemma OnTimeAll(x: Xtr)
    requires Good(x)
    ensures forall t :: t in x.reg.alarms ==> if x.ticking then x.now <= x.reg.alarms[t] else x.now < x.reg.alarms[t]
  {
    hide Inv, Allocated, TimersOk, CacheOk, BoundsOk, MissesOk;
  }

  lemma CacheInjective(x: Xtr)
    requires Good(x)
    ensures forall e, f :: e in x.cache && f in x.cache && x.cache[e] == x.cache[f] ==> e == f
  {
    hide Inv, Allocated, TimersOk, ClockOk, BoundsOk, MissesOk;
  }

  /** An entry that has left the cache does not come back. */
  lemma {:induction false} NeverBack(x: Xtr, es: seq<Event>, y: Xtr, m: Obj)
    requires Good(x) && RunOf(x, es, y) && m < x.heap && m !in x.cache.Values
    ensures m !in y.cache.Values
    decreases |es|
  {
    hide Enabled, Step, Base, MissesOk;
    if es != [] {
      StepGood(x, es[0]);
      StepKeeps(x, es[0]);
      var z := Step(x, es[0]);
      assert m !in z.cache.Values by {
        forall e | e in z.cache
          ensures z.cache[e] != m
        {
          if StillCached(x, z, e) { assert x.cache[e] in x.cache.Values; }
        }
      }
      NeverBack(z, es[1..], y, m);
    }
  }
}
