/**
  The life of a cache miss: the requests it sends, their spacing, and what is left of it when it
  ends, in whatever company of other misses, replies, solicitations and timers.
 */
module XtrMisses {
  import opened RegistrySpec
  import opened XtrSpec
  import opened XtrInvariant

  /** What the history of a miss and the state of the daemon have to do with each other. */
  ghost predicate MissOk(x: Xtr, m: Obj)
    requires m in x.misses
  {
    var h := x.misses[m];
    && |h.sends| == |h.nonces| <= Limit(x.cfg, RequestRetry)
    && (forall i :: 0 <= i < |h.sends| ==> h.sends[i] == h.start + MRQ_TIMEOUT * i)
    && (forall n :: n in h.nonces ==> n in x.used)
    && (if h.ending == Open then Waiting(x, m, h) && Timed(x, h) else Refused(x, h))
    && (h.ending != Open && !h.ending.Silenced? ==> Ended(x, m, h))
  }

  /** A miss still open: its placeholder, its timer and exactly its nonces are there. */
  ghost predicate Waiting(x: Xtr, m: Obj, h: Miss) {
    && m in x.entries && !x.entries[m].active
    && HasList(x.reg, h.timer)
    && x.reg.timers[h.timer].kind == RequestRetry && x.reg.timers[h.timer].obj == m
    && NoncesOf(x.reg, h.timer) == h.nonces
  }

  /** Unless a send has failed, the next step of an open miss is due two ticks after the last. */
  ghost predicate Timed(x: Xtr, h: Miss) {
    && (h.timer in x.reg.alarms <==> !h.stalled)
    && (!h.stalled ==> x.reg.alarms[h.timer] == h.start + MRQ_TIMEOUT * |h.sends|)
  }

  /** Every nonce of the miss is gone. */
  ghost predicate Refused(x: Xtr, h: Miss) {
    forall n :: n in h.nonces ==> n !in x.reg.table
  }

  /** A miss that has ended, other than by being silenced: the placeholder is gone. */
  ghost predicate Ended(x: Xtr, m: Obj, h: Miss) {
    && m !in x.entries
    && (h.ending.TimedOut? && !h.stalled ==>
          |h.sends| == Limit(x.cfg, RequestRetry) && h.ending.tick == h.start + MRQ_TIMEOUT * |h.sends|)
  }

  /** Every request timer is the timer of an open miss. */
  ghost predicate RetryTimersOk(timers: map<Timer, TimerRec>, misses: map<Obj, Miss>) {
    forall t :: t in timers && timers[t].kind == RequestRetry ==>
      var m := timers[t].obj;
      m in misses && misses[m].timer == t && misses[m].ending == Open
  }

  ghost predicate MissesOk(x: Xtr) {
    RetryTimersOk(x.reg.timers, x.misses) && forall m :: m in x.misses ==> MissOk(x, m)
  }

  /** The alarm of this miss has just gone off, or its first request is about to be sent. */
  ghost predicate AtDeadline(x: Xtr, m: Obj)
    requires m in x.misses
  {
    var h := x.misses[m];
    && |h.sends| == |h.nonces| <= Limit(x.cfg, RequestRetry)
    && (forall i :: 0 <= i < |h.sends| ==> h.sends[i] == h.start + MRQ_TIMEOUT * i)
    && (forall n :: n in h.nonces ==> n in x.used)
    && h.ending == Open && Waiting(x, m, h)
    && h.timer !in x.reg.alarms && !h.stalled && x.now == h.start + MRQ_TIMEOUT * |h.sends|
  }

  /** All is well but for miss m, which is about to be dealt with. */
  ghost predicate OthersOk(x: Xtr, m: Obj) {
    RetryTimersOk(x.reg.timers, x.misses) && forall k :: k in x.misses && k != m ==> MissOk(x, k)
  }

  // ---------- frames ----------

  ghost predicate SameTimer(r: Registry, r': Registry, t: Timer)
    requires t in r.timers
  {
    && t in r'.timers && r'.timers[t] == r.timers[t]
    && (t in r'.alarms <==> t in r.alarms) && (t in r.alarms ==> r'.alarms[t] == r.alarms[t])
    && (HasList(r, t) ==> HasList(r', t) && NoncesOf(r', t) == NoncesOf(r, t))
  }

  /**
    Between x and y, request timers other than ts, entries other than gone and their histories are
    untouched, and no nonce ever issued has come back.
   */
  ghost predicate Frame(x: Xtr, y: Xtr, ts: set<Timer>, gone: set<Obj>) {
    && y.cfg == x.cfg && x.heap <= y.heap && x.used <= y.used
    && (forall n :: n in y.reg.table ==> n in x.reg.table || n !in x.used)
    && (forall t :: t in x.reg.timers && IsKind(x.reg.timers, t, RequestRetry)
          ==> t in ts || x.reg.timers[t].obj in gone || SameTimer(x.reg, y.reg, t))
    && (forall t :: IsKind(y.reg.timers, t, RequestRetry)
          ==> t in x.reg.timers && x.reg.timers[t] == y.reg.timers[t] && y.reg.timers[t].obj !in gone)
    && (forall m :: m in x.entries && m !in gone ==> m in y.entries && y.entries[m].active == x.entries[m].active)
    && (forall m :: m in y.entries ==> m in x.entries || m >= x.heap)
    && y.misses.Keys == x.misses.Keys
    && (forall m :: m in x.misses && (x.misses[m].ending != Open || (m !in gone && x.misses[m].timer !in ts))
          ==> y.misses[m] == x.misses[m])
  }

  lemma FrameTrans(x: Xtr, y: Xtr, z: Xtr, ts: set<Timer>, gone: set<Obj>, gone': set<Obj>)
    requires Frame(x, y, ts, gone) && Frame(y, z, ts, gone')
    ensures Frame(x, z, ts, gone + gone')
  {
    forall t | IsKind(x.reg.timers, t, RequestRetry) && t !in ts && x.reg.timers[t].obj !in gone + gone'
      ensures SameTimer(x.reg, z.reg, t)
    {
      assert SameTimer(x.reg, y.reg, t) && IsKind(y.reg.timers, t, RequestRetry) && SameTimer(y.reg, z.reg, t);
    }
  }

  lemma FrameThen(x: Xtr, y: Xtr, z: Xtr, ts: set<Timer>, gone: set<Obj>)
    requires Frame(x, y, ts, gone) && Frame(y, z, ts, {})
    ensures Frame(x, z, ts, gone)
  {
    FrameTrans(x, y, z, ts, gone, {});
    assert gone + {} == gone;
  }

  lemma FrameWiden(x: Xtr, y: Xtr, ts: set<Timer>, gone: set<Obj>, ts': set<Timer>)
    requires Frame(x, y, ts, gone) && ts <= ts'
    ensures Frame(x, y, ts', gone)
  {}

  lemma FrameKeepsMiss(x: Xtr, y: Xtr, ts: set<Timer>, gone: set<Obj>, m: Obj)
    requires Frame(x, y, ts, gone) && m in x.misses && MissOk(x, m) && m < x.heap
    requires x.misses[m].ending == Open ==> m !in gone && x.misses[m].timer !in ts
    ensures m in y.misses && y.misses[m] == x.misses[m] && MissOk(y, m)
  {
    if x.misses[m].ending == Open {
      assert IsKind(x.reg.timers, x.misses[m].timer, RequestRetry);
      assert SameTimer(x.reg, y.reg, x.misses[m].timer);
    }
  }

  // ---------- the frame of every small step ----------

  lemma NewTimerFrame(x: Xtr, kind: Kind, obj: Obj, part: int)
    requires Base(x) && kind != RequestRetry
    ensures Frame(x, NewTimer(x, kind, obj, part), {}, {})
  {
    hide TableOk, IndexOk, CacheOk, BoundsOk, ClockOk, TimersOk;
  }

  lemma ArmFrame(x: Xtr, t: Timer, duration: int)
    ensures Frame(x, ArmTimer(x, t, duration), {t}, {})
  {}

  lemma IssueFrame(x: Xtr, t: Timer, n: Nonce)
    requires Base(x) && HasList(x.reg, t) && n !in x.used
    ensures Frame(x, IssueNonce(x, t, n), {t}, {})
  {
    hide TableOk, IndexOk, CacheOk, BoundsOk, ClockOk, TimersOk, Allocated;
  }

  lemma ForgetFrame(x: Xtr, t: Timer)
    requires Base(x) && HasList(x.reg, t)
    ensures Frame(x, ForgetNonces(x, t), {t}, {})
  {
    hide TableOk, IndexOk, CacheOk, BoundsOk, ClockOk, TimersOk, Allocated;
  }

  lemma PurgeFrame(x: Xtr, r': Registry, ts: set<Timer>, touched: set<Timer>)
    requires Base(x) && r' == Purge(x.reg, ts).(index := r'.index)
    requires forall t :: t in ts && IsKind(x.reg.timers, t, RequestRetry) ==> t in touched
    ensures Frame(x, x.(reg := r'), touched, {})
  {
    hide TableOk, IndexOk, CacheOk, BoundsOk, ClockOk, TimersOk, Allocated;
  }

  lemma LocsFrame(x: Xtr, m: Obj, locs: seq<Loc>, room: nat)
    requires m in x.entries
    ensures Frame(x, x.(entries := x.entries[m := x.entries[m].(locs := locs)], heap := x.heap + room), {}, {})
  {}

  lemma RemoveEntryFrame(x: Xtr, m: Obj, ending: Ending)
    requires Base(x) && m in x.entries
    ensures x.entries[m].eid in x.cache ==>
              Frame(x, RemoveEntry(x, m, ending), {}, {x.cache[x.entries[m].eid]})
    ensures x.entries[m].eid !in x.cache ==> RemoveEntry(x, m, ending) == x
  {
    hide Base;
    if x.entries[m].eid in x.cache {
      var d := x.cache[x.entries[m].eid];
      BaseFacts(x);
      PurgedFrame(x.reg, d);
    }
  }

  lemma PurgedFrame(r: Registry, d: Obj)
    requires Inv(r)
    ensures var r' := StopAll(r, d);
            && (forall n :: n in r'.table ==> n in r.table)
            && (forall t :: t in r.timers && r.timers[t].obj != d ==> SameTimer(r, r', t))
            && (forall t :: t in r'.timers ==> t in r.timers && r'.timers[t] == r.timers[t] && r.timers[t].obj != d)
  {
    hide TableOk;
  }

  // ---------- the frame of larger steps ----------

  lemma {:induction false} ProbeLocatorsFrame(x: Xtr, m: Obj, locs: seq<Loc>)
    requires Base(x) && m in x.entries
    ensures Frame(x, ProbeLocators(x, m, locs), {}, {})
    decreases |locs|
  {
    hide Base, Frame, ProbeLocator;
    if locs == [] {
      FrameSelf(x);
    } else {
      var y := ProbeLocator(x, m, locs[0].id);
      ProbeLocatorFrame(x, m, locs[0].id);
      ProbeLocatorBase(x, m, locs[0].id);
      ProbeLocatorsFrame(y, m, locs[1..]);
      FrameThen(x, y, ProbeLocators(y, m, locs[1..]), {}, {});
    }
  }

  lemma FrameSelf(x: Xtr)
    ensures Frame(x, x, {}, {})
  {}

  /** A timer just created is nobody's request timer. */
  lemma NewArmedFrame(x: Xtr, kind: Kind, obj: Obj, part: int, duration: int)
    requires Base(x) && kind != RequestRetry
    ensures Frame(x, ArmTimer(NewTimer(x, kind, obj, part), x.heap, duration), {}, {})
  {
    hide TableOk, IndexOk, CacheOk, BoundsOk, ClockOk, TimersOk;
  }

  lemma ProbeLocatorFrame(x: Xtr, m: Obj, id: int)
    requires Base(x) && m in x.entries
    ensures Frame(x, ProbeLocator(x, m, id), {}, {})
    ensures ProbeLocator(x, m, id).entries == x.entries
  {
    hide Base, Frame;
    NewArmedFrame(x, Probing, m, id, x.cfg.probeInterval);
  }

  lemma StopKindFrame(x: Xtr, m: Obj)
    requires Base(x)
    ensures Frame(x, x.(reg := StopKind(x.reg, m, Probing)), {}, {})
  {
    hide Base, Frame;
    PurgeFrame(x, StopKind(x.reg, m, Probing), OfKind(x.reg, m, Probing), {});
  }

  lemma ProgramProbingFrame(x: Xtr, m: Obj)
    requires Base(x) && m in x.entries
    ensures Frame(x, ProgramProbing(x, m), {}, {})
  {
    hide Base, Frame, StopKind, ProbeLocators;
    FrameSelf(x);
    var y := x.(reg := StopKind(x.reg, m, Probing));
    StopKindFrame(x, m);
    StopKindBase(x, m, Probing);
    ProbeLocatorsFrame(y, m, x.entries[m].locs);
    FrameThen(x, y, ProbeLocators(y, m, x.entries[m].locs), {}, {});
  }

  lemma StartExpiryFrame(x: Xtr, m: Obj)
    requires Base(x) && m in x.entries
    ensures Frame(x, StartExpiry(x, m), {}, {}) && StartExpiry(x, m).entries == x.entries
  {
    hide Base, Frame;
    NewArmedFrame(x, Expiry, m, 0, x.entries[m].ttl * 60);
  }

  /** An entry refreshed: expiry timer and probing. */
  lemma RefreshFrame(x: Xtr, m: Obj)
    requires Base(x) && m in x.entries
    ensures StartExpiry(x, m).entries == x.entries
    ensures Frame(x, ProgramProbing(StartExpiry(x, m), m), {}, {})
  {
    hide Base, Frame, StartExpiry, ProgramProbing;
    StartExpiryFrame(x, m);
    StartExpiryBase(x, m);
    ProgramProbingFrame(StartExpiry(x, m), m);
    FrameThen(x, StartExpiry(x, m), ProgramProbing(StartExpiry(x, m), m), {}, {});
  }

  lemma NewEntryFrame(x: Xtr, e: Entry, cache: map<Eid, Obj>, room: nat)
    requires Base(x)
    ensures Frame(x, x.(entries := x.entries[x.heap := e], cache := cache, heap := x.heap + 1 + room), {}, {})
  {
    hide Inv, CacheOk, BoundsOk, ClockOk, TimersOk;
  }

  lemma AddMappingFrame(x: Xtr, rec: Record)
    requires Base(x)
    ensures Frame(x, AddMapping(x, rec), {}, {})
  {
    hide Base, Frame, StartExpiry, ProgramProbing;
    var m := x.heap;
    var e := Entry(rec.eid, true, rec.ttl, MakeLocs(rec.addrs, m + 1));
    var cache := if rec.eid in x.cache then x.cache else x.cache[rec.eid := m];
    var y := x.(entries := x.entries[m := e], cache := cache, heap := x.heap + 1 + |rec.addrs|);
    NewEntryFrame(x, e, cache, |rec.addrs|);
    NewEntryBase(x, e, |rec.addrs|);
    RefreshFrame(y, m);
    FrameThen(x, y, ProgramProbing(StartExpiry(y, m), m), {}, {});
  }

  lemma {:induction false} AddMappingsFrame(x: Xtr, recs: seq<Record>)
    requires Base(x)
    ensures Frame(x, AddMappings(x, recs), {}, {})
    decreases |recs|
  {
    hide Base, Frame, AddMapping;
    if recs == [] {
      FrameSelf(x);
    } else {
      var y := AddMapping(x, recs[0]);
      AddMappingFrame(x, recs[0]);
      AddMappingBase(x, recs[0]);
      AddMappingsFrame(y, recs[1..]);
      FrameThen(x, y, AddMappings(y, recs[1..]), {}, {});
    }
  }

  lemma UpdateMappingFrame(x: Xtr, rec: Record)
    requires Base(x)
    ensures forall e :: e in x.cache ==> x.cache[e] in x.entries
    ensures Frame(x, UpdateMapping(x, rec), {}, {})
  {
    hide Base, Frame, StartExpiry, ProgramProbing;
    BaseFacts(x);
    if rec.eid in x.cache {
      RefreshedFrame(x, x.cache[rec.eid], MakeLocs(rec.addrs, x.heap), |rec.addrs|);
    } else {
      FrameSelf(x);
    }
  }

  /** An entry given other locators and then refreshed. */
  lemma RefreshedFrame(x: Xtr, m: Obj, locs: seq<Loc>, room: nat)
    requires Base(x) && m in x.entries && (forall i :: 0 <= i < |locs| ==> locs[i].id < x.heap + room)
    ensures var y := x.(entries := x.entries[m := x.entries[m].(locs := locs)], heap := x.heap + room);
            StartExpiry(y, m).entries == y.entries && Frame(x, ProgramProbing(StartExpiry(y, m), m), {}, {})
  {
    hide Base, Frame, StartExpiry, ProgramProbing;
    var y := x.(entries := x.entries[m := x.entries[m].(locs := locs)], heap := x.heap + room);
    LocsFrame(x, m, locs, room);
    ReplaceLocsBase(x, m, locs, room);
    RefreshFrame(y, m);
    FrameThen(x, y, ProgramProbing(StartExpiry(y, m), m), {}, {});
  }

  lemma MarkLocatorFrame(x: Xtr, m: Obj, id: int, up: bool)
    requires m in x.entries
    ensures Frame(x, MarkLocator(x, m, id, up), {}, {})
  {
    hide Frame, SetUp;
    LocsFrame(x, m, SetUp(x.entries[m].locs, id, up), 0);
  }

  lemma ProbeAnsweredFrame(x: Xtr, m: Obj, addr: int)
    requires Base(x) && m in x.entries
    ensures Frame(x, ProbeAnswered(x, m, addr), {}, {})
  {
    hide Base, Frame, ProbeLocator, MarkLocator;
    match FindByAddr(x.entries[m].locs, addr)
    case None => FrameSelf(x);
    case Some(id) =>
      var y := MarkLocator(x, m, id, true);
      MarkLocatorFrame(x, m, id, true);
      MarkLocatorShape(x, m, id, true);
      MarkLocatorBase(x, m, id, true);
      ProbeLocatorFrame(y, m, id);
      FrameThen(x, y, ProbeLocator(y, m, id), {}, {});
  }

  /** Another request of timer t, for its own miss or for none. */
  lemma ResendFrame(x: Xtr, t: Timer, n: Nonce, duration: int)
    requires Base(x) && HasList(x.reg, t) && n !in x.used
    requires |NoncesOf(x.reg, t)| < Limit(x.cfg, x.reg.timers[t].kind)
    ensures Frame(x, ArmTimer(IssueNonce(x, t, n), t, duration), {t}, {})
  {
    hide Base, Frame, IssueNonce, ArmTimer;
    IssueFrame(x, t, n);
    ArmFrame(IssueNonce(x, t, n), t, duration);
    FrameThen(x, IssueNonce(x, t, n), ArmTimer(IssueNonce(x, t, n), t, duration), {t}, {});
  }

  lemma ProbeLimit(cfg: Config, k: nat)
    ensures k - 1 < cfg.probeRetries <==> k < Limit(cfg, Probing)
  {}

  lemma ProbeCallbackFrame(x: Xtr, t: Timer, n: Nonce, sent: bool)
    requires Base(x) && HasList(x.reg, t) && x.reg.timers[t].kind == Probing && n !in x.used
    ensures x.reg.timers[t].obj in x.entries
    ensures Frame(x, ProbeCallback(x, t, n, sent), {t}, {})
  {
    hide Base, Frame, Inv, MarkLocator, IssueNonce, ForgetNonces, ArmTimer, IsUp, Limit;
    BaseFacts(x);
    FrameSelf(x);
    FrameWiden(x, x, {}, {}, {t});
    var m, id := x.reg.timers[t].obj, x.reg.timers[t].part;
    if |NoncesOf(x.reg, t)| - 1 < x.cfg.probeRetries {
      ProbeLimit(x.cfg, |NoncesOf(x.reg, t)|);
      ResendFrame(x, t, n, x.cfg.probeRetryInterval);
    } else {
      MarkLocatorFrame(x, m, id, false);
      MarkLocatorShape(x, m, id, false);
      MarkLocatorBase(x, m, id, false);
      FrameWiden(x, MarkLocator(x, m, id, false), {}, {}, {t});
      var y := if IsUp(x.entries[m].locs, id) then MarkLocator(x, m, id, false) else x;
      var z := ForgetNonces(y, t);
      ForgetFrame(y, t);
      ArmFrame(z, t, x.cfg.probeInterval);
      FrameThen(x, y, z, {t}, {});
      FrameThen(x, z, ArmTimer(z, t, x.cfg.probeInterval), {t}, {});
    }
  }

  // ---------- misses through every step ----------

  lemma FrameKeepsMisses(x: Xtr, y: Xtr, ts: set<Timer>, gone: set<Obj>)
    requires Base(x) && MissesOk(x) && Frame(x, y, ts, gone)
    requires forall m :: m in x.misses && x.misses[m].ending == Open ==> m !in gone && x.misses[m].timer !in ts
    ensures MissesOk(y)
  {
    hide Base, MissOk;
    BaseFacts(x);
    forall m | m in x.misses
      ensures m in y.misses && y.misses[m] == x.misses[m] && MissOk(y, m)
    {
      FrameKeepsMiss(x, y, ts, gone, m);
    }
    assert forall t :: IsKind(y.reg.timers, t, RequestRetry) ==> IsKind(x.reg.timers, t, RequestRetry);
  }

  /** The removed entry's miss is over, its nonces are rejected, and no other miss notices. */
  lemma RemoveKeepsMisses(x: Xtr, m: Obj, ending: Ending)
    requires Base(x) && m in x.entries && ending != Open && !ending.Silenced?
    requires x.entries[m].eid in x.cache
    requires var d := x.cache[x.entries[m].eid];
             && OthersOk(x, d)
             && (d in x.misses ==>
                   && (ending.TimedOut? ==> AtDeadline(x, d) && |x.misses[d].sends| == Limit(x.cfg, RequestRetry)
                                            && ending.tick == x.now)
                   && (!ending.TimedOut? ==> MissOk(x, d)))
    ensures MissesOk(RemoveEntry(x, m, ending))
  {
    hide Base, MissOk, RemoveEntry, Frame, AtDeadline, Settle;
    var d := x.cache[x.entries[m].eid];
    var y := RemoveEntry(x, m, ending);
    RemoveEntryFrame(x, m, ending);
    RemoveEntryShape(x, m, ending);
    FrameKeys(x, y, {}, {d});
    BaseFacts(x);
    forall k | k in y.misses
      ensures MissOk(y, k)
    {
      if k == d {
        EndsMiss(x, y, d, ending);
      } else {
        FrameKeepsMiss(x, y, {}, {d}, k);
      }
    }
    FrameKeepsRetryTimers(x, y, {}, {d});
  }

  lemma FrameKeys(x: Xtr, y: Xtr, ts: set<Timer>, gone: set<Obj>)
    requires Frame(x, y, ts, gone)
    ensures y.misses.Keys == x.misses.Keys && y.cfg == x.cfg && x.heap <= y.heap
    ensures forall n :: n in y.reg.table ==> n in x.reg.table || n !in x.used
  {}

  lemma FrameKeepsRetryTimers(x: Xtr, y: Xtr, ts: set<Timer>, gone: set<Obj>)
    requires Frame(x, y, ts, gone) && RetryTimersOk(x.reg.timers, x.misses)
    requires forall t :: t in ts ==> !IsKind(y.reg.timers, t, RequestRetry)
    ensures RetryTimersOk(y.reg.timers, y.misses)
  {
    forall t | t in y.reg.timers && y.reg.timers[t].kind == RequestRetry
      ensures var m := y.reg.timers[t].obj; m in y.misses && y.misses[m].timer == t && y.misses[m].ending == Open
    {
      assert IsKind(y.reg.timers, t, RequestRetry);
    }
  }

  lemma RemoveEntryShape(x: Xtr, m: Obj, ending: Ending)
    requires Base(x) && m in x.entries && x.entries[m].eid in x.cache
    ensures var d := x.cache[x.entries[m].eid];
            var y := RemoveEntry(x, m, ending);
            && d in x.entries && d !in y.entries && y.misses == Settle(x.misses, d, ending)
            && y.now == x.now && y.used == x.used
            && (forall t, n :: HasList(x.reg, t) && x.reg.timers[t].obj == d && n in NoncesOf(x.reg, t)
                  ==> n !in y.reg.table)
  {
    hide CacheOk, BoundsOk, ClockOk, TimersOk, Allocated;
    BaseFacts(x);
    var d := x.cache[x.entries[m].eid];
    forall t, n | HasList(x.reg, t) && x.reg.timers[t].obj == d && n in NoncesOf(x.reg, t)
      ensures n !in RemoveEntry(x, m, ending).reg.table
    {
      var l := x.reg.timers[t].nonces.value;
      assert l in x.reg.lists && n in x.reg.lists[l].nonces && x.reg.table[n] == l;
      assert t in TimersOf(x.reg, d);
    }
  }

  lemma EndsMiss(x: Xtr, y: Xtr, d: Obj, ending: Ending)
    requires d in x.misses && d in x.entries && d !in y.entries && ending != Open && !ending.Silenced?
    requires y.misses == Settle(x.misses, d, ending) && y.cfg == x.cfg && y.used == x.used
    requires if ending.TimedOut?
             then AtDeadline(x, d) && |x.misses[d].sends| == Limit(x.cfg, RequestRetry) && ending.tick == x.now
             else MissOk(x, d)
    requires forall t, n :: HasList(x.reg, t) && x.reg.timers[t].obj == d && n in NoncesOf(x.reg, t)
               ==> n !in y.reg.table
    requires forall n :: n in y.reg.table ==> n in x.reg.table || n !in x.used
    ensures d in y.misses && MissOk(y, d)
  {
    if x.misses[d].ending == Open { assert Waiting(x, d, x.misses[d]); }
  }

  /** The callback of a request timer: the next request goes out on time, or the miss times out. */
  lemma RequestCallbackKeeps(x: Xtr, t: Timer, n: Nonce, sent: bool)
    requires Base(x) && HasList(x.reg, t) && x.reg.timers[t].kind == RequestRetry && n !in x.used
    requires x.reg.timers[t].obj in x.misses && x.reg.timers[t].obj in x.entries
    requires OthersOk(x, x.reg.timers[t].obj) && AtDeadline(x, x.reg.timers[t].obj)
    ensures MissesOk(RetryCallback(x, t, x.cfg.requestRetries, MRQ_TIMEOUT, n, sent))
  {
    hide Base, MissOk, OthersOk, RemoveEntry, AtDeadline, LogSend, LogStall;
    var m := x.reg.timers[t].obj;
    MissTimer(x, t);
    RequestLimit(x.cfg, |NoncesOf(x.reg, t)|);
    if |NoncesOf(x.reg, t)| < Limit(x.cfg, RequestRetry) {
      if sent {
        RequestSent(x, t, n);
      } else {
        RequestStalled(x, t);
      }
    } else {
      PlaceholderCached(x, m);
      AtDeadlineFull(x, m);
      RemoveKeepsMisses(x, m, TimedOut(x.now));
    }
  }

  lemma MissTimer(x: Xtr, t: Timer)
    requires t in x.reg.timers && x.reg.timers[t].kind == RequestRetry
    requires x.reg.timers[t].obj in x.misses && OthersOk(x, x.reg.timers[t].obj)
    ensures x.misses[x.reg.timers[t].obj].timer == t
  {}

  lemma RequestLimit(cfg: Config, k: nat)
    ensures k - 1 < cfg.requestRetries <==> k < Limit(cfg, RequestRetry)
  {}

  lemma PlaceholderCached(x: Xtr, m: Obj)
    requires Base(x) && m in x.misses && AtDeadline(x, m)
    ensures m in x.entries && x.entries[m].eid in x.cache && x.cache[x.entries[m].eid] == m
  {}

  lemma AtDeadlineFull(x: Xtr, m: Obj)
    requires m in x.misses && AtDeadline(x, m)
    ensures HasList(x.reg, x.misses[m].timer)
    ensures |NoncesOf(x.reg, x.misses[m].timer)| >= Limit(x.cfg, RequestRetry) ==>
              |x.misses[m].sends| == Limit(x.cfg, RequestRetry)
  {}

  lemma RequestSent(x: Xtr, t: Timer, n: Nonce)
    requires Base(x) && HasList(x.reg, t) && x.reg.timers[t].kind == RequestRetry && n !in x.used
    requires var m := x.reg.timers[t].obj;
             m in x.misses && OthersOk(x, m) && AtDeadline(x, m) && x.misses[m].timer == t
    requires |NoncesOf(x.reg, t)| < Limit(x.cfg, RequestRetry)
    ensures var m := x.reg.timers[t].obj;
            var z := x.(misses := LogSend(x.misses, m, t, n, x.now));
            MissesOk(ArmTimer(IssueNonce(z, t, n), t, MRQ_TIMEOUT))
  {
    hide Base, MissOk, AtDeadline, Frame;
    var m := x.reg.timers[t].obj;
    var z := x.(misses := LogSend(x.misses, m, t, n, x.now));
    var y := ArmTimer(IssueNonce(z, t, n), t, MRQ_TIMEOUT);
    var y0 := ArmTimer(IssueNonce(x, t, n), t, MRQ_TIMEOUT);
    ResendFrame(x, t, n, MRQ_TIMEOUT);
    OpenMiss(x, m);
    assert y == y0.(misses := z.misses);
    BaseFacts(x);
    forall k | k in y.misses && k != m
      ensures MissOk(y, k)
    {
      NotItsTimer(x, t, k);
      FrameKeepsMiss(x, y0, {t}, {}, k);
      SameMiss(y0, y, k);
    }
    SentMiss(x, t, n);
  }

  lemma OpenMiss(x: Xtr, m: Obj)
    requires m in x.misses && AtDeadline(x, m)
    ensures x.misses[m].ending == Open
  {}

  /** Two misses never share a timer. */
  lemma NotItsTimer(x: Xtr, t: Timer, k: Obj)
    requires t in x.reg.timers && k in x.misses && k != x.reg.timers[t].obj && MissOk(x, k)
    ensures x.misses[k].ending == Open ==> x.misses[k].timer != t
  {}

  lemma SameMiss(x: Xtr, y: Xtr, k: Obj)
    requires k in x.misses && MissOk(x, k) && k in y.misses && y.misses[k] == x.misses[k]
    requires y == x.(misses := y.misses)
    ensures MissOk(y, k)
  {}

  lemma SentMiss(x: Xtr, t: Timer, n: Nonce)
    requires HasList(x.reg, t)
    requires var m := x.reg.timers[t].obj; m in x.misses && AtDeadline(x, m) && x.misses[m].timer == t
    requires |NoncesOf(x.reg, t)| < Limit(x.cfg, RequestRetry)
    ensures var m := x.reg.timers[t].obj;
            var z := x.(misses := LogSend(x.misses, m, t, n, x.now));
            var y := ArmTimer(IssueNonce(z, t, n), t, MRQ_TIMEOUT);
            m in y.misses && MissOk(y, m)
  {
    hide Limit;
  }

  lemma RequestStalled(x: Xtr, t: Timer)
    requires t in x.reg.timers && x.reg.timers[t].kind == RequestRetry
    requires var m := x.reg.timers[t].obj;
             m in x.misses && OthersOk(x, m) && AtDeadline(x, m) && x.misses[m].timer == t
    ensures MissesOk(x.(misses := LogStall(x.misses, x.reg.timers[t].obj, t)))
  {
    var m := x.reg.timers[t].obj;
    var y := x.(misses := LogStall(x.misses, m, t));
    forall k | k in y.misses && k != m
      ensures MissOk(y, k)
    {
      SameMiss(x, y, k);
    }
    assert MissOk(y, m);
  }

}
