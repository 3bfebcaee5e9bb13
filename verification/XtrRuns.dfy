/**
  Whole runs of the tunnel router. Ticks, timer callbacks, packets that miss the cache, solicited
  requests and replies come in any order the event loop allows: the timers of a tick are
  delivered before anything else, and every one due is delivered before the tick is over.
 */
module XtrRuns {
  import opened Options
  import opened RegistrySpec
  import opened XtrSpec
  import opened XtrInvariant
  import opened XtrMisses

  datatype Event =
    | BeginTick
    | Fire(t: Timer, n: Nonce, sent: bool)
    | EndTick
    | Missed(eid: Eid, n: Nonce, sent: bool)
    | Solicited(m: Obj, n: Nonce, sent: bool)
    | Reply(n: Nonce, recs: seq<Record>, complete: bool)
    | Probed(n: Nonce, rec: Option<Record>, addr: int)

  ghost predicate Good(x: Xtr) {
    Base(x) && MissesOk(x)
  }

  /**
    nonce_new does not repeat itself. Of replies, only those are left out that have a timer stopped
    twice or stopped under an entry that is not its own; XtrMismatch says exactly which these are.
   */
  ghost predicate Enabled(x: Xtr, e: Event)
    requires Good(x)
  {
    BaseFacts(x);
    match e
    case BeginTick => !x.ticking
    case Fire(t, n, _) => x.ticking && t in x.reg.alarms && x.reg.alarms[t] == x.now && n !in x.used
    case EndTick => x.ticking && forall t :: t in x.reg.alarms ==> x.reg.alarms[t] != x.now
    case Missed(eid, n, _) => !x.ticking && eid !in x.cache && n !in x.used
    case Solicited(m, n, _) => !x.ticking && m in x.cache.Values && n !in x.used
    case Reply(n, recs, _) => !x.ticking && SafeReply(x, n, recs)
    case Probed(n, rec, _) => !x.ticking && (rec.Some? ==> OwnEntry(x, n, rec.value.eid))
  }

  /** The wheel takes the timer off its spoke, then the callback runs. */
  ghost function Expired(x: Xtr, t: Timer): Xtr {
    x.(reg := Disarm(x.reg, t))
  }

  ghost function Step(x: Xtr, e: Event): Xtr
    requires Good(x) && Enabled(x, e)
  {
    BaseFacts(x);
    match e
    case BeginTick => x.(now := x.now + 1, ticking := true)
    case Fire(t, n, sent) => FireReady(x, t); Callback(Expired(x, t), t, n, sent)
    case EndTick => x.(ticking := false)
    case Missed(eid, n, sent) => CacheMiss(x, eid, n, sent)
    case Solicited(m, n, sent) => SolicitedRequest(x, m, n, sent)
    case Reply(n, recs, complete) => MapReply(x, n, recs, complete).0
    case Probed(n, rec, addr) => ProbeReply(x, n, rec, addr).0
  }

  lemma FireReady(x: Xtr, t: Timer)
    requires Base(x) && t in x.reg.alarms
    ensures Base(Expired(x, t)) && CallbackReady(Expired(x, t), t)
  {
    ExpiredBase(x, t);
    hide Base;
    TimerListed(x, t);
    ReadyToFire(Expired(x, t), t);
  }

  lemma ExpiredBase(x: Xtr, t: Timer)
    requires Base(x) && t in x.reg.alarms
    ensures Base(Expired(x, t))
  {
    hide TableOk, ListsOk, IndexOk, Allocated, TimersOk, CacheOk, BoundsOk;
  }

  lemma TimerListed(x: Xtr, t: Timer)
    requires Base(x) && t in x.reg.alarms
    ensures t in x.reg.timers
  {}

  // ---------- every event keeps the invariant ----------

  lemma StepBase(x: Xtr, e: Event)
    requires Good(x) && Enabled(x, e)
    ensures Base(Step(x, e))
  {
    hide Base, MissesOk, SafeReply, OwnEntry, Callback, CacheMiss, SolicitedRequest, MapReply, ProbeReply;
    BaseFacts(x);
    match e {
      case BeginTick => ClockBase(x, true);
      case EndTick => ClockBase(x, false);
      case Fire(t, n, sent) =>
        FireReady(x, t);
        TimerListed(x, t);
        CallbackBase(Expired(x, t), t, n, sent);
      case Missed(eid, n, sent) => CacheMissBase(x, eid, n, sent);
      case Solicited(m, n, sent) => SolicitedRequestBase(x, m, n, sent);
      case Reply(n, recs, complete) => MapReplyBase(x, n, recs, complete);
      case Probed(n, rec, addr) => ProbeReplyBase(x, n, rec, addr);
    }
  }

  lemma ClockBase(x: Xtr, ticking: bool)
    requires Base(x) && ticking != x.ticking
    requires !ticking ==> forall t :: t in x.reg.alarms ==> x.reg.alarms[t] != x.now
    ensures Base(x.(now := if ticking then x.now + 1 else x.now, ticking := ticking))
  {
    hide Inv, Allocated, TimersOk, CacheOk, BoundsOk;
  }

  lemma ClockMisses(x: Xtr, now: nat, ticking: bool)
    requires MissesOk(x)
    ensures MissesOk(x.(now := now, ticking := ticking))
  {
    var y := x.(now := now, ticking := ticking);
    forall m | m in y.misses ensures MissOk(y, m) { assert MissOk(x, m); }
  }

  /** A step that removes no entry and concerns no request timer. */
  lemma QuietMisses(x: Xtr, y: Xtr, ts: set<Timer>)
    requires Good(x) && Frame(x, y, ts, {})
    requires forall t :: t in ts ==> !IsKind(x.reg.timers, t, RequestRetry)
    ensures MissesOk(y)
  {
    hide Base, Frame;
    forall m | m in x.misses && x.misses[m].ending == Open
      ensures m !in {} && x.misses[m].timer !in ts
    {
      assert MissOk(x, m);
      assert IsKind(x.reg.timers, x.misses[m].timer, RequestRetry);
    }
    FrameKeepsMisses(x, y, ts, {});
  }

  lemma RemovalMisses(x: Xtr, m: Obj, ending: Ending)
    requires Good(x) && m in x.entries && (ending.Displaced? || ending.Answered?)
    ensures MissesOk(RemoveEntry(x, m, ending))
  {
    hide Base, RemoveEntry, MissOk;
    if x.entries[m].eid in x.cache {
      RemoveKeepsMisses(x, m, ending);
    } else {
      RemoveEntryFrame(x, m, ending);
    }
  }

  /** The callback of a solicited request's timer. */
  lemma SolicitedCallbackMisses(x: Xtr, t: Timer, n: Nonce, sent: bool)
    requires Good(x) && HasList(x.reg, t) && x.reg.timers[t].kind == SmrRetry && n !in x.used
    ensures x.reg.timers[t].obj in x.entries
    ensures MissesOk(RetryCallback(x, t, MAX_SMR_RETRANSMIT, SMR_TIMEOUT, n, sent))
  {
    hide Base, MissesOk, RemoveEntry, IssueNonce, ArmTimer;
    BaseFacts(x);
    var m := x.reg.timers[t].obj;
    NotLogged(x, t);
    if |NoncesOf(x.reg, t)| - 1 < MAX_SMR_RETRANSMIT {
      ResendFrame(x, t, n, SMR_TIMEOUT);
      QuietMisses(x, ArmTimer(IssueNonce(x, t, n), t, SMR_TIMEOUT), {t});
      assert x.(misses := x.misses) == x;
    } else {
      RemovalMisses(x, m, Displaced(x.now));
    }
  }

  lemma NotLogged(x: Xtr, t: Timer)
    requires MissesOk(x) && t in x.reg.timers && x.reg.timers[t].kind != RequestRetry
    ensures LogStall(x.misses, x.reg.timers[t].obj, t) == x.misses
    ensures forall n, now :: LogSend(x.misses, x.reg.timers[t].obj, t, n, now) == x.misses
  {
    var m := x.reg.timers[t].obj;
    if m in x.misses { assert MissOk(x, m); }
  }

  lemma CallbackMisses(x: Xtr, t: Timer, n: Nonce, sent: bool)
    requires Good(x) && Enabled(x, Fire(t, n, sent))
    ensures MissesOk(Step(x, Fire(t, n, sent)))
  {
    hide Base, MissesOk, RemoveEntry, RetryCallback, ProbeCallback;
    FireReady(x, t);
    TimerListed(x, t);
    var y := Expired(x, t);
    if x.reg.timers[t].kind == RequestRetry {
      AlarmOfMiss(x, t);
      BaseFacts(y);
      RequestCallbackKeeps(y, t, n, sent);
    } else {
      ExpiredFrame(x, t);
      QuietMisses(x, y, {t});
      match x.reg.timers[t].kind {
        case Expiry => RemovalMisses(y, y.reg.timers[t].obj, Displaced(y.now));
        case SmrRetry => SolicitedCallbackMisses(y, t, n, sent);
        case Probing =>
          ProbeCallbackFrame(y, t, n, sent);
          QuietMisses(y, ProbeCallback(y, t, n, sent), {t});
        case _ =>
      }
    }
  }

  lemma ExpiredFrame(x: Xtr, t: Timer)
    ensures Frame(x, Expired(x, t), {t}, {})
  {}

  /** The alarm of a request timer goes off exactly at the deadline of its miss. */
  lemma AlarmOfMiss(x: Xtr, t: Timer)
    requires MissesOk(x) && t in x.reg.timers && x.reg.timers[t].kind == RequestRetry
    requires t in x.reg.alarms && x.reg.alarms[t] == x.now
    ensures var m, y := x.reg.timers[t].obj, Expired(x, t);
            m in y.misses && OthersOk(y, m) && AtDeadline(y, m)
  {
    var m, y := x.reg.timers[t].obj, Expired(x, t);
    assert MissOk(x, m);
    forall k | k in y.misses && k != m
      ensures MissOk(y, k)
    {
      assert MissOk(x, k);
      NotItsTimer(x, t, k);
    }
  }

  /** The first request of a miss goes out at once. */
  lemma CacheMissMisses(x: Xtr, eid: Eid, n: Nonce, sent: bool)
    requires Good(x) && eid !in x.cache && n !in x.used
    ensures MissesOk(CacheMiss(x, eid, n, sent))
  {
    hide Base, MissesOk, OthersOk, AtDeadline, RetryCallback;
    var m := x.heap;
    var y := x.(entries := x.entries[m := Entry(eid, false, 0, [])], cache := x.cache[eid := m], heap := m + 1);
    PlaceholderBase(x, eid);
    NewTimerBase(y, RequestRetry, m, 0);
    var z := NewTimer(y, RequestRetry, m, 0);
    var w := z.(misses := z.misses[m := Miss(x.now, m + 1, [], [], false, Open)]);
    BaseFacts(x);
    MissesBase(z, w.misses);
    NewMiss(x, eid);
    RequestCallbackKeeps(w, m + 1, n, sent);
  }

  lemma NewMiss(x: Xtr, eid: Eid)
    requires Good(x) && eid !in x.cache
    ensures var m := x.heap;
            var y := x.(entries := x.entries[m := Entry(eid, false, 0, [])], cache := x.cache[eid := m], heap := m + 1);
            var z := NewTimer(y, RequestRetry, m, 0);
            var w := z.(misses := z.misses[m := Miss(x.now, m + 1, [], [], false, Open)]);
            OthersOk(w, m) && m in w.misses && AtDeadline(w, m)
  {
    hide Base, MissOk, Waiting, Limit;
    BaseFacts(x);
    var m := x.heap;
    var y := x.(entries := x.entries[m := Entry(eid, false, 0, [])], cache := x.cache[eid := m], heap := m + 1);
    var z := NewTimer(y, RequestRetry, m, 0);
    var w := z.(misses := z.misses[m := Miss(x.now, m + 1, [], [], false, Open)]);
    forall k | k in w.misses && k != m
      ensures MissOk(w, k)
    {
      OldMissKept(x, eid, k);
    }
    NoTimerYet(x);
    assert Waiting(w, m, w.misses[m]) by { FreshWaits(x, eid); }
  }

  lemma NoTimerYet(x: Xtr)
    requires Base(x)
    ensures x.heap + 1 !in x.reg.timers && x.heap + 1 !in x.reg.alarms
  {}

  lemma FreshWaits(x: Xtr, eid: Eid)
    requires Good(x)
    ensures var m := x.heap;
            var y := x.(entries := x.entries[m := Entry(eid, false, 0, [])], cache := x.cache[eid := m], heap := m + 1);
            var z := NewTimer(y, RequestRetry, m, 0);
            var w := z.(misses := z.misses[m := Miss(x.now, m + 1, [], [], false, Open)]);
            Waiting(w, m, w.misses[m])
  {
    hide Base, MissesOk;
  }

  lemma OldMissKept(x: Xtr, eid: Eid, k: Obj)
    requires Good(x) && k in x.misses
    ensures var m := x.heap;
            var y := x.(entries := x.entries[m := Entry(eid, false, 0, [])], cache := x.cache[eid := m], heap := m + 1);
            var z := NewTimer(y, RequestRetry, m, 0);
            var w := z.(misses := z.misses[m := Miss(x.now, m + 1, [], [], false, Open)]);
            k != m && MissOk(w, k)
  {
    hide TableOk, IndexOk, CacheOk, BoundsOk, ClockOk, TimersOk, Limit;
    assert MissOk(x, k) && k < x.heap;
    if x.misses[k].ending == Open { assert x.misses[k].timer in x.reg.timers; }
  }

  lemma SolicitedMisses(x: Xtr, m: Obj, n: Nonce, sent: bool)
    requires Good(x) && m in x.entries && n !in x.used
    ensures MissesOk(SolicitedRequest(x, m, n, sent))
  {
    hide Base, MissesOk, RetryCallback, Frame;
    NewTimerFrame(x, SmrRetry, m, 0);
    NewTimerBase(x, SmrRetry, m, 0);
    QuietMisses(x, NewTimer(x, SmrRetry, m, 0), {});
    SolicitedCallbackMisses(NewTimer(x, SmrRetry, m, 0), x.heap, n, sent);
  }

  lemma MapReplyMisses(x: Xtr, n: Nonce, recs: seq<Record>, complete: bool)
    requires Good(x) && (BaseFacts(x); SafeReply(x, n, recs))
    ensures forall t :: t in x.reg.timers ==> x.reg.timers[t].obj in x.entries
    ensures forall e :: e in x.cache ==> x.cache[e] in x.entries
    ensures MissesOk(MapReply(x, n, recs, complete).0)
  {
    hide Base, Inv, MissesOk, RemoveEntry, AddMappings, UpdateMapping, StopOne, Survives;
    BaseFacts(x);
    if n in x.reg.table {
      var t := TimerOfNonce(x.reg, n);
      var m := x.reg.timers[t].obj;
      if !x.entries[m].active {
        var y := RemoveEntry(x, m, Answered(x.now));
        RemoveEntryBase(x, m, Answered(x.now));
        RemovalMisses(x, m, Answered(x.now));
        AddMappingsFrame(y, recs);
        QuietMisses(y, AddMappings(y, recs), {});
      } else if recs != [] {
        var y := UpdateMapping(x, recs[0]);
        UpdateMappingFrame(x, recs[0]);
        UpdateMappingBase(x, recs[0]);
        QuietMisses(x, y, {});
        UpdateKeepsTimer(x, recs[0], t);
        ActiveNotRetry(x, t);
        StopOneFrame(y, t);
        QuietMisses(y, y.(reg := StopOne(y.reg, m, t)), {t});
      }
    }
  }

  lemma ActiveNotRetry(x: Xtr, t: Timer)
    requires Base(x) && t in x.reg.timers
    ensures x.reg.timers[t].obj in x.entries
    ensures x.entries[x.reg.timers[t].obj].active ==> x.reg.timers[t].kind != RequestRetry
  {}

  lemma StopOneFrame(x: Xtr, t: Timer)
    requires Base(x) && t in x.reg.timers
    ensures Frame(x, x.(reg := StopOne(x.reg, x.reg.timers[t].obj, t)), {t}, {})
  {
    hide Base, Frame;
    PurgeFrame(x, StopOne(x.reg, x.reg.timers[t].obj, t), {t}, {t});
  }

  lemma ProbeReplyMisses(x: Xtr, n: Nonce, rec: Option<Record>, addr: int)
    requires Good(x)
    requires Inv(x.reg) && (rec.Some? ==> OwnEntry(x, n, rec.value.eid))
    ensures forall e :: e in x.cache ==> x.cache[e] in x.entries
    ensures MissesOk(ProbeReply(x, n, rec, addr).0)
  {
    hide Base, Inv, MissesOk, StopOne, ProbeAnswered, Silence;
    BaseFacts(x);
    if n in x.reg.table && rec.Some? && ProbedEntry(x, rec.value.eid).Some? {
      var t, m := TimerOfNonce(x.reg, n), ProbedEntry(x, rec.value.eid).value;
      var y := ProbeAnswered(x, m, addr);
      ProbeAnsweredFrame(x, m, addr);
      ProbeAnsweredBase(x, m, addr);
      ProbeAnsweredClock(x, m, addr);
      QuietMisses(x, y, {});
      ProbeAnsweredKeeps(x, m, addr, t);
      StopOneMisses(y, t);
    }
  }

  /** Stopping a timer silences the miss whose timer it is, and concerns no other. */
  lemma StopOneMisses(x: Xtr, t: Timer)
    requires Good(x) && t in x.reg.timers
    ensures var m := x.reg.timers[t].obj;
            MissesOk(x.(reg := StopOne(x.reg, m, t), misses := Silence(x.misses, m, t, x.now)))
  {
    hide Base, MissOk, StopOne, Frame;
    var m := x.reg.timers[t].obj;
    var y := x.(reg := StopOne(x.reg, m, t));
    var z := y.(misses := Silence(x.misses, m, t, x.now));
    StopOneFrame(x, t);
    BaseFacts(x);
    StopOneGone(x.reg, m, t);
    forall k | k in z.misses
      ensures MissOk(z, k)
    {
      if k == m && x.misses[m].timer == t && x.misses[m].ending == Open {
        SilencedOk(x, t);
      } else {
        if k != m { NotItsTimer(x, t, k); }
        FrameKeepsMiss(x, y, {t}, {}, k);
        SameMiss(y, z, k);
      }
    }
    assert RetryTimersOk(z.reg.timers, z.misses);
  }

  lemma StopOneGone(r: Registry, o: Obj, t: Timer)
    ensures StopOne(r, o, t).timers == r.timers - {t}
  {}

  lemma SilencedOk(x: Xtr, t: Timer)
    requires Base(x) && t in x.reg.timers
    requires var m := x.reg.timers[t].obj;
             m in x.misses && MissOk(x, m) && x.misses[m].timer == t && x.misses[m].ending == Open
    ensures var m := x.reg.timers[t].obj;
            var z := x.(reg := StopOne(x.reg, m, t), misses := Silence(x.misses, m, t, x.now));
            m in z.misses && MissOk(z, m)
  {
    hide Base, StopOne, Limit;
    var m := x.reg.timers[t].obj;
    BaseFacts(x);
    assert HasList(x.reg, t);
    forall k | k in NoncesOf(x.reg, t)
      ensures k !in StopOne(x.reg, m, t).table
    {
      StopOneRetires(x.reg, t, k);
    }
  }

  lemma StopOneRetires(r: Registry, t: Timer, k: Nonce)
    requires Inv(r) && HasList(r, t) && k in NoncesOf(r, t)
    ensures k !in StopOne(r, r.timers[t].obj, t).table
  {
    var l := r.timers[t].nonces.value;
    assert l in r.lists && k in r.lists[l].nonces && r.table[k] == l;
  }

  lemma StepGood(x: Xtr, e: Event)
    requires Good(x) && Enabled(x, e)
    ensures Good(Step(x, e))
  {
    hide Base, MissesOk, SafeReply, OwnEntry, Callback, CacheMiss, SolicitedRequest, MapReply, ProbeReply;
    StepBase(x, e);
    BaseFacts(x);
    match e {
      case BeginTick => ClockMisses(x, x.now + 1, true);
      case EndTick => ClockMisses(x, x.now, false);
      case Fire(t, n, sent) => CallbackMisses(x, t, n, sent);
      case Missed(eid, n, sent) => CacheMissMisses(x, eid, n, sent);
      case Solicited(m, n, sent) => SolicitedMisses(x, m, n, sent);
      case Reply(n, recs, complete) => MapReplyMisses(x, n, recs, complete);
      case Probed(n, rec, addr) => ProbeReplyMisses(x, n, rec, addr);
    }
  }
}
