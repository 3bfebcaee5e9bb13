/** What holds over every run of the tunnel router, from its start. */
module XtrTheorems {
  import opened Options
  import opened RegistrySpec
  import opened XtrSpec
  import opened XtrInvariant
  import opened XtrMisses
  import opened XtrRuns
  import WheelSpec

  /**
    The router before its proxy entry's locators are probed. The addresses below WHEEL_SIZE are the
    list heads of the timer wheel, so timers lie above.
   */
  function Bare(cfg: Config, eid: Eid, addrs: seq<(int, bool)>): Xtr {
    Xtr(cfg, Empty(), map[], map[0 := Entry(eid, true, 0, MakeLocs(addrs, 1))], 0, false,
        WheelSpec.WHEEL_SIZE + |addrs|, {}, map[])
  }

  /** The router as configured: no cache entry yet, the proxy entry with its locators probed. */
  function Start(cfg: Config, eid: Eid, addrs: seq<(int, bool)>): Xtr
    requires cfg.petrs == 0
  {
    ProgramProbing(Bare(cfg, eid, addrs), 0)
  }

  lemma BareGood(cfg: Config, eid: Eid, addrs: seq<(int, bool)>)
    requires cfg.petrs == 0
    ensures Good(Bare(cfg, eid, addrs))
  {}

  lemma StartGood(cfg: Config, eid: Eid, addrs: seq<(int, bool)>)
    requires cfg.petrs == 0
    ensures Good(Start(cfg, eid, addrs))
  {
    hide Base, MissesOk, ProgramProbing, Frame;
    var x := Bare(cfg, eid, addrs);
    BareGood(cfg, eid, addrs);
    ProgramProbingBase(x, 0);
    ProgramProbingFrame(x, 0);
    QuietMisses(x, ProgramProbing(x, 0), {});
  }

  ghost predicate RunOf(x: Xtr, es: seq<Event>, y: Xtr)
    requires Good(x)
    decreases |es|
  {
    if es == [] then y == x
    else Enabled(x, es[0]) && (StepGood(x, es[0]); RunOf(Step(x, es[0]), es[1..], y))
  }

  ghost predicate RunFrom(cfg: Config, eid: Eid, addrs: seq<(int, bool)>, es: seq<Event>, x: Xtr) {
    cfg.petrs == 0 && (StartGood(cfg, eid, addrs); RunOf(Start(cfg, eid, addrs), es, x))
  }

  ghost predicate Reachable(x: Xtr) {
    exists cfg, eid, addrs, es :: RunFrom(cfg, eid, addrs, es, x)
  }

  lemma {:induction false} RunGood(x: Xtr, es: seq<Event>, y: Xtr)
    requires Good(x) && RunOf(x, es, y)
    ensures Good(y)
    decreases |es|
  {
    hide Good, Enabled, Step;
    if es != [] {
      StepGood(x, es[0]);
      RunGood(Step(x, es[0]), es[1..], y);
    }
  }

  lemma RunOne(x: Xtr, e: Event)
    requires Good(x) && Enabled(x, e)
    ensures RunOf(x, [e], Step(x, e))
  {
    hide Good, Enabled, Step;
    StepGood(x, e);
    assert [e][1..] == [];
  }

  lemma {:induction false} RunThen(x: Xtr, es: seq<Event>, y: Xtr, fs: seq<Event>, z: Xtr)
    requires Good(x) && RunOf(x, es, y) && Good(y) && RunOf(y, fs, z)
    ensures RunOf(x, es + fs, z)
    decreases |es|
  {
    hide Good, Enabled, Step;
    if es == [] {
      assert es + fs == fs;
    } else {
      StepGood(x, es[0]);
      RunThen(Step(x, es[0]), es[1..], y, fs, z);
      assert (es + fs)[1..] == es[1..] + fs;
    }
  }

  lemma ReachableGood(x: Xtr)
    requires Reachable(x)
    ensures Good(x)
  {
    hide Good, Start;
    var cfg, eid, addrs, es :| RunFrom(cfg, eid, addrs, es, x);
    StartGood(cfg, eid, addrs);
    RunGood(Start(cfg, eid, addrs), es, x);
  }

  // ---------- cache misses ----------

  /**
    In every reachable state, every cache miss so far has sent its Map-Requests exactly two ticks
    apart and never more than one plus the retry limit; while it waits, exactly its nonces are
    outstanding; afterwards none of them is; one that timed out with every send succeeding sent
    exactly that many and ended two ticks after the last.
   */
  lemma MissSchedule(x: Xtr, m: Obj)
    requires Reachable(x) && m in x.misses
    ensures var h := x.misses[m];
            var most := Limit(x.cfg, RequestRetry);
            && |h.sends| == |h.nonces| <= most
            && (forall i :: 0 <= i < |h.sends| ==> h.sends[i] == h.start + 2 * i)
            && (h.ending == Open ==> HasList(x.reg, h.timer) && NoncesOf(x.reg, h.timer) == h.nonces)
            && (h.ending != Open ==> forall n :: n in h.nonces ==> n !in x.reg.table)
            && (h.ending.TimedOut? && !h.stalled ==> |h.sends| == most && h.ending.tick == h.start + 2 * most)
  {
    ReachableGood(x);
    assert MissOk(x, m);
    hide Base, Limit;
  }

  /**
    Once its time is up a miss is over: none of its nonces is left, nor, unless a probe reply has
    silenced it, its entry or any timer of it.
   */
  lemma MissOver(x: Xtr, m: Obj)
    requires Reachable(x) && m in x.misses && !x.misses[m].stalled && !x.ticking
    requires x.now >= x.misses[m].start + 2 * Limit(x.cfg, RequestRetry)
    ensures x.misses[m].ending != Open
    ensures !x.misses[m].ending.Silenced? ==>
              m !in x.entries && forall t :: t in x.reg.timers ==> x.reg.timers[t].obj != m
    ensures forall n :: n in x.misses[m].nonces ==> n !in x.reg.table
  {
    ReachableGood(x);
    assert MissOk(x, m);
    OpenNotOverdue(x, m);
    BaseFacts(x);
    hide Base, Limit;
  }

  lemma OpenNotOverdue(x: Xtr, m: Obj)
    requires Good(x) && m in x.misses && !x.misses[m].stalled && !x.ticking
    ensures x.misses[m].ending == Open ==> x.now < x.misses[m].start + 2 * Limit(x.cfg, RequestRetry)
  {
    assert MissOk(x, m);
    hide Inv, Allocated, TimersOk, CacheOk, BoundsOk, Limit;
  }

  // ---------- nonces ----------

  /** An answer with a nonce that is not outstanding changes nothing and is refused. */
  lemma UnknownNonceIgnored(x: Xtr, n: Nonce, recs: seq<Record>, complete: bool, rec: Option<Record>, addr: int)
    requires Good(x) && n !in x.reg.table
    ensures (BaseFacts(x); MapReply(x, n, recs, complete) == (x, false))
    ensures (BaseFacts(x); ProbeReply(x, n, rec, addr) == (x, false))
  {
    BaseFacts(x);
  }

  /** A nonce once issued and no longer outstanding. */
  ghost predicate Dead(x: Xtr, n: Nonce) {
    n in x.used && n !in x.reg.table
  }

  /** No step brings back a nonce that was issued before. */
  ghost predicate NoRevival(x: Xtr, y: Xtr) {
    x.used <= y.used && forall n :: n in y.reg.table ==> n in x.reg.table || n !in x.used
  }

  lemma FrameNoRevival(x: Xtr, y: Xtr, ts: set<Timer>, gone: set<Obj>)
    requires Frame(x, y, ts, gone)
    ensures NoRevival(x, y)
  {}

  lemma RemoveNoRevival(x: Xtr, m: Obj, ending: Ending)
    requires Base(x) && m in x.entries
    ensures NoRevival(x, RemoveEntry(x, m, ending))
  {
    hide Base, RemoveEntry, Frame, NoRevival;
    RemoveEntryFrame(x, m, ending);
    if x.entries[m].eid in x.cache {
      FrameNoRevival(x, RemoveEntry(x, m, ending), {}, {x.cache[x.entries[m].eid]});
    } else {
      FrameSelf(x);
      FrameNoRevival(x, x, {}, {});
    }
  }

  lemma RetryNoRevival(x: Xtr, t: Timer, limit: int, timeout: int, n: Nonce, sent: bool)
    requires Base(x) && HasList(x.reg, t) && n !in x.used
    ensures x.reg.timers[t].obj in x.entries
    ensures NoRevival(x, RetryCallback(x, t, limit, timeout, n, sent))
  {
    hide Base, RemoveEntry;
    BaseFacts(x);
    var m := x.reg.timers[t].obj;
    RemoveNoRevival(x, m, if x.reg.timers[t].kind == RequestRetry then TimedOut(x.now) else Displaced(x.now));
  }

  lemma StepNoRevival(x: Xtr, e: Event)
    requires Good(x) && Enabled(x, e)
    ensures NoRevival(x, Step(x, e))
  {
    hide Base, MissesOk, SafeReply, OwnEntry, RetryCallback, ProbeCallback, RemoveEntry, AddMappings,
      UpdateMapping, ProbeAnswered, StopOne, Frame;
    BaseFacts(x);
    match e {
      case BeginTick =>
      case EndTick =>
      case Fire(t, n, sent) =>
        FireReady(x, t);
        var y := Expired(x, t);
        match x.reg.timers[t].kind {
          case Expiry => RemoveNoRevival(y, y.reg.timers[t].obj, Displaced(y.now));
          case RequestRetry => RetryNoRevival(y, t, y.cfg.requestRetries, MRQ_TIMEOUT, n, sent);
          case SmrRetry => RetryNoRevival(y, t, MAX_SMR_RETRANSMIT, SMR_TIMEOUT, n, sent);
          case Probing =>
            ProbeCallbackFrame(y, t, n, sent);
            FrameNoRevival(y, ProbeCallback(y, t, n, sent), {t}, {});
          case _ =>
        }
      case Missed(eid, n, sent) => MissNoRevival(x, eid, n, sent);
      case Solicited(m, n, sent) =>
        NewTimerBase(x, SmrRetry, m, 0);
        RetryNoRevival(NewTimer(x, SmrRetry, m, 0), x.heap, MAX_SMR_RETRANSMIT, SMR_TIMEOUT, n, sent);
      case Reply(n, recs, complete) => ReplyNoRevival(x, n, recs, complete);
      case Probed(n, rec, addr) => ProbedNoRevival(x, n, rec, addr);
    }
  }

  lemma MissNoRevival(x: Xtr, eid: Eid, n: Nonce, sent: bool)
    requires Good(x) && eid !in x.cache && n !in x.used
    ensures NoRevival(x, CacheMiss(x, eid, n, sent))
  {
    hide Base, MissesOk, RetryCallback;
    var m := x.heap;
    var y := x.(entries := x.entries[m := Entry(eid, false, 0, [])], cache := x.cache[eid := m], heap := m + 1);
    PlaceholderBase(x, eid);
    NewTimerBase(y, RequestRetry, m, 0);
    var z := NewTimer(y, RequestRetry, m, 0);
    var w := z.(misses := z.misses[m := Miss(x.now, m + 1, [], [], false, Open)]);
    BaseFacts(x);
    MissesBase(z, w.misses);
    RetryNoRevival(w, m + 1, x.cfg.requestRetries, MRQ_TIMEOUT, n, sent);
  }

  lemma ReplyNoRevival(x: Xtr, n: Nonce, recs: seq<Record>, complete: bool)
    requires Good(x) && (BaseFacts(x); SafeReply(x, n, recs))
    ensures forall t :: t in x.reg.timers ==> x.reg.timers[t].obj in x.entries
    ensures forall e :: e in x.cache ==> x.cache[e] in x.entries
    ensures NoRevival(x, MapReply(x, n, recs, complete).0)
  {
    hide Base, Inv, MissesOk, RemoveEntry, AddMappings, UpdateMapping, StopOne, Frame, Survives;
    BaseFacts(x);
    if n in x.reg.table {
      var t := TimerOfNonce(x.reg, n);
      var m := x.reg.timers[t].obj;
      if !x.entries[m].active {
        var y := RemoveEntry(x, m, Answered(x.now));
        RemoveEntryBase(x, m, Answered(x.now));
        RemoveNoRevival(x, m, Answered(x.now));
        AddMappingsFrame(y, recs);
        FrameNoRevival(y, AddMappings(y, recs), {}, {});
      } else if recs != [] {
        var y := UpdateMapping(x, recs[0]);
        UpdateMappingFrame(x, recs[0]);
        UpdateMappingBase(x, recs[0]);
        UpdateKeepsTimer(x, recs[0], t);
        StopOneFrame(y, t);
        FrameNoRevival(x, y, {}, {});
        FrameNoRevival(y, y.(reg := StopOne(y.reg, m, t)), {t}, {});
      }
    }
  }

  lemma ProbedNoRevival(x: Xtr, n: Nonce, rec: Option<Record>, addr: int)
    requires Good(x)
    requires Inv(x.reg) && (rec.Some? ==> OwnEntry(x, n, rec.value.eid))
    ensures forall e :: e in x.cache ==> x.cache[e] in x.entries
    ensures NoRevival(x, ProbeReply(x, n, rec, addr).0)
  {
    hide Base, Inv, MissesOk, StopOne, ProbeAnswered, Frame;
    BaseFacts(x);
    if n in x.reg.table && rec.Some? && ProbedEntry(x, rec.value.eid).Some? {
      var t, m := TimerOfNonce(x.reg, n), ProbedEntry(x, rec.value.eid).value;
      var y := ProbeAnswered(x, m, addr);
      ProbeAnsweredFrame(x, m, addr);
      ProbeAnsweredBase(x, m, addr);
      ProbeAnsweredKeeps(x, m, addr, t);
      StopOneFrame(y, t);
      FrameNoRevival(x, y, {}, {});
      FrameNoRevival(y, y.(reg := StopOne(y.reg, m, t)), {t}, {});
    }
  }

  /** A nonce that is no longer outstanding is not outstanding again in the rest of the run. */
  lemma {:induction false} DeadForever(x: Xtr, es: seq<Event>, y: Xtr, n: Nonce)
    requires Good(x) && RunOf(x, es, y) && Dead(x, n)
    ensures Dead(y, n)
    decreases |es|
  {
    hide Good, Enabled, Step;
    if es != [] {
      StepGood(x, es[0]);
      StepNoRevival(x, es[0]);
      DeadForever(Step(x, es[0]), es[1..], y, n);
    }
  }

  /** So in every continuation a reply of either kind that bears it changes nothing and is refused. */
  lemma RefusedForever(x: Xtr, es: seq<Event>, y: Xtr, n: Nonce, recs: seq<Record>, complete: bool,
                       rec: Option<Record>, addr: int)
    requires Good(x) && RunOf(x, es, y) && Dead(x, n)
    ensures Good(y) && (BaseFacts(y); MapReply(y, n, recs, complete) == (y, false))
    ensures (BaseFacts(y); ProbeReply(y, n, rec, addr) == (y, false))
  {
    hide Base, MissesOk, RunOf, MapReply, ProbeReply;
    RunGood(x, es, y);
    DeadForever(x, es, y, n);
    UnknownNonceIgnored(y, n, recs, complete, rec, addr);
  }

  /**
    Once a Map-Reply is processed to the end, every nonce of the request it answers, those of
    earlier retransmissions included, is refused in every continuation of the run.
   */
  lemma AnsweredForever(x: Xtr, n: Nonce, recs: seq<Record>, complete: bool, es: seq<Event>, y: Xtr, k: Nonce)
    requires Good(x) && Enabled(x, Reply(n, recs, complete))
    requires n in x.reg.table && (BaseFacts(x); MapReply(x, n, recs, complete).1)
    requires (BaseFacts(x); HasList(x.reg, TimerOfNonce(x.reg, n)) && k in NoncesOf(x.reg, TimerOfNonce(x.reg, n)))
    requires (StepGood(x, Reply(n, recs, complete)); RunOf(Step(x, Reply(n, recs, complete)), es, y))
    ensures Dead(y, k)
  {
    hide Good, Enabled, MapReply;
    StepGood(x, Reply(n, recs, complete));
    ReplyRetires(x, n, recs, complete, k);
    DeadForever(Step(x, Reply(n, recs, complete)), es, y, k);
  }

  lemma ReplyRetires(x: Xtr, n: Nonce, recs: seq<Record>, complete: bool, k: Nonce)
    requires Good(x) && Enabled(x, Reply(n, recs, complete))
    requires n in x.reg.table && (BaseFacts(x); MapReply(x, n, recs, complete).1)
    requires (BaseFacts(x); HasList(x.reg, TimerOfNonce(x.reg, n)) && k in NoncesOf(x.reg, TimerOfNonce(x.reg, n)))
    ensures Dead(Step(x, Reply(n, recs, complete)), k)
  {
    hide Base, Inv, MissesOk, RemoveEntry, AddMappings, UpdateMapping, StopOne, Frame, Survives;
    BaseFacts(x);
    ListedIsUsed(x, TimerOfNonce(x.reg, n), k);
    var t := TimerOfNonce(x.reg, n);
    var m := x.reg.timers[t].obj;
    if !x.entries[m].active {
      var y := RemoveEntry(x, m, Answered(x.now));
      RemoveEntryBase(x, m, Answered(x.now));
      InactiveCached(x, m);
      RemoveEntryShape(x, m, Answered(x.now));
      AddMappingsFrame(y, recs);
      FrameNoRevival(y, AddMappings(y, recs), {}, {});
    } else {
      var y := UpdateMapping(x, recs[0]);
      UpdateMappingFrame(x, recs[0]);
      UpdateMappingBase(x, recs[0]);
      UpdateKeepsTimer(x, recs[0], t);
      FrameNoRevival(x, y, {}, {});
      BaseFacts(y);
      StopOneRetires(y.reg, t, k);
    }
  }

  lemma InactiveCached(x: Xtr, m: Obj)
    requires Base(x) && m in x.entries && !x.entries[m].active
    ensures x.entries[m].eid in x.cache && x.cache[x.entries[m].eid] == m
  {}

  lemma ListedIsUsed(x: Xtr, t: Timer, k: Nonce)
    requires Base(x) && HasList(x.reg, t) && k in NoncesOf(x.reg, t)
    ensures k in x.used && k in x.reg.table
  {
    var l := x.reg.timers[t].nonces.value;
    assert l in x.reg.lists && k in x.reg.lists[l].nonces;
  }

  /** The same for probes: an answered probe retires every nonce of that probe's timer. */
  lemma ProbeAnswerForever(x: Xtr, n: Nonce, rec: Record, addr: int, es: seq<Event>, y: Xtr, k: Nonce)
    requires Good(x) && Enabled(x, Probed(n, Some(rec), addr))
    requires n in x.reg.table && (BaseFacts(x); ProbeReply(x, n, Some(rec), addr).1)
    requires (BaseFacts(x); HasList(x.reg, TimerOfNonce(x.reg, n)) && k in NoncesOf(x.reg, TimerOfNonce(x.reg, n)))
    requires (StepGood(x, Probed(n, Some(rec), addr)); RunOf(Step(x, Probed(n, Some(rec), addr)), es, y))
    ensures Dead(y, k)
  {
    hide Good, Enabled, ProbeReply;
    StepGood(x, Probed(n, Some(rec), addr));
    ProbeReplyRetires(x, n, rec, addr, k);
    DeadForever(Step(x, Probed(n, Some(rec), addr)), es, y, k);
  }

  lemma ProbeReplyRetires(x: Xtr, n: Nonce, rec: Record, addr: int, k: Nonce)
    requires Good(x) && Enabled(x, Probed(n, Some(rec), addr))
    requires n in x.reg.table && (BaseFacts(x); ProbeReply(x, n, Some(rec), addr).1)
    requires (BaseFacts(x); HasList(x.reg, TimerOfNonce(x.reg, n)) && k in NoncesOf(x.reg, TimerOfNonce(x.reg, n)))
    ensures Dead(Step(x, Probed(n, Some(rec), addr)), k)
  {
    hide Base, Inv, MissesOk, StopOne, ProbeAnswered, Frame;
    BaseFacts(x);
    var t, m := TimerOfNonce(x.reg, n), ProbedEntry(x, rec.eid).value;
    ListedIsUsed(x, t, k);
    var y := ProbeAnswered(x, m, addr);
    ProbeAnsweredFrame(x, m, addr);
    ProbeAnsweredBase(x, m, addr);
    ProbeAnsweredKeeps(x, m, addr, t);
    FrameNoRevival(x, y, {}, {});
    BaseFacts(y);
    StopOneRetires(y.reg, t, k);
  }
}
