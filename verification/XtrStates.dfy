/**
  The states of locators (section 6.3 of RFC 6830): when a locator of a cached mapping goes down,
  when it comes up again, and that nothing else changes with it.
 */
module XtrStates {
  import opened Options
  import opened RegistrySpec
  import opened XtrSpec
  import opened XtrInvariant
  import opened XtrRuns
  import opened XtrTheorems
  import opened XtrProbing
  import XtrMisses
  import XtrReplies

  // ---------- locators are told apart ----------

  ghost predicate IdsOk(x: Xtr) {
    forall m :: m in x.entries ==> DistinctIds(x.entries[m].locs)
  }

  lemma RemoveIds(x: Xtr, m: Obj, ending: Ending)
    requires IdsOk(x) && m in x.entries
    ensures IdsOk(RemoveEntry(x, m, ending))
  {
    hide StopAll, DistinctIds;
  }

  lemma RetryIds(x: Xtr, t: Timer, limit: int, timeout: int, n: Nonce, sent: bool)
    requires IdsOk(x) && HasList(x.reg, t) && x.reg.timers[t].obj in x.entries
    ensures IdsOk(RetryCallback(x, t, limit, timeout, n, sent))
  {
    hide StopAll, AddNonce, DistinctIds;
  }

  lemma ProbeIds(x: Xtr, t: Timer, n: Nonce, sent: bool)
    requires IdsOk(x) && HasList(x.reg, t) && x.reg.timers[t].obj in x.entries
    ensures IdsOk(ProbeCallback(x, t, n, sent))
  {
    hide ProbeCallback, SetUp, DistinctIds;
    var m, id := x.reg.timers[t].obj, x.reg.timers[t].part;
    ProbeCallbackShape(x, t, n, sent);
    SetUpIds(x.entries[m].locs, id, false);
    DistinctSame(x.entries[m].locs, SetUp(x.entries[m].locs, id, false));
  }

  lemma DistinctSame(a: seq<Loc>, b: seq<Loc>)
    requires DistinctIds(a) && SameIds(a, b)
    ensures DistinctIds(b)
  {}

  lemma {:induction false} AddMappingsIds(x: Xtr, recs: seq<Record>)
    requires IdsOk(x)
    ensures IdsOk(AddMappings(x, recs))
    decreases |recs|
  {
    hide AddMapping, DistinctIds, MakeLocs;
    if recs != [] {
      XtrReplies.AddMappingExact(x, recs[0]);
      MakeLocsDistinct(recs[0].addrs, x.heap + 1);
      AddMappingsIds(AddMapping(x, recs[0]), recs[1..]);
    }
  }

  lemma UpdateIds(x: Xtr, rec: Record)
    requires IdsOk(x) && forall e :: e in x.cache ==> x.cache[e] in x.entries
    ensures IdsOk(UpdateMapping(x, rec))
  {
    hide StartExpiry, ProgramProbing, DistinctIds, MakeLocs;
    if rec.eid in x.cache {
      var m := x.cache[rec.eid];
      MakeLocsDistinct(rec.addrs, x.heap);
      RefreshEntries(x.(entries := x.entries[m := x.entries[m].(locs := MakeLocs(rec.addrs, x.heap))],
                        heap := x.heap + |rec.addrs|), m);
    }
  }

  lemma ReplyIds(x: Xtr, n: Nonce, recs: seq<Record>, complete: bool)
    requires IdsOk(x) && Base(x)
    ensures (BaseFacts(x); IdsOk(MapReply(x, n, recs, complete).0))
  {
    hide Base, Inv, IdsOk, AddMappings, UpdateMapping, RemoveEntry, StopOne;
    BaseFacts(x);
    if n in x.reg.table {
      var t := TimerOfNonce(x.reg, n);
      var m := x.reg.timers[t].obj;
      if !x.entries[m].active {
        RemoveIds(x, m, Answered(x.now));
        AddMappingsIds(RemoveEntry(x, m, Answered(x.now)), recs);
      } else if recs != [] {
        var y := UpdateMapping(x, recs[0]);
        UpdateIds(x, recs[0]);
        EntriesIds(y, y.(reg := StopOne(y.reg, m, t)));
      }
    }
  }

  lemma EntriesIds(x: Xtr, y: Xtr)
    requires IdsOk(x) && y.entries == x.entries
    ensures IdsOk(y)
  {}

  lemma ProbedIds(x: Xtr, n: Nonce, rec: Option<Record>, addr: int)
    requires IdsOk(x) && Base(x)
    ensures (BaseFacts(x); IdsOk(ProbeReply(x, n, rec, addr).0))
  {
    hide Base, Inv, DistinctIds, ProbeAnswered, StopOne, SameIds;
    BaseFacts(x);
    TimerUnused(x);
    if n in x.reg.table && rec.Some? && ProbedEntry(x, rec.value.eid).Some? {
      var m := ProbedEntry(x, rec.value.eid).value;
      ProbeAnsweredShape(x, m, addr);
      DistinctSame(x.entries[m].locs, ProbeAnswered(x, m, addr).entries[m].locs);
    }
  }

  lemma MissIds(x: Xtr, eid: Eid, n: Nonce, sent: bool)
    requires IdsOk(x)
    ensures IdsOk(CacheMiss(x, eid, n, sent))
  {
    hide RetryCallback;
    var m := x.heap;
    var y := x.(entries := x.entries[m := Entry(eid, false, 0, [])], cache := x.cache[eid := m], heap := m + 1);
    var z := NewTimer(y, RequestRetry, m, 0);
    RetryIds(z.(misses := z.misses[m := Miss(x.now, m + 1, [], [], false, Open)]), m + 1, x.cfg.requestRetries,
             MRQ_TIMEOUT, n, sent);
  }

  lemma StepIds(x: Xtr, e: Event)
    requires Good(x) && IdsOk(x) && Enabled(x, e)
    ensures IdsOk(Step(x, e))
  {
    hide Base, XtrMisses.MissesOk, IdsOk, SafeReply, OwnEntry, RetryCallback, ProbeCallback, RemoveEntry, CacheMiss,
      MapReply, ProbeReply;
    BaseFacts(x);
    match e {
      case BeginTick => EntriesIds(x, Step(x, e));
      case EndTick => EntriesIds(x, Step(x, e));
      case Fire(t, n, sent) =>
        FireReady(x, t);
        var y := Expired(x, t);
        EntriesIds(x, y);
        match x.reg.timers[t].kind {
          case Expiry => RemoveIds(y, y.reg.timers[t].obj, Displaced(y.now));
          case RequestRetry => RetryIds(y, t, y.cfg.requestRetries, MRQ_TIMEOUT, n, sent);
          case SmrRetry => RetryIds(y, t, MAX_SMR_RETRANSMIT, SMR_TIMEOUT, n, sent);
          case Probing => ProbeIds(y, t, n, sent);
          case _ =>
        }
      case Missed(eid, n, sent) => MissIds(x, eid, n, sent);
      case Solicited(m, n, sent) =>
        EntriesIds(x, NewTimer(x, SmrRetry, m, 0));
        RetryIds(NewTimer(x, SmrRetry, m, 0), x.heap, MAX_SMR_RETRANSMIT, SMR_TIMEOUT, n, sent);
      case Reply(n, recs, complete) => ReplyIds(x, n, recs, complete);
      case Probed(n, rec, addr) => ProbedIds(x, n, rec, addr);
    }
  }

  lemma {:induction false} RunIds(x: Xtr, es: seq<Event>, y: Xtr)
    requires Good(x) && IdsOk(x) && RunOf(x, es, y)
    ensures IdsOk(y)
    decreases |es|
  {
    hide Good, IdsOk, Enabled, Step;
    if es != [] {
      StepGood(x, es[0]);
      StepIds(x, es[0]);
      RunIds(Step(x, es[0]), es[1..], y);
    }
  }

  /** Over every run, no two locators of an entry are the same. */
  lemma ReachableIds(x: Xtr)
    requires Reachable(x)
    ensures Good(x) && IdsOk(x)
  {
    hide Good, IdsOk, RunOf, Start;
    ReachableGood(x);
    var cfg, eid, addrs, es :| RunFrom(cfg, eid, addrs, es, x);
    StartGood(cfg, eid, addrs);
    StartIds(cfg, eid, addrs);
    RunIds(Start(cfg, eid, addrs), es, x);
  }

  lemma StartIds(cfg: Config, eid: Eid, addrs: seq<(int, bool)>)
    requires cfg.petrs == 0
    ensures IdsOk(Start(cfg, eid, addrs))
  {
    hide DistinctIds, ProbeLocators, StopKind, MakeLocs;
    var x := Bare(cfg, eid, addrs);
    MakeLocsDistinct(addrs, 1);
    ProbeLocatorsEntries(x.(reg := StopKind(x.reg, 0, Probing)), 0, x.entries[0].locs);
  }

  // ---------- what changes ----------

  /** Of all entries and locators, exactly one locator has taken a state. */
  ghost predicate OnlyMarked(x: Xtr, y: Xtr, m: Obj, i: nat, up: bool) {
    && y.entries.Keys == x.entries.Keys && m in x.entries && i < |x.entries[m].locs|
    && (forall k :: k in x.entries && k != m ==> y.entries[k] == x.entries[k])
    && y.entries[m] == x.entries[m].(locs := x.entries[m].locs[i := x.entries[m].locs[i].(up := up)])
  }

  lemma MarkedOnly(x: Xtr, y: Xtr, m: Obj, i: nat, up: bool)
    requires m in x.entries && DistinctIds(x.entries[m].locs) && i < |x.entries[m].locs|
    requires y.entries == x.entries[m := x.entries[m].(locs := SetUp(x.entries[m].locs, x.entries[m].locs[i].id, up))]
    ensures OnlyMarked(x, y, m, i, up)
  {
    hide SetUp;
    var locs := x.entries[m].locs;
    SetUpIds(locs, locs[i].id, up);
    assert SetUp(locs, locs[i].id, up) == locs[i := locs[i].(up := up)];
  }

  lemma NoneMarked(x: Xtr, m: Obj, id: int, up: bool)
    requires m in x.entries && forall i :: 0 <= i < |x.entries[m].locs| ==> x.entries[m].locs[i].id != id
    ensures x.entries[m := x.entries[m].(locs := SetUp(x.entries[m].locs, id, up))] == x.entries
  {
    hide SetUp;
    SetUpIds(x.entries[m].locs, id, up);
    assert SetUp(x.entries[m].locs, id, up) == x.entries[m].locs;
  }

  lemma AlreadyMarked(x: Xtr, m: Obj, i: nat, up: bool)
    requires m in x.entries && i < |x.entries[m].locs| && x.entries[m].locs[i].up == up
    ensures OnlyMarked(x, x, m, i, up)
  {
    assert x.entries[m].locs[i := x.entries[m].locs[i].(up := up)] == x.entries[m].locs;
  }

  // ---------- down ----------

  lemma ProbeCallbackEntries(x: Xtr, t: Timer, n: Nonce, sent: bool)
    requires HasList(x.reg, t) && x.reg.timers[t].obj in x.entries
    ensures var m, id := x.reg.timers[t].obj, x.reg.timers[t].part;
            ProbeCallback(x, t, n, sent).entries ==
              if |NoncesOf(x.reg, t)| - 1 < x.cfg.probeRetries || !IsUp(x.entries[m].locs, id) then x.entries
              else x.entries[m := x.entries[m].(locs := SetUp(x.entries[m].locs, id, false))]
  {
    hide IsUp, SetUp, AddNonce, Reset, Due;
    NoncesOnly(x.reg, n, x.reg.timers[t].nonces.value);
  }

  lemma NotUp(locs: seq<Loc>, i: nat)
    requires i < |locs| && !IsUp(locs, locs[i].id)
    ensures !locs[i].up
  {}

  /**
    When the timer that probes a locator fires, with one probe more than the retries unanswered, the
    locator is down afterwards; with fewer nothing changes. No other locator of any entry changes.
   */
  lemma DownAfterAllProbes(x: Xtr, t: Timer, n: Nonce, sent: bool)
    requires Good(x) && IdsOk(x) && Enabled(x, Fire(t, n, sent)) && IsKind(x.reg.timers, t, Probing)
    ensures HasList(x.reg, t) && x.reg.timers[t].obj in x.entries
    ensures var y, m := Step(x, Fire(t, n, sent)), x.reg.timers[t].obj;
            var locs, id := x.entries[m].locs, x.reg.timers[t].part;
            && (|NoncesOf(x.reg, t)| < x.cfg.probeRetries + 1 ==> y.entries == x.entries)
            && (|NoncesOf(x.reg, t)| >= x.cfg.probeRetries + 1 ==>
                  forall i :: 0 <= i < |locs| && locs[i].id == id ==> OnlyMarked(x, y, m, i, false))
            && ((forall i :: 0 <= i < |locs| ==> locs[i].id != id) ==> y.entries == x.entries)
  {
    hide Base, XtrMisses.MissesOk, ProbeCallback, SetUp, IsUp, OnlyMarked;
    FireReady(x, t);
    BaseFacts(x);
    var z, m := Expired(x, t), x.reg.timers[t].obj;
    var y := Step(x, Fire(t, n, sent));
    var locs, id := x.entries[m].locs, x.reg.timers[t].part;
    ProbeCallbackEntries(z, t, n, sent);
    if |NoncesOf(x.reg, t)| >= x.cfg.probeRetries + 1 {
      forall i | 0 <= i < |locs| && locs[i].id == id
        ensures OnlyMarked(x, y, m, i, false)
      {
        if IsUp(locs, id) {
          MarkedOnly(x, y, m, i, false);
        } else {
          NotUp(locs, i);
          AlreadyMarked(x, m, i, false);
          SameMarked(x, y, m, i, false);
        }
      }
    }
    if forall i :: 0 <= i < |locs| ==> locs[i].id != id { NoneMarked(x, m, id, false); }
  }

  lemma SameMarked(x: Xtr, y: Xtr, m: Obj, i: nat, up: bool)
    requires OnlyMarked(x, x, m, i, up) && y.entries == x.entries
    ensures OnlyMarked(x, y, m, i, up)
  {}

  /** The timer that probes the i-th locator of m fires after one probe more than the retries. */
  ghost predicate LastProbe(x: Xtr, e: Event, m: Obj, i: nat) {
    && e.Fire? && HasList(x.reg, e.t) && IsKind(x.reg.timers, e.t, Probing) && x.reg.timers[e.t].obj == m
    && m in x.entries && i < |x.entries[m].locs| && x.reg.timers[e.t].part == x.entries[m].locs[i].id
    && |NoncesOf(x.reg, e.t)| >= x.cfg.probeRetries + 1
  }

  /** Over every run, a locator goes down in a step if and only if it is up and its last probe has gone unanswered. */
  lemma DownIff(x: Xtr, e: Event, m: Obj, i: nat)
    requires Reachable(x) && Good(x) && Enabled(x, e)
    ensures WentDown(x, Step(x, e), m, i) <==> LastProbe(x, e, m, i) && x.entries[m].locs[i].up
  {
    hide Good, IdsOk, Step, Enabled;
    ReachableIds(x);
    if WentDown(x, Step(x, e), m, i) { DownOnlyAfterAllProbes(x, e, m, i); }
    if LastProbe(x, e, m, i) && x.entries[m].locs[i].up { DownAfterAllProbes(x, e.t, e.n, e.sent); }
  }

  // ---------- up ----------

  ghost predicate FirstAt(locs: seq<Loc>, addr: int, i: int) {
    0 <= i < |locs| && locs[i].addr == addr && forall j :: 0 <= j < i ==> locs[j].addr != addr
  }

  lemma {:induction false} FoundFirst(locs: seq<Loc>, addr: int)
    ensures (forall i :: 0 <= i < |locs| ==> locs[i].addr != addr) ==> FindByAddr(locs, addr).None?
    ensures forall i :: FirstAt(locs, addr, i) ==> FindByAddr(locs, addr) == Some(locs[i].id)
  {
    if locs != [] {
      FoundFirst(locs[1..], addr);
      forall i | FirstAt(locs, addr, i)
        ensures FindByAddr(locs, addr) == Some(locs[i].id)
      {
        if i > 0 { assert FirstAt(locs[1..], addr, i - 1); }
      }
    }
  }

  /** The entry that a probe reply for this prefix is about: the cached one, or else the proxies. */
  ghost predicate About(x: Xtr, eid: Eid, m: Obj) {
    m in x.entries
    && if eid in x.cache then m == x.cache[eid] else m == x.cfg.petrs && x.entries[m].eid.addr == eid.addr
  }

  /**
    After a probe reply with an outstanding nonce, the first locator with the reply's address in the
    entry it is about is up. No other locator of any entry changes; and none at all changes if the
    entry has no such locator, if there is no such entry, or if the nonce is not outstanding. In the
    last two cases and in no other the verdict is BAD.
   */
  lemma UpAfterProbeReply(x: Xtr, n: Nonce, rec: Record, addr: int)
    requires Reachable(x) && Good(x) && Enabled(x, Probed(n, Some(rec), addr))
    ensures (BaseFacts(x); ProbeReply(x, n, Some(rec), addr).1 <==> n in x.reg.table && exists m :: About(x, rec.eid, m))
    ensures var y := Step(x, Probed(n, Some(rec), addr));
            && (forall m, i :: n in x.reg.table && About(x, rec.eid, m) && FirstAt(x.entries[m].locs, addr, i)
                  ==> OnlyMarked(x, y, m, i, true))
            && (forall m :: About(x, rec.eid, m) && (forall i :: 0 <= i < |x.entries[m].locs| ==> x.entries[m].locs[i].addr != addr)
                  ==> y.entries == x.entries)
            && ((forall m :: !About(x, rec.eid, m)) || n !in x.reg.table ==> y.entries == x.entries)
  {
    hide Base, XtrMisses.MissesOk, Inv, StopOne, FindByAddr, OnlyMarked, OwnEntry, SetUp, NewTimer, ArmTimer;
    ReachableIds(x);
    BaseFacts(x);
    var y := Step(x, Probed(n, Some(rec), addr));
    AboutIs(x, rec.eid);
    if n in x.reg.table && ProbedEntry(x, rec.eid).Some? {
      var m := ProbedEntry(x, rec.eid).value;
      FoundFirst(x.entries[m].locs, addr);
      AnsweredEntries(x, m, addr);
      forall i | FirstAt(x.entries[m].locs, addr, i)
        ensures OnlyMarked(x, y, m, i, true)
      {
        MarkedOnly(x, y, m, i, true);
      }
    }
  }

  lemma AboutIs(x: Xtr, eid: Eid)
    requires Base(x)
    ensures forall m :: About(x, eid, m) <==> ProbedEntry(x, eid) == Some(m)
  {
    hide Inv, Allocated, TimersOk, BoundsOk, ClockOk;
  }

  lemma AnsweredEntries(x: Xtr, m: Obj, addr: int)
    requires m in x.entries
    ensures ProbeAnswered(x, m, addr).entries == match FindByAddr(x.entries[m].locs, addr)
              case None => x.entries
              case Some(id) => x.entries[m := x.entries[m].(locs := SetUp(x.entries[m].locs, id, true))]
  {
    hide FindByAddr, SetUp, Create;
  }

  /** The i-th locator of entry m is the same before and after, and went from down to up. */
  ghost predicate WentUp(x: Xtr, y: Xtr, m: Obj, i: nat) {
    && m in x.entries && m in y.entries && i < |x.entries[m].locs| && i < |y.entries[m].locs|
    && y.entries[m].locs[i].id == x.entries[m].locs[i].id
    && !x.entries[m].locs[i].up && y.entries[m].locs[i].up
  }

  /** A probe reply with an outstanding nonce about entry m, from the address of its i-th locator. */
  ghost predicate Confirms(x: Xtr, e: Event, m: Obj, i: nat) {
    && e.Probed? && e.rec.Some? && e.n in x.reg.table && About(x, e.rec.value.eid, m)
    && FirstAt(x.entries[m].locs, e.addr, i)
  }

  lemma GrowNoneUp(x: Xtr, y: Xtr, m: Obj, i: nat)
    requires EntriesGrow(x, y) && forall k :: k in x.entries ==> k < x.heap
    ensures !WentUp(x, y, m, i)
  {}

  lemma UpdateNoneUp(x: Xtr, rec: Record, m: Obj, i: nat)
    requires Base(x)
    ensures forall e :: e in x.cache ==> x.cache[e] in x.entries
    ensures !WentUp(x, UpdateMapping(x, rec), m, i)
  {
    hide Base, StartExpiry, ProgramProbing, MakeLocs;
    BaseFacts(x);
    if rec.eid in x.cache {
      var k := x.cache[rec.eid];
      RefreshEntries(x.(entries := x.entries[k := x.entries[k].(locs := MakeLocs(rec.addrs, x.heap))],
                        heap := x.heap + |rec.addrs|), k);
      MakeLocsIds(rec.addrs, x.heap);
      OldIds(x, k);
    }
  }

  lemma ReplyNoneUp(x: Xtr, n: Nonce, recs: seq<Record>, complete: bool, m: Obj, i: nat)
    requires Base(x)
    ensures (BaseFacts(x); !WentUp(x, MapReply(x, n, recs, complete).0, m, i))
  {
    hide Base, Inv, AddMappings, UpdateMapping, StopOne, StopAll;
    BaseFacts(x);
    if n in x.reg.table {
      var t := TimerOfNonce(x.reg, n);
      AddMappingsEntries(RemoveEntry(x, x.reg.timers[t].obj, Answered(x.now)), recs);
      if recs != [] { UpdateNoneUp(x, recs[0], m, i); }
    }
  }

  lemma FireNoneUp(x: Xtr, t: Timer, n: Nonce, sent: bool, m: Obj, i: nat)
    requires Good(x) && IdsOk(x) && Enabled(x, Fire(t, n, sent))
    ensures !WentUp(x, Step(x, Fire(t, n, sent)), m, i)
  {
    hide Base, XtrMisses.MissesOk, ProbeCallback, RetryCallback, StopAll, SetUp, IsUp;
    FireReady(x, t);
    var y := Expired(x, t);
    BaseFacts(x);
    match x.reg.timers[t].kind {
      case Probing =>
        ProbeCallbackEntries(y, t, n, sent);
        SetUpIds(x.entries[x.reg.timers[t].obj].locs, x.reg.timers[t].part, false);
      case RequestRetry => RetryEntries(y, t, y.cfg.requestRetries, MRQ_TIMEOUT, n, sent);
      case SmrRetry => RetryEntries(y, t, MAX_SMR_RETRANSMIT, SMR_TIMEOUT, n, sent);
      case _ =>
    }
  }

  /** Over every run, a locator comes up in a step if and only if it is down and a probe reply confirms it. */
  lemma UpIff(x: Xtr, e: Event, m: Obj, i: nat)
    requires Reachable(x) && Good(x) && Enabled(x, e)
    ensures WentUp(x, Step(x, e), m, i) <==> Confirms(x, e, m, i) && !x.entries[m].locs[i].up
  {
    hide Base, XtrMisses.MissesOk, IdsOk, SafeReply, OwnEntry, RetryCallback, CacheMiss, Callback, MapReply, ProbeReply,
      WentUp, About, FirstAt, EntriesGrow;
    ReachableIds(x);
    BaseFacts(x);
    var y := Step(x, e);
    match e {
      case BeginTick => SameNoneUp(x, y, m, i);
      case EndTick => SameNoneUp(x, y, m, i);
      case Fire(t, n, sent) => FireNoneUp(x, t, n, sent, m, i);
      case Missed(eid, n, sent) =>
        MissEntries(x, eid, n, sent);
        GrowNoneUp(x, y, m, i);
      case Solicited(k, n, sent) =>
        var z := NewTimer(x, SmrRetry, k, 0);
        RetryEntries(z, x.heap, MAX_SMR_RETRANSMIT, SMR_TIMEOUT, n, sent);
        GrowFrom(x, z, y);
        GrowNoneUp(x, y, m, i);
      case Reply(n, recs, complete) => ReplyNoneUp(x, n, recs, complete, m, i);
      case Probed(n, rec, addr) =>
        if rec.Some? {
          ProbedUpIff(x, n, rec.value, addr, m, i);
        } else {
          NothingProbed(x, n, addr);
          SameNoneUp(x, y, m, i);
        }
    }
  }

  lemma SameNoneUp(x: Xtr, y: Xtr, m: Obj, i: nat)
    requires y.entries == x.entries
    ensures !WentUp(x, y, m, i)
  {}

  lemma GrowFrom(x: Xtr, y: Xtr, z: Xtr)
    requires y.entries == x.entries && x.heap <= y.heap && EntriesGrow(y, z)
    ensures EntriesGrow(x, z)
  {}

  lemma NothingProbed(x: Xtr, n: Nonce, addr: int)
    requires Base(x)
    ensures (BaseFacts(x); ProbeReply(x, n, None, addr).0 == x)
  {
    BaseFacts(x);
  }

  lemma ProbedUpIff(x: Xtr, n: Nonce, rec: Record, addr: int, m: Obj, i: nat)
    requires Reachable(x) && Good(x) && Enabled(x, Probed(n, Some(rec), addr))
    ensures var e := Probed(n, Some(rec), addr);
            WentUp(x, Step(x, e), m, i) <==> Confirms(x, e, m, i) && !x.entries[m].locs[i].up
  {
    hide Good, Enabled, Step, About, FirstAt, WentUp, OnlyMarked;
    var e := Probed(n, Some(rec), addr);
    var y := Step(x, e);
    UpAfterProbeReply(x, n, rec, addr);
    if k :| n in x.reg.table && About(x, rec.eid, k) {
      AboutOnce(x, rec.eid, k);
      var j := AddressIn(x, k, addr);
      if j < |x.entries[k].locs| {
        MarkedUpIff(x, y, k, j, m, i);
        FirstOnce(x.entries[k].locs, addr, j);
      } else {
        SameNoneUp(x, y, m, i);
        NoFirst(x.entries[k].locs, addr);
      }
    } else {
      SameNoneUp(x, y, m, i);
    }
  }

  lemma AboutOnce(x: Xtr, eid: Eid, k: Obj)
    requires About(x, eid, k)
    ensures k in x.entries && forall m :: About(x, eid, m) ==> m == k
  {}

  lemma FirstOnce(locs: seq<Loc>, addr: int, j: int)
    requires FirstAt(locs, addr, j)
    ensures 0 <= j < |locs| && forall i :: FirstAt(locs, addr, i) ==> i == j
  {}

  lemma NoFirst(locs: seq<Loc>, addr: int)
    requires forall i :: 0 <= i < |locs| ==> locs[i].addr != addr
    ensures forall i :: !FirstAt(locs, addr, i)
  {}

  lemma MarkedUpIff(x: Xtr, y: Xtr, k: Obj, j: nat, m: Obj, i: nat)
    requires OnlyMarked(x, y, k, j, true)
    ensures k in x.entries && j < |x.entries[k].locs|
    ensures WentUp(x, y, m, i) <==> m == k && i == j && !x.entries[k].locs[j].up
  {}

  lemma AddressIn(x: Xtr, k: Obj, addr: int) returns (j: nat)
    requires k in x.entries
    ensures j < |x.entries[k].locs| ==> FirstAt(x.entries[k].locs, addr, j)
    ensures j >= |x.entries[k].locs| ==> forall i :: 0 <= i < |x.entries[k].locs| ==> x.entries[k].locs[i].addr != addr
  {
    j := 0;
    while j < |x.entries[k].locs| && x.entries[k].locs[j].addr != addr
      invariant forall i :: 0 <= i < j && i < |x.entries[k].locs| ==> x.entries[k].locs[i].addr != addr
    {
      j := j + 1;
    }
  }
}
