/**
  RLOC probing (section 6.3.2 of RFC 6830): while probing is on, the probe timers of a cache entry
  and its locators stay in one-to-one correspondence, and a locator is marked down only after
  exactly one plus the retry limit of unanswered probes.
 */
module XtrProbing {
  import opened Options
  import opened RegistrySpec
  import opened XtrSpec
  import opened XtrInvariant
  import opened XtrMisses
  import opened XtrRuns
  import opened XtrTheorems

  ghost predicate ProbesFor(timers: map<Timer, TimerRec>, t: Timer, m: Obj) {
    t in timers && timers[t].kind == Probing && timers[t].obj == m
  }

  ghost predicate HasProbe(timers: map<Timer, TimerRec>, m: Obj, id: int) {
    exists t :: ProbesFor(timers, t, m) && timers[t].part == id
  }

  ghost predicate HasId(locs: seq<Loc>, id: int) {
    exists i :: 0 <= i < |locs| && locs[i].id == id
  }

  ghost predicate DistinctIds(locs: seq<Loc>) {
    forall i, j :: 0 <= i < j < |locs| ==> locs[i].id != locs[j].id
  }

  /** No locator is probed by two timers, and only locators of the entry are probed. */
  ghost predicate Injective(timers: map<Timer, TimerRec>, m: Obj, locs: seq<Loc>) {
    && (forall t :: ProbesFor(timers, t, m) ==> HasId(locs, timers[t].part))
    && (forall t, u :: ProbesFor(timers, t, m) && ProbesFor(timers, u, m) && timers[t].part == timers[u].part ==> t == u)
  }

  /** Every locator of the entry is probed. */
  ghost predicate Covered(timers: map<Timer, TimerRec>, m: Obj, locs: seq<Loc>) {
    forall i :: 0 <= i < |locs| ==> HasProbe(timers, m, locs[i].id)
  }

  ghost predicate Paired(timers: map<Timer, TimerRec>, m: Obj, locs: seq<Loc>) {
    DistinctIds(locs) && Injective(timers, m, locs) && Covered(timers, m, locs)
  }

  ghost predicate PairsOk(x: Xtr) {
    x.cfg.probeInterval != 0 ==> forall m :: m in x.entries ==> Paired(x.reg.timers, m, x.entries[m].locs)
  }

  /** The probe timers of m are the same before and after. */
  ghost predicate SameProbes(timers: map<Timer, TimerRec>, timers': map<Timer, TimerRec>, m: Obj) {
    && (forall t :: ProbesFor(timers, t, m) ==> t in timers' && timers'[t] == timers[t])
    && (forall t :: ProbesFor(timers', t, m) ==> t in timers && timers[t] == timers'[t])
  }

  ghost predicate SameIds(a: seq<Loc>, b: seq<Loc>) {
    |a| == |b| && forall i :: 0 <= i < |a| ==> a[i].id == b[i].id
  }

  lemma PairedFrame(timers: map<Timer, TimerRec>, timers': map<Timer, TimerRec>, m: Obj,
                    locs: seq<Loc>, locs': seq<Loc>)
    requires Paired(timers, m, locs) && SameProbes(timers, timers', m) && SameIds(locs, locs')
    ensures Paired(timers', m, locs')
  {
    forall i | 0 <= i < |locs'|
      ensures HasProbe(timers', m, locs'[i].id)
    {
      assert HasProbe(timers, m, locs[i].id);
      var t :| ProbesFor(timers, t, m) && timers[t].part == locs[i].id;
      assert ProbesFor(timers', t, m);
    }
    forall t | ProbesFor(timers', t, m)
      ensures HasId(locs', timers'[t].part)
    {
      assert ProbesFor(timers, t, m);
      var i :| 0 <= i < |locs| && locs[i].id == timers[t].part;
      assert locs'[i].id == timers'[t].part;
    }
    assert forall t :: ProbesFor(timers', t, m) ==> ProbesFor(timers, t, m);
  }

  /** A step under which every entry still there keeps its locators and its probe timers. */
  ghost predicate Untouched(x: Xtr, y: Xtr) {
    && y.cfg == x.cfg
    && (forall m :: m in y.entries ==> m in x.entries && SameIds(x.entries[m].locs, y.entries[m].locs)
                                       && SameProbes(x.reg.timers, y.reg.timers, m))
  }

  lemma UntouchedPairs(x: Xtr, y: Xtr)
    requires PairsOk(x) && Untouched(x, y)
    ensures PairsOk(y)
  {
    hide Paired, SameProbes, SameIds;
    if y.cfg.probeInterval != 0 {
      forall m | m in y.entries
        ensures Paired(y.reg.timers, m, y.entries[m].locs)
      {
        PairedFrame(x.reg.timers, y.reg.timers, m, x.entries[m].locs, y.entries[m].locs);
      }
    }
  }

  // ---------- program_mce_rloc_probing establishes the correspondence ----------

  lemma {:induction false} ProbeLocatorsPairs(x: Xtr, m: Obj, locs: seq<Loc>, rest: seq<Loc>)
    requires Base(x) && m in x.entries && DistinctIds(locs + rest)
    requires Paired(x.reg.timers, m, locs)
    ensures Paired(ProbeLocators(x, m, rest).reg.timers, m, locs + rest)
    ensures forall k :: k != m ==> SameProbes(x.reg.timers, ProbeLocators(x, m, rest).reg.timers, k)
    ensures ProbeLocators(x, m, rest) == x.(reg := ProbeLocators(x, m, rest).reg, heap := ProbeLocators(x, m, rest).heap)
    decreases |rest|
  {
    hide Base, Paired, ProbeLocator;
    if rest == [] {
      assert locs + rest == locs;
      assert forall k :: SameProbes(x.reg.timers, x.reg.timers, k);
    } else {
      var y := ProbeLocator(x, m, rest[0].id);
      TimerUnused(x);
      ProbeLocatorBase(x, m, rest[0].id);
      ProbeLocatorTimers(x, m, rest[0].id);
      assert (locs + [rest[0]]) + rest[1..] == locs + rest;
      OneMorePair(x.reg.timers, x.heap, m, locs, rest[0], rest[1..]);
      ProbeLocatorsPairs(y, m, locs + [rest[0]], rest[1..]);
      var z := ProbeLocators(y, m, rest[1..]);
      forall k | k != m
        ensures SameProbes(x.reg.timers, z.reg.timers, k)
      {
        SameProbesTrans(x.reg.timers, y.reg.timers, z.reg.timers, k);
      }
    }
  }

  lemma ProbeLocatorTimers(x: Xtr, m: Obj, id: int)
    requires x.heap !in x.reg.timers
    ensures var y := ProbeLocator(x, m, id);
            && y.reg.timers == x.reg.timers[x.heap := TimerRec(Probing, m, id, Some(x.heap + 1))]
            && y == x.(reg := y.reg, heap := x.heap + 2)
            && (forall k :: k != m ==> SameProbes(x.reg.timers, y.reg.timers, k))
  {}

  lemma OneMorePair(timers: map<Timer, TimerRec>, t: Timer, m: Obj, locs: seq<Loc>, loc: Loc, rest: seq<Loc>)
    requires Paired(timers, m, locs) && t !in timers && DistinctIds((locs + [loc]) + rest)
    ensures Paired(timers[t := TimerRec(Probing, m, loc.id, Some(t + 1))], m, locs + [loc])
  {
    var timers' := timers[t := TimerRec(Probing, m, loc.id, Some(t + 1))];
    var locs' := locs + [loc];
    assert forall i, j :: 0 <= i < j < |locs'| ==> locs'[i] == (locs' + rest)[i] && locs'[j] == (locs' + rest)[j];
    assert DistinctIds(locs');
    forall u | ProbesFor(timers', u, m)
      ensures HasId(locs', timers'[u].part) && (u != t ==> timers'[u].part != loc.id)
    {
      if u == t {
        assert locs'[|locs|].id == loc.id;
      } else {
        assert ProbesFor(timers, u, m);
        var i :| 0 <= i < |locs| && locs[i].id == timers[u].part;
        assert locs'[i] == locs[i] && locs'[|locs|] == loc;
      }
    }
    forall i | 0 <= i < |locs'|
      ensures HasProbe(timers', m, locs'[i].id)
    {
      if i < |locs| {
        assert HasProbe(timers, m, locs[i].id);
        var u :| ProbesFor(timers, u, m) && timers[u].part == locs[i].id;
        assert ProbesFor(timers', u, m);
      } else {
        assert ProbesFor(timers', t, m);
      }
    }
    assert forall u :: ProbesFor(timers', u, m) && u != t ==> ProbesFor(timers, u, m);
  }

  lemma ProgramProbingPairs(x: Xtr, m: Obj)
    requires Base(x) && m in x.entries && DistinctIds(x.entries[m].locs) && x.cfg.probeInterval != 0
    ensures var y := ProgramProbing(x, m);
            && Paired(y.reg.timers, m, x.entries[m].locs)
            && y.entries == x.entries && y.cfg == x.cfg && y.cache == x.cache
            && (forall k :: k != m ==> SameProbes(x.reg.timers, y.reg.timers, k))
  {
    hide Base, ProbeLocators, StopKind;
    var y := x.(reg := StopKind(x.reg, m, Probing));
    StopKindBase(x, m, Probing);
    StopKindTimers(x.reg, m);
    assert [] + x.entries[m].locs == x.entries[m].locs;
    ProbeLocatorsPairs(y, m, [], x.entries[m].locs);
    var z := ProbeLocators(y, m, x.entries[m].locs);
    forall k | k != m
      ensures SameProbes(x.reg.timers, z.reg.timers, k)
    {
      SameProbesTrans(x.reg.timers, y.reg.timers, z.reg.timers, k);
    }
  }

  lemma SameProbesTrans(a: map<Timer, TimerRec>, b: map<Timer, TimerRec>, c: map<Timer, TimerRec>, m: Obj)
    requires SameProbes(a, b, m) && SameProbes(b, c, m)
    ensures SameProbes(a, c, m)
  {
    assert forall t :: ProbesFor(a, t, m) ==> ProbesFor(b, t, m);
    assert forall t :: ProbesFor(c, t, m) ==> ProbesFor(b, t, m);
  }

  lemma StopKindTimers(r: Registry, m: Obj)
    ensures var r' := StopKind(r, m, Probing);
            && Paired(r'.timers, m, [])
            && (forall k :: k != m ==> SameProbes(r.timers, r'.timers, k))
  {
    var r' := StopKind(r, m, Probing);
    assert forall t :: !ProbesFor(r'.timers, t, m);
  }

  // ---------- every event keeps it ----------

  lemma StartExpiryProbes(x: Xtr, m: Obj)
    requires Base(x) && m in x.entries
    ensures var y := StartExpiry(x, m);
            y.entries == x.entries && y.cfg == x.cfg && forall k :: SameProbes(x.reg.timers, y.reg.timers, k)
  {
    hide Base;
    TimerUnused(x);
  }

  /** Refreshing an entry whose locators are new or not probed yet pairs it and touches no other. */
  lemma RefreshPairs(x: Xtr, m: Obj)
    requires Base(x) && m in x.entries && DistinctIds(x.entries[m].locs)
    requires x.cfg.probeInterval != 0 ==>
               forall k :: k in x.entries && k != m ==> Paired(x.reg.timers, k, x.entries[k].locs)
    ensures m in StartExpiry(x, m).entries && PairsOk(ProgramProbing(StartExpiry(x, m), m))
  {
    hide Base, Paired, StartExpiry, ProgramProbing, SameProbes;
    StartExpiryBase(x, m);
    StartExpiryProbes(x, m);
    var y := StartExpiry(x, m);
    ProgramProbingOff(y, m);
    if x.cfg.probeInterval != 0 {
      ProgramProbingPairs(y, m);
      var z := ProgramProbing(y, m);
      forall k | k in z.entries && k != m
        ensures Paired(z.reg.timers, k, z.entries[k].locs)
      {
        SameProbesTrans(x.reg.timers, y.reg.timers, z.reg.timers, k);
        SameIdsSelf(x.entries[k].locs);
        PairedFrame(x.reg.timers, z.reg.timers, k, x.entries[k].locs, x.entries[k].locs);
      }
    }
  }

  lemma ProgramProbingOff(x: Xtr, m: Obj)
    requires m in x.entries
    ensures x.cfg.probeInterval == 0 ==> ProgramProbing(x, m) == x
  {}

  lemma SameIdsSelf(s: seq<Loc>)
    ensures SameIds(s, s)
  {}

  lemma MakeLocsDistinct(addrs: seq<(int, bool)>, id: int)
    ensures DistinctIds(MakeLocs(addrs, id))
  {}

  lemma AddMappingPairs(x: Xtr, rec: Record)
    requires Base(x) && PairsOk(x)
    ensures PairsOk(AddMapping(x, rec))
  {
    hide Base, Paired, StartExpiry, ProgramProbing, MakeLocs;
    var m := x.heap;
    var e := Entry(rec.eid, true, rec.ttl, MakeLocs(rec.addrs, m + 1));
    MakeLocsDistinct(rec.addrs, m + 1);
    MakeLocsIds(rec.addrs, m + 1);
    NewEntryBase(x, e, |rec.addrs|);
    BaseFacts(x);
    RefreshPairs(x.(entries := x.entries[m := e],
                    cache := if rec.eid in x.cache then x.cache else x.cache[rec.eid := m],
                    heap := x.heap + 1 + |rec.addrs|), m);
  }

  lemma MakeLocsIds(addrs: seq<(int, bool)>, id: int)
    ensures forall i :: 0 <= i < |MakeLocs(addrs, id)| ==> id <= MakeLocs(addrs, id)[i].id < id + |addrs|
  {}

  lemma {:induction false} AddMappingsPairs(x: Xtr, recs: seq<Record>)
    requires Base(x) && PairsOk(x)
    ensures PairsOk(AddMappings(x, recs))
    decreases |recs|
  {
    hide Base, PairsOk, AddMapping;
    if recs != [] {
      AddMappingBase(x, recs[0]);
      AddMappingPairs(x, recs[0]);
      AddMappingsPairs(AddMapping(x, recs[0]), recs[1..]);
    }
  }

  lemma UpdateMappingPairs(x: Xtr, rec: Record)
    requires Base(x) && PairsOk(x)
    ensures forall e :: e in x.cache ==> x.cache[e] in x.entries
    ensures PairsOk(UpdateMapping(x, rec))
  {
    hide Base, Paired, StartExpiry, ProgramProbing, MakeLocs;
    BaseFacts(x);
    if rec.eid in x.cache {
      var m := x.cache[rec.eid];
      var locs := MakeLocs(rec.addrs, x.heap);
      MakeLocsDistinct(rec.addrs, x.heap);
      MakeLocsIds(rec.addrs, x.heap);
      ReplaceLocsBase(x, m, locs, |rec.addrs|);
      RefreshPairs(x.(entries := x.entries[m := x.entries[m].(locs := locs)], heap := x.heap + |rec.addrs|), m);
    }
  }

  lemma RemoveEntryUntouched(x: Xtr, m: Obj, ending: Ending)
    requires Base(x) && m in x.entries
    ensures Untouched(x, RemoveEntry(x, m, ending))
  {
    hide Base, StopAll;
    BaseFacts(x);
    if x.entries[m].eid in x.cache {
      PurgedFrame(x.reg, x.cache[x.entries[m].eid]);
    }
  }

  lemma RetryCallbackUntouched(x: Xtr, t: Timer, limit: int, timeout: int, n: Nonce, sent: bool)
    requires Base(x) && HasList(x.reg, t)
    ensures x.reg.timers[t].obj in x.entries
    ensures Untouched(x, RetryCallback(x, t, limit, timeout, n, sent))
  {
    hide Base, RemoveEntry;
    BaseFacts(x);
    RemoveEntryUntouched(x, x.reg.timers[t].obj,
                         if x.reg.timers[t].kind == RequestRetry then TimedOut(x.now) else Displaced(x.now));
  }

  lemma ProbeCallbackShape(x: Xtr, t: Timer, n: Nonce, sent: bool)
    requires HasList(x.reg, t) && x.reg.timers[t].obj in x.entries
    ensures var y := ProbeCallback(x, t, n, sent);
            var m, id := x.reg.timers[t].obj, x.reg.timers[t].part;
            && y.reg.timers == x.reg.timers && y.cfg == x.cfg
            && (y.entries == x.entries
                || (|NoncesOf(x.reg, t)| - 1 >= x.cfg.probeRetries
                    && y.entries == x.entries[m := x.entries[m].(locs := SetUp(x.entries[m].locs, id, false))]))
  {
    hide IsUp, Due, SetUp, AddNonce, Reset;
    NoncesOnly(x.reg, n, x.reg.timers[t].nonces.value);
  }

  lemma ProbeCallbackAlarms(x: Xtr, t: Timer, n: Nonce, sent: bool)
    requires HasList(x.reg, t) && x.reg.timers[t].obj in x.entries
    ensures var y := ProbeCallback(x, t, n, sent);
            && y.cache == x.cache && y.heap == x.heap
            && (forall u :: u in x.reg.alarms ==> u in y.reg.alarms && (u != t ==> y.reg.alarms[u] == x.reg.alarms[u]))
  {
    hide IsUp, Due, SetUp, Reset, AddNonce;
    var y := if IsUp(x.entries[x.reg.timers[t].obj].locs, x.reg.timers[t].part)
             then MarkLocator(x, x.reg.timers[t].obj, x.reg.timers[t].part, false) else x;
    IssueAlarms(x, t, n);
    ForgetAlarms(y, t);
  }

  lemma IssueAlarms(x: Xtr, t: Timer, n: Nonce)
    requires HasList(x.reg, t)
    ensures var y := IssueNonce(x, t, n); y.reg.alarms == x.reg.alarms
  {}

  lemma ForgetAlarms(x: Xtr, t: Timer)
    requires HasList(x.reg, t)
    ensures var y := ForgetNonces(x, t); y.reg.alarms == x.reg.alarms
  {}

  lemma ProbeCallbackUntouched(x: Xtr, t: Timer, n: Nonce, sent: bool)
    requires Base(x) && HasList(x.reg, t)
    ensures x.reg.timers[t].obj in x.entries
    ensures Untouched(x, ProbeCallback(x, t, n, sent))
  {
    hide Base, SetUp, ProbeCallback;
    BaseFacts(x);
    ProbeCallbackShape(x, t, n, sent);
    SetUpIds(x.entries[x.reg.timers[t].obj].locs, x.reg.timers[t].part, false);
  }

  lemma NewTimerUntouched(x: Xtr, kind: Kind, m: Obj)
    requires Base(x) && kind != Probing
    ensures Untouched(x, NewTimer(x, kind, m, 0))
  {
    hide Base;
    TimerUnused(x);
  }

  lemma CacheMissPairs(x: Xtr, eid: Eid, n: Nonce, sent: bool)
    requires Good(x) && PairsOk(x) && eid !in x.cache && n !in x.used
    ensures PairsOk(CacheMiss(x, eid, n, sent))
  {
    hide Base, MissesOk, PairsOk, RetryCallback, NewTimer, Untouched;
    var m := x.heap;
    var y := x.(entries := x.entries[m := Entry(eid, false, 0, [])], cache := x.cache[eid := m], heap := m + 1);
    PlaceholderBase(x, eid);
    PlaceholderPairs(x, eid);
    NewTimerBase(y, RequestRetry, m, 0);
    NewTimerUntouched(y, RequestRetry, m);
    var z := NewTimer(y, RequestRetry, m, 0);
    UntouchedPairs(y, z);
    NewTimerShape(y, RequestRetry, m);
    var w := z.(misses := z.misses[m := Miss(x.now, m + 1, [], [], false, Open)]);
    BaseFacts(x);
    MissesBase(z, w.misses);
    RetryCallbackUntouched(w, m + 1, x.cfg.requestRetries, MRQ_TIMEOUT, n, sent);
    PairsIgnoreMisses(z, w);
    UntouchedPairs(w, RetryCallback(w, m + 1, x.cfg.requestRetries, MRQ_TIMEOUT, n, sent));
  }

  lemma NewTimerShape(x: Xtr, kind: Kind, m: Obj)
    ensures var y := NewTimer(x, kind, m, 0); y == x.(reg := y.reg, heap := x.heap + 2)
  {}

  lemma PairsIgnoreMisses(x: Xtr, y: Xtr)
    requires PairsOk(x) && y == x.(misses := y.misses)
    ensures PairsOk(y)
  {}

  lemma PlaceholderPairs(x: Xtr, eid: Eid)
    requires Base(x) && PairsOk(x)
    ensures PairsOk(x.(entries := x.entries[x.heap := Entry(eid, false, 0, [])],
                       cache := x.cache[eid := x.heap], heap := x.heap + 1))
  {
    hide Base;
    BaseFacts(x);
    assert forall t :: !ProbesFor(x.reg.timers, t, x.heap);
  }

  lemma SolicitedPairs(x: Xtr, m: Obj, n: Nonce, sent: bool)
    requires Good(x) && PairsOk(x) && m in x.entries && n !in x.used
    ensures PairsOk(SolicitedRequest(x, m, n, sent))
  {
    hide Base, MissesOk, PairsOk, RetryCallback, Untouched;
    var y := NewTimer(x, SmrRetry, m, 0);
    NewTimerBase(x, SmrRetry, m, 0);
    NewTimerUntouched(x, SmrRetry, m);
    UntouchedPairs(x, y);
    RetryCallbackUntouched(y, x.heap, MAX_SMR_RETRANSMIT, SMR_TIMEOUT, n, sent);
    UntouchedPairs(y, RetryCallback(y, x.heap, MAX_SMR_RETRANSMIT, SMR_TIMEOUT, n, sent));
  }

  lemma StopOneUntouched(x: Xtr, t: Timer)
    requires Base(x) && t in x.reg.timers && x.reg.timers[t].kind != Probing
    ensures Untouched(x, x.(reg := StopOne(x.reg, x.reg.timers[t].obj, t)))
  {}

  /** The Map-Reply has a probe timer of an entry in use stopped and nothing put in its place. */
  ghost predicate StopsProbe(x: Xtr, n: Nonce, recs: seq<Record>)
    requires Inv(x.reg) && forall t :: t in x.reg.timers ==> x.reg.timers[t].obj in x.entries
  {
    n in x.reg.table && recs != [] &&
      var rec := x.reg.timers[TimerOfNonce(x.reg, n)];
      rec.kind == Probing && x.entries[rec.obj].active
  }

  /** Exactly when a Map-Reply keeps the correspondence: unless it bears the nonce of a probe. */
  lemma MapReplyPairsIff(x: Xtr, n: Nonce, recs: seq<Record>, complete: bool)
    requires Good(x) && PairsOk(x) && x.cfg.probeInterval != 0 && (BaseFacts(x); SafeReply(x, n, recs))
    ensures (BaseFacts(x); PairsOk(MapReply(x, n, recs, complete).0) <==> !StopsProbe(x, n, recs))
  {
    hide Base, Inv, MissesOk, PairsOk, Untouched, RemoveEntry, AddMappings, UpdateMapping, StopOne, Survives;
    BaseFacts(x);
    if n in x.reg.table {
      var t := TimerOfNonce(x.reg, n);
      var m := x.reg.timers[t].obj;
      if !x.entries[m].active {
        var y := RemoveEntry(x, m, Answered(x.now));
        RemoveEntryBase(x, m, Answered(x.now));
        RemoveEntryUntouched(x, m, Answered(x.now));
        UntouchedPairs(x, y);
        AddMappingsPairs(y, recs);
      } else if recs != [] {
        var y := UpdateMapping(x, recs[0]);
        UpdateMappingBase(x, recs[0]);
        UpdateMappingPairs(x, recs[0]);
        UpdateKeepsTimer(x, recs[0], t);
        UpdateMappingConfig(x, recs[0]);
        StopPairsIff(y, t);
      }
    }
  }

  lemma UpdateMappingConfig(x: Xtr, rec: Record)
    requires Base(x)
    ensures forall e :: e in x.cache ==> x.cache[e] in x.entries
    ensures UpdateMapping(x, rec).cfg == x.cfg
  {
    hide Frame;
    UpdateMappingFrame(x, rec);
    FrameKeys(x, UpdateMapping(x, rec), {}, {});
  }

  /** Stopping a timer leaves its locator unprobed exactly if it is a probe timer. */
  lemma StopPairsIff(x: Xtr, t: Timer)
    requires Base(x) && PairsOk(x) && x.cfg.probeInterval != 0 && t in x.reg.timers
    ensures PairsOk(x.(reg := StopOne(x.reg, x.reg.timers[t].obj, t))) <==> x.reg.timers[t].kind != Probing
  {
    hide Base, Paired, Untouched, StopOne;
    var m := x.reg.timers[t].obj;
    var y := x.(reg := StopOne(x.reg, m, t));
    BaseFacts(x);
    if x.reg.timers[t].kind != Probing {
      StopOneUntouched(x, t);
      UntouchedPairs(x, y);
    } else {
      StopOneGone(x.reg, m, t);
      TimerUnused(x);
      SameIdsSelf(x.entries[m].locs);
      assert Paired(x.reg.timers, m, x.entries[m].locs);
      ExchangedPair(x.reg.timers, t, x.heap, m, x.entries[m].locs, x.entries[m].locs, None);
    }
  }

  // ---------- replies to probes ----------

  lemma {:induction false} FoundId(locs: seq<Loc>, addr: int)
    ensures FindByAddr(locs, addr).Some? ==> HasId(locs, FindByAddr(locs, addr).value)
  {
    if locs != [] && locs[0].addr != addr {
      FoundId(locs[1..], addr);
      if FindByAddr(locs[1..], addr).Some? {
        var i :| 0 <= i < |locs[1..]| && locs[1..][i].id == FindByAddr(locs[1..], addr).value;
        assert locs[i + 1] == locs[1..][i];
      }
    } else if locs != [] {
      assert locs[0].id == locs[0].id;
    }
  }

  lemma ProbeAnsweredShape(x: Xtr, m: Obj, addr: int)
    requires m in x.entries && x.heap !in x.reg.timers
    ensures var y := ProbeAnswered(x, m, addr);
            && y.cfg == x.cfg && m in y.entries && y.entries.Keys == x.entries.Keys
            && (forall k :: k in x.entries && k != m ==> y.entries[k] == x.entries[k])
            && SameIds(x.entries[m].locs, y.entries[m].locs)
            && y.reg.timers == match FindByAddr(x.entries[m].locs, addr)
                               case None => x.reg.timers
                               case Some(id) => x.reg.timers[x.heap := TimerRec(Probing, m, id, Some(x.heap + 1))]
  {
    hide FindByAddr, SetUp;
    match FindByAddr(x.entries[m].locs, addr)
    case None =>
    case Some(id) =>
      SetUpIds(x.entries[m].locs, id, true);
      var y := MarkLocator(x, m, id, true);
      ProbeLocatorTimers(y, m, id);
  }

  /**
    Exactly when a probe reply keeps the correspondence: if the locator it is taken to confirm is
    the one that was probed, or, for a reply that bears the nonce of another request, if it is
    taken to confirm none. Otherwise a locator is left unprobed or is probed twice.
   */
  lemma ProbeReplyPairsIff(x: Xtr, n: Nonce, rec: Record, addr: int)
    requires Good(x) && PairsOk(x) && x.cfg.probeInterval != 0 && n in x.reg.table
    requires (BaseFacts(x); OwnEntry(x, n, rec.eid)) && ProbedEntry(x, rec.eid).Some?
    ensures (BaseFacts(x); PairsOk(ProbeReply(x, n, Some(rec), addr).0) <==> Confirms(x, n, rec.eid, addr))
  {
    hide Base, Inv, MissesOk, Paired, ProbeAnswered, FindByAddr, SameIds, SameProbes;
    BaseFacts(x);
    TimerUnused(x);
    var t, m := TimerOfNonce(x.reg, n), ProbedEntry(x, rec.eid).value;
    var locs := x.entries[m].locs;
    var y := ProbeAnswered(x, m, addr);
    ProbeAnsweredShape(x, m, addr);
    var z := ProbeReply(x, n, Some(rec), addr).0;
    assert z.reg == StopOne(y.reg, m, t);
    assert z.reg.timers == y.reg.timers - {t};
    assert Paired(x.reg.timers, m, locs);
    FoundId(locs, addr);
    if x.reg.timers[t].kind == Probing {
      ExchangedPair(x.reg.timers, t, x.heap, m, locs, y.entries[m].locs, FindByAddr(locs, addr));
    } else {
      AddedPair(x.reg.timers, t, x.heap, m, locs, y.entries[m].locs, FindByAddr(locs, addr));
    }
    forall k | k in z.entries && k != m
      ensures Paired(z.reg.timers, k, z.entries[k].locs)
    {
      OtherProbesSame(x.reg.timers, y.reg.timers, t, x.heap, m, k);
      SameIdsSelf(x.entries[k].locs);
      PairedFrame(x.reg.timers, z.reg.timers, k, x.entries[k].locs, x.entries[k].locs);
    }
  }

  /** The locator that a probe reply confirms is the one probed; a reply to another request confirms none. */
  ghost predicate Confirms(x: Xtr, n: Nonce, eid: Eid, addr: int)
    requires Inv(x.reg) && n in x.reg.table && forall e :: e in x.cache ==> x.cache[e] in x.entries
    requires ProbedEntry(x, eid).Some?
  {
    var rec := x.reg.timers[TimerOfNonce(x.reg, n)];
    FindByAddr(x.entries[ProbedEntry(x, eid).value].locs, addr) == if rec.kind == Probing then Some(rec.part) else None
  }

  /** Where timer t is no probe timer, one more probe timer u is one too many. */
  lemma AddedPair(timers: map<Timer, TimerRec>, t: Timer, u: Timer, m: Obj, locs: seq<Loc>, locs': seq<Loc>,
                  found: Option<int>)
    requires Paired(timers, m, locs) && t in timers && timers[t].kind != Probing && u !in timers && SameIds(locs, locs')
    requires found.Some? ==> HasId(locs, found.value)
    ensures var timers' := match found
                           case None => timers
                           case Some(id) => timers[u := TimerRec(Probing, m, id, Some(u + 1))];
            Paired(timers' - {t}, m, locs') <==> found == None
  {
    if found == None {
      PairedFrame(timers, timers - {t}, m, locs, locs');
    } else {
      var timers' := timers[u := TimerRec(Probing, m, found.value, Some(u + 1))] - {t};
      var i :| 0 <= i < |locs| && locs[i].id == found.value;
      assert HasProbe(timers, m, locs[i].id);
      var v :| ProbesFor(timers, v, m) && timers[v].part == found.value;
      assert ProbesFor(timers', v, m) && ProbesFor(timers', u, m) && timers'[v].part == timers'[u].part;
    }
  }

  lemma OtherProbesSame(timers: map<Timer, TimerRec>, timers': map<Timer, TimerRec>, t: Timer, u: Timer, m: Obj, k: Obj)
    requires t in timers && timers[t].obj == m && k != m && u !in timers
    requires timers' == timers || (u in timers' && timers'[u].obj == m && timers' == timers[u := timers'[u]])
    ensures SameProbes(timers, timers' - {t}, k)
  {}

  /** Replacing the probe timer t of a locator by a new one u for the locator found, if any. */
  lemma ExchangedPair(timers: map<Timer, TimerRec>, t: Timer, u: Timer, m: Obj, locs: seq<Loc>, locs': seq<Loc>,
                      found: Option<int>)
    requires Paired(timers, m, locs) && ProbesFor(timers, t, m) && u !in timers && SameIds(locs, locs')
    requires found.Some? ==> HasId(locs, found.value)
    ensures var timers' := match found
                           case None => timers
                           case Some(id) => timers[u := TimerRec(Probing, m, id, Some(u + 1))];
            Paired(timers' - {t}, m, locs') <==> found == Some(timers[t].part)
  {
    var timers' := (match found
                    case None => timers
                    case Some(id) => timers[u := TimerRec(Probing, m, id, Some(u + 1))]) - {t};
    var part := timers[t].part;
    var i :| 0 <= i < |locs| && locs[i].id == part;
    if found == Some(part) {
      forall v | ProbesFor(timers', v, m)
        ensures HasId(locs', timers'[v].part) && (v != u ==> timers'[v].part != part)
      {
        var w := if v == u then t else v;
        assert ProbesFor(timers, w, m);
        var j :| 0 <= j < |locs| && locs[j].id == timers[w].part;
        assert locs'[j].id == timers'[v].part;
      }
      forall j | 0 <= j < |locs'|
        ensures HasProbe(timers', m, locs'[j].id)
      {
        assert HasProbe(timers, m, locs[j].id);
        var v :| ProbesFor(timers, v, m) && timers[v].part == locs[j].id;
        var w := if v == t then u else v;
        assert ProbesFor(timers', w, m) && timers'[w].part == locs'[j].id;
      }
      assert forall v :: ProbesFor(timers', v, m) && v != u ==> ProbesFor(timers, v, m);
    } else {
      assert forall v :: ProbesFor(timers', v, m) && v != u ==> ProbesFor(timers, v, m) && v != t;
      assert !HasProbe(timers', m, part);
      assert locs'[i].id == part;
    }
  }

  // ---------- whole runs ----------

  /** Replies to probes confirm the locator that was probed, other replies answer other requests. */
  ghost predicate Matched(x: Xtr, e: Event)
    requires Good(x)
  {
    BaseFacts(x);
    match e
    case Probed(n, rec, addr) =>
      rec.Some? && n in x.reg.table && ProbedEntry(x, rec.value.eid).Some? ==> Confirms(x, n, rec.value.eid, addr)
    case Reply(n, recs, _) => !StopsProbe(x, n, recs)
    case _ => true
  }

  /** While probing is on, a step of any kind keeps the correspondence exactly if it is matched. */
  lemma StepPairsIff(x: Xtr, e: Event)
    requires Good(x) && Enabled(x, e) && PairsOk(x) && x.cfg.probeInterval != 0
    ensures PairsOk(Step(x, e)) <==> Matched(x, e)
  {
    hide Base, MissesOk, PairsOk, Untouched, SafeReply, RetryCallback, ProbeCallback, RemoveEntry,
      CacheMiss, SolicitedRequest, MapReply, FindByAddr, StopsProbe, Confirms, OwnEntry;
    BaseFacts(x);
    match e {
      case BeginTick => PairsIgnoreClock(x, Step(x, e));
      case EndTick => PairsIgnoreClock(x, Step(x, e));
      case Fire(t, n, sent) => FirePairs(x, t, n, sent);
      case Missed(eid, n, sent) => CacheMissPairs(x, eid, n, sent);
      case Solicited(m, n, sent) => SolicitedPairs(x, m, n, sent);
      case Reply(n, recs, complete) => MapReplyPairsIff(x, n, recs, complete);
      case Probed(n, rec, addr) =>
        if n in x.reg.table && rec.Some? && ProbedEntry(x, rec.value.eid).Some? {
          ProbeReplyPairsIff(x, n, rec.value, addr);
        }
    }
  }

  lemma FirePairs(x: Xtr, t: Timer, n: Nonce, sent: bool)
    requires Good(x) && Enabled(x, Fire(t, n, sent)) && PairsOk(x)
    ensures PairsOk(Step(x, Fire(t, n, sent)))
  {
    hide Base, MissesOk, PairsOk, Untouched, RetryCallback, ProbeCallback, RemoveEntry;
    FireReady(x, t);
    var y := Expired(x, t);
    PairsIgnoreClock(x, y);
    match y.reg.timers[t].kind {
      case Expiry => RemoveEntryUntouched(y, y.reg.timers[t].obj, Displaced(y.now));
      case RequestRetry => RetryCallbackUntouched(y, t, y.cfg.requestRetries, MRQ_TIMEOUT, n, sent);
      case SmrRetry => RetryCallbackUntouched(y, t, MAX_SMR_RETRANSMIT, SMR_TIMEOUT, n, sent);
      case Probing => ProbeCallbackUntouched(y, t, n, sent);
    }
    UntouchedPairs(y, Step(x, Fire(t, n, sent)));
  }

  lemma PairsIgnoreClock(x: Xtr, y: Xtr)
    requires PairsOk(x) && y.reg.timers == x.reg.timers && y.entries == x.entries && y.cfg == x.cfg
    ensures PairsOk(y)
  {}

  lemma StepConfig(x: Xtr, e: Event)
    requires Good(x) && Enabled(x, e)
    ensures Step(x, e).cfg == x.cfg
  {
    hide Base, MissesOk, SafeReply, OwnEntry, Callback, CacheMiss, SolicitedRequest, MapReply, ProbeReply;
    BaseFacts(x);
    match e {
      case BeginTick =>
      case EndTick =>
      case Fire(t, n, sent) =>
        FireReady(x, t);
        CallbackConfig(Expired(x, t), t, n, sent);
      case Missed(eid, n, sent) => MissConfig(x, eid, n, sent);
      case Solicited(m, n, sent) => SolicitedConfig(x, m, n, sent);
      case Reply(n, recs, complete) => ReplyConfig(x, n, recs, complete);
      case Probed(n, rec, addr) => ProbedConfig(x, n, rec, addr);
    }
  }

  lemma RetryConfig(x: Xtr, t: Timer, limit: int, timeout: int, n: Nonce, sent: bool)
    requires HasList(x.reg, t) && x.reg.timers[t].obj in x.entries
    ensures RetryCallback(x, t, limit, timeout, n, sent).cfg == x.cfg
  {
    hide StopAll, AddNonce;
  }

  lemma CallbackConfig(x: Xtr, t: Timer, n: Nonce, sent: bool)
    requires CallbackReady(x, t)
    ensures Callback(x, t, n, sent).cfg == x.cfg
  {
    hide RetryCallback, StopAll, AddNonce, Reset, IsUp, SetUp;
    match x.reg.timers[t].kind {
      case RequestRetry => RetryConfig(x, t, x.cfg.requestRetries, MRQ_TIMEOUT, n, sent);
      case SmrRetry => RetryConfig(x, t, MAX_SMR_RETRANSMIT, SMR_TIMEOUT, n, sent);
      case _ =>
    }
  }

  lemma MissConfig(x: Xtr, eid: Eid, n: Nonce, sent: bool)
    ensures CacheMiss(x, eid, n, sent).cfg == x.cfg
  {
    hide RetryCallback;
    var m := x.heap;
    var y := x.(entries := x.entries[m := Entry(eid, false, 0, [])], cache := x.cache[eid := m], heap := m + 1);
    var z := NewTimer(y, RequestRetry, m, 0);
    RetryConfig(z.(misses := z.misses[m := Miss(x.now, m + 1, [], [], false, Open)]), m + 1, x.cfg.requestRetries,
                MRQ_TIMEOUT, n, sent);
  }

  lemma SolicitedConfig(x: Xtr, m: Obj, n: Nonce, sent: bool)
    requires m in x.entries
    ensures SolicitedRequest(x, m, n, sent).cfg == x.cfg
  {
    hide RetryCallback;
    RetryConfig(NewTimer(x, SmrRetry, m, 0), x.heap, MAX_SMR_RETRANSMIT, SMR_TIMEOUT, n, sent);
  }

  lemma ReplyConfig(x: Xtr, n: Nonce, recs: seq<Record>, complete: bool)
    requires Base(x)
    ensures (BaseFacts(x); MapReply(x, n, recs, complete).0.cfg == x.cfg)
  {
    hide Base, Inv, RemoveEntry, StopOne, AddMappings, UpdateMapping, Frame;
    BaseFacts(x);
    if n in x.reg.table {
      var m := x.reg.timers[TimerOfNonce(x.reg, n)].obj;
      var y := RemoveEntry(x, m, Answered(x.now));
      RemoveEntryBase(x, m, Answered(x.now));
      RemovedConfig(x, m, Answered(x.now));
      AddMappingsFrame(y, recs);
      FrameKeys(y, AddMappings(y, recs), {}, {});
      if recs != [] { UpdateMappingConfig(x, recs[0]); }
    }
  }

  lemma RemovedConfig(x: Xtr, m: Obj, ending: Ending)
    requires m in x.entries
    ensures RemoveEntry(x, m, ending).cfg == x.cfg
  {
    hide StopAll;
  }

  lemma ProbedConfig(x: Xtr, n: Nonce, rec: Option<Record>, addr: int)
    requires Base(x)
    ensures (BaseFacts(x); ProbeReply(x, n, rec, addr).0.cfg == x.cfg)
  {
    hide Base, Inv, StopOne, Create, SetUp, FindByAddr;
    BaseFacts(x);
  }

  lemma PairsOff(x: Xtr)
    requires x.cfg.probeInterval == 0
    ensures PairsOk(x)
  {}

  /** A run in which every reply is matched. */
  ghost predicate MatchedRun(x: Xtr, es: seq<Event>, y: Xtr)
    requires Good(x)
    decreases |es|
  {
    if es == [] then y == x
    else Enabled(x, es[0]) && Matched(x, es[0]) && (StepGood(x, es[0]); MatchedRun(Step(x, es[0]), es[1..], y))
  }

  lemma {:induction false} RunPairs(x: Xtr, es: seq<Event>, y: Xtr)
    requires Good(x) && PairsOk(x) && MatchedRun(x, es, y)
    ensures PairsOk(y)
    decreases |es|
  {
    hide Good, Enabled, Step, Matched, PairsOk;
    if es != [] {
      StepGood(x, es[0]);
      StepConfig(x, es[0]);
      if x.cfg.probeInterval != 0 { StepPairsIff(x, es[0]); } else { PairsOff(Step(x, es[0])); }
      RunPairs(Step(x, es[0]), es[1..], y);
    }
  }

  /** From the start of the router on, locators and probe timers correspond one to one. */
  lemma ProbesMatchLocators(cfg: Config, eid: Eid, addrs: seq<(int, bool)>, es: seq<Event>, y: Xtr)
    requires cfg.petrs == 0
    requires (StartGood(cfg, eid, addrs); MatchedRun(Start(cfg, eid, addrs), es, y))
    ensures y.cfg.probeInterval != 0 ==> forall m :: m in y.entries ==> Paired(y.reg.timers, m, y.entries[m].locs)
  {
    hide Good, Paired, Start, MatchedRun;
    StartGood(cfg, eid, addrs);
    StartPairs(cfg, eid, addrs);
    RunPairs(Start(cfg, eid, addrs), es, y);
  }

  lemma StartPairs(cfg: Config, eid: Eid, addrs: seq<(int, bool)>)
    requires cfg.petrs == 0
    ensures PairsOk(Start(cfg, eid, addrs))
  {
    hide Base, MissesOk, ProgramProbing, Paired;
    var x := Bare(cfg, eid, addrs);
    BareGood(cfg, eid, addrs);
    MakeLocsDistinct(addrs, 1);
    ProgramProbingOff(x, 0);
    if cfg.probeInterval != 0 { ProgramProbingPairs(x, 0); }
  }

  // ---------- marking a locator down ----------

  /** The i-th locator of entry m is the same before and after, and went from up to down. */
  ghost predicate WentDown(x: Xtr, y: Xtr, m: Obj, i: nat) {
    && m in x.entries && m in y.entries && i < |x.entries[m].locs| && i < |y.entries[m].locs|
    && y.entries[m].locs[i].id == x.entries[m].locs[i].id
    && x.entries[m].locs[i].up && !y.entries[m].locs[i].up
  }

  /** Entries of x that are still in y are unchanged; the others are new. */
  ghost predicate EntriesGrow(x: Xtr, y: Xtr) {
    x.heap <= y.heap
    && forall m :: m in y.entries ==> (m in x.entries && y.entries[m] == x.entries[m]) || m >= x.heap
  }

  lemma {:induction false} ProbeLocatorsEntries(x: Xtr, m: Obj, locs: seq<Loc>)
    ensures var y := ProbeLocators(x, m, locs); y.entries == x.entries && y.cache == x.cache && x.heap <= y.heap
    decreases |locs|
  {
    if locs != [] { ProbeLocatorsEntries(ProbeLocator(x, m, locs[0].id), m, locs[1..]); }
  }

  lemma RefreshEntries(x: Xtr, m: Obj)
    requires m in x.entries
    ensures m in StartExpiry(x, m).entries
    ensures var y := ProgramProbing(StartExpiry(x, m), m); y.entries == x.entries && y.cache == x.cache && x.heap <= y.heap
  {
    hide ProbeLocators, StopKind, Create;
    var z := StartExpiry(x, m);
    ProbeLocatorsEntries(z.(reg := StopKind(z.reg, m, Probing)), m, z.entries[m].locs);
  }

  lemma AddMappingEntries(x: Xtr, rec: Record)
    ensures EntriesGrow(x, AddMapping(x, rec))
  {
    hide StartExpiry, ProgramProbing, MakeLocs;
    var m := x.heap;
    var e := Entry(rec.eid, true, rec.ttl, MakeLocs(rec.addrs, m + 1));
    RefreshEntries(x.(entries := x.entries[m := e],
                      cache := if rec.eid in x.cache then x.cache else x.cache[rec.eid := m],
                      heap := x.heap + 1 + |rec.addrs|), m);
  }

  lemma {:induction false} AddMappingsEntries(x: Xtr, recs: seq<Record>)
    ensures EntriesGrow(x, AddMappings(x, recs))
    decreases |recs|
  {
    hide AddMapping;
    if recs != [] {
      AddMappingEntries(x, recs[0]);
      AddMappingsEntries(AddMapping(x, recs[0]), recs[1..]);
    }
  }

  lemma RetryEntries(x: Xtr, t: Timer, limit: int, timeout: int, n: Nonce, sent: bool)
    requires HasList(x.reg, t) && x.reg.timers[t].obj in x.entries
    ensures EntriesGrow(x, RetryCallback(x, t, limit, timeout, n, sent))
  {
    hide StopAll, AddNonce;
  }

  /** Updating a mapping replaces its locators by new ones; no old one is left to go down. */
  lemma UpdateNoneDown(x: Xtr, rec: Record, m: Obj, i: nat)
    requires Base(x)
    ensures forall e :: e in x.cache ==> x.cache[e] in x.entries
    ensures !WentDown(x, UpdateMapping(x, rec), m, i)
  {
    hide Base, StartExpiry, ProgramProbing, MakeLocs;
    BaseFacts(x);
    if rec.eid in x.cache {
      var k := x.cache[rec.eid];
      var y := x.(entries := x.entries[k := x.entries[k].(locs := MakeLocs(rec.addrs, x.heap))],
                  heap := x.heap + |rec.addrs|);
      RefreshEntries(y, k);
      MakeLocsIds(rec.addrs, x.heap);
      OldIds(x, k);
    }
  }

  lemma OldIds(x: Xtr, m: Obj)
    requires Base(x) && m in x.entries
    ensures forall i :: 0 <= i < |x.entries[m].locs| ==> x.entries[m].locs[i].id < x.heap
  {}

  lemma ReplyNoneDown(x: Xtr, n: Nonce, recs: seq<Record>, complete: bool, m: Obj, i: nat)
    requires Base(x)
    ensures Inv(x.reg)
    ensures forall t :: t in x.reg.timers ==> x.reg.timers[t].obj in x.entries
    ensures forall e :: e in x.cache ==> x.cache[e] in x.entries
    ensures !WentDown(x, MapReply(x, n, recs, complete).0, m, i)
  {
    hide Base, Inv, AddMappings, UpdateMapping, StopOne, StopAll;
    BaseFacts(x);
    if n in x.reg.table {
      var t := TimerOfNonce(x.reg, n);
      var k := x.reg.timers[t].obj;
      AddMappingsEntries(RemoveEntry(x, k, Answered(x.now)), recs);
      if recs != [] { UpdateNoneDown(x, recs[0], m, i); }
    }
  }

  lemma ProbedNoneDown(x: Xtr, n: Nonce, rec: Option<Record>, addr: int, m: Obj, i: nat)
    requires Base(x)
    ensures Inv(x.reg)
    ensures forall e :: e in x.cache ==> x.cache[e] in x.entries
    ensures !WentDown(x, ProbeReply(x, n, rec, addr).0, m, i)
  {
    hide Base, Inv, StopOne, Create, SetUp, FindByAddr;
    BaseFacts(x);
    if m in x.entries && FindByAddr(x.entries[m].locs, addr).Some? {
      SetUpIds(x.entries[m].locs, FindByAddr(x.entries[m].locs, addr).value, true);
    }
  }

  /**
    If a step takes a locator from up to down, the step is the callback of that locator's own probe
    timer, and exactly one plus the retry limit of probes are unanswered at that moment.
   */
  lemma DownOnlyAfterAllProbes(x: Xtr, e: Event, m: Obj, i: nat)
    requires Good(x) && Enabled(x, e) && WentDown(x, Step(x, e), m, i)
    ensures e.Fire? && HasList(x.reg, e.t)
    ensures var rec := x.reg.timers[e.t];
            rec.kind == Probing && rec.obj == m && rec.part == x.entries[m].locs[i].id
            && |NoncesOf(x.reg, e.t)| == Limit(x.cfg, Probing)
  {
    hide Base, MissesOk, SafeReply, OwnEntry, RetryCallback, ProbeCallback, MapReply, ProbeReply, StopAll, SetUp, Limit;
    BaseFacts(x);
    match e {
      case BeginTick => assert false;
      case EndTick => assert false;
      case Fire(t, n, sent) => FireDown(x, t, n, sent, m, i);
      case Missed(eid, n, sent) =>
        MissEntries(x, eid, n, sent);
        assert false;
      case Solicited(k, n, sent) =>
        RetryEntries(NewTimer(x, SmrRetry, k, 0), x.heap, MAX_SMR_RETRANSMIT, SMR_TIMEOUT, n, sent);
        assert false;
      case Reply(n, recs, complete) =>
        ReplyNoneDown(x, n, recs, complete, m, i);
        assert false;
      case Probed(n, rec, addr) =>
        ProbedNoneDown(x, n, rec, addr, m, i);
        assert false;
    }
  }

  lemma MissEntries(x: Xtr, eid: Eid, n: Nonce, sent: bool)
    ensures EntriesGrow(x, CacheMiss(x, eid, n, sent))
  {
    hide RetryCallback;
    var m := x.heap;
    var y := x.(entries := x.entries[m := Entry(eid, false, 0, [])], cache := x.cache[eid := m], heap := m + 1);
    var z := NewTimer(y, RequestRetry, m, 0);
    RetryEntries(z.(misses := z.misses[m := Miss(x.now, m + 1, [], [], false, Open)]), m + 1,
                 x.cfg.requestRetries, MRQ_TIMEOUT, n, sent);
  }

  lemma FireDown(x: Xtr, t: Timer, n: Nonce, sent: bool, m: Obj, i: nat)
    requires Good(x) && Enabled(x, Fire(t, n, sent)) && WentDown(x, Step(x, Fire(t, n, sent)), m, i)
    ensures HasList(x.reg, t)
    ensures var rec := x.reg.timers[t];
            rec.kind == Probing && rec.obj == m && rec.part == x.entries[m].locs[i].id
            && |NoncesOf(x.reg, t)| == Limit(x.cfg, Probing)
  {
    hide Base, MissesOk, ProbeCallback, RetryCallback, StopAll, SetUp;
    FireReady(x, t);
    var y := Expired(x, t);
    match x.reg.timers[t].kind {
      case Probing =>
        ProbeCallbackShape(y, t, n, sent);
        WithinLimit(y, t);
        SetUpIds(x.entries[x.reg.timers[t].obj].locs, x.reg.timers[t].part, false);
      case RequestRetry =>
        RetryEntries(y, t, y.cfg.requestRetries, MRQ_TIMEOUT, n, sent);
      case SmrRetry =>
        RetryEntries(y, t, MAX_SMR_RETRANSMIT, SMR_TIMEOUT, n, sent);
      case _ =>
    }
    BaseFacts(x);
  }

  lemma WithinLimit(x: Xtr, t: Timer)
    requires Base(x) && HasList(x.reg, t)
    ensures |NoncesOf(x.reg, t)| <= Limit(x.cfg, x.reg.timers[t].kind)
  {
    var l := x.reg.timers[t].nonces.value;
    assert l in x.reg.lists && x.reg.lists[l].timer == t;
  }

  /** Over every run, no request ever has more nonces outstanding than its limit. */
  lemma RequestsWithinLimit(x: Xtr, t: Timer)
    requires Reachable(x) && HasList(x.reg, t)
    ensures |NoncesOf(x.reg, t)| <= Limit(x.cfg, x.reg.timers[t].kind)
  {
    hide Base, MissesOk, RunFrom, Limit;
    ReachableGood(x);
    WithinLimit(x, t);
  }
}
