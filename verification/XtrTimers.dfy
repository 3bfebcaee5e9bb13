/**
  What becomes of one timer while everything else goes on: in every step of the router it is left
  exactly as it is, unless the step is its own callback, answers its request, removes its entry, or
  programs the probing of its entry anew.
 */
module XtrTimers {
  import opened Options
  import opened RegistrySpec
  import opened XtrSpec
  import opened XtrInvariant
  import opened XtrRuns
  import opened Seqs
  import XtrMisses

  /** An entry found under its own prefix, or the one of the proxies. */
  ghost predicate Anchored(x: Xtr, m: Obj) {
    m in x.entries && (m == x.cfg.petrs || (x.entries[m].eid in x.cache && x.cache[x.entries[m].eid] == m))
  }

  /** A nonce of both tables that leads to the same timer. */
  ghost predicate SameOwner(r: Registry, r': Registry, n: Nonce) {
    && n in r.table && r.table[n] in r.lists && n in r'.table && r'.table[n] in r'.lists
    && r'.lists[r'.table[n]].timer == r.lists[r.table[n]].timer
  }

  /** Timers other than ts that are still there are the same, new ones have new addresses, old nonces their timers. */
  ghost predicate RegKeep(r: Registry, r': Registry, used: set<Nonce>, heap: int, ts: set<Timer>) {
    && (forall t :: t in r'.timers ==> t in r.timers || t >= heap)
    && (forall t :: t in r.timers && t !in ts && t in r'.timers ==> XtrMisses.SameTimer(r, r', t))
    && (forall n :: n in r'.table && n in used ==> SameOwner(r, r', n))
  }

  /** A timer other than ts goes only with its entry, or when its entry is probed anew. */
  ghost predicate Lost(r: Registry, r': Registry, entries': map<Obj, Entry>, ts: set<Timer>, hit: set<Obj>) {
    forall t :: t in r.timers && t !in ts && t !in r'.timers ==>
      r.timers[t].obj !in entries' || (r.timers[t].kind == Probing && r.timers[t].obj in hit)
  }

  ghost predicate EntKeep(x: Xtr, y: Xtr) {
    && y.cfg == x.cfg && x.heap <= y.heap && x.used <= y.used && x.now <= y.now
    && (forall m :: m in y.entries ==> m in x.entries || m >= x.heap)
    && (forall m :: m in x.entries && m in y.entries ==>
          y.entries[m].eid == x.entries[m].eid && y.entries[m].ttl == x.entries[m].ttl)
    && (forall m :: Anchored(x, m) && m in y.entries ==> Anchored(y, m))
  }

  ghost predicate Keep(x: Xtr, y: Xtr, ts: set<Timer>, hit: set<Obj>) {
    RegKeep(x.reg, y.reg, x.used, x.heap, ts) && Lost(x.reg, y.reg, y.entries, ts, hit) && EntKeep(x, y)
  }

  // ---------- one after the other ----------

  lemma RegThen(a: Registry, b: Registry, c: Registry, used: set<Nonce>, used': set<Nonce>, heap: int, heap': int,
                ts: set<Timer>)
    requires RegKeep(a, b, used, heap, ts) && RegKeep(b, c, used', heap', ts) && used <= used' && heap <= heap'
    requires forall t :: t in a.timers ==> t < heap
    ensures RegKeep(a, c, used, heap, ts)
  {
    forall t | t in a.timers && t !in ts && t in c.timers
      ensures XtrMisses.SameTimer(a, c, t)
    {
      assert t in b.timers;
    }
  }

  lemma LostThen(a: Registry, b: Registry, c: Registry, bs: map<Obj, Entry>, cs: map<Obj, Entry>, heap: int, heap': int,
                 ts: set<Timer>, hit: set<Obj>)
    requires Lost(a, b, bs, ts, hit) && Lost(b, c, cs, ts, hit) && heap <= heap'
    requires forall t :: t in a.timers && t !in ts && t in b.timers ==> b.timers[t] == a.timers[t]
    requires forall t :: t in a.timers ==> a.timers[t].obj < heap
    requires forall m :: m in cs ==> m in bs || m >= heap'
    ensures Lost(a, c, cs, ts, hit)
  {}

  lemma EntThen(x: Xtr, y: Xtr, z: Xtr)
    requires EntKeep(x, y) && EntKeep(y, z) && forall m :: m in x.entries ==> m < x.heap
    ensures EntKeep(x, z)
  {
    forall m | m in x.entries && m in z.entries
      ensures m in y.entries && (Anchored(x, m) ==> Anchored(z, m))
    {
      assert m in y.entries;
    }
  }

  lemma TimerFacts(x: Xtr)
    requires Base(x)
    ensures forall t :: t in x.reg.timers ==> t < x.heap && x.reg.timers[t].obj < x.heap && x.reg.timers[t].obj in x.entries
    ensures forall m :: m in x.entries ==> m < x.heap
    ensures TableOk(x.reg.table, x.reg.lists) && ListsOk(x.reg.lists, x.reg.timers) && x.reg.alarms.Keys <= x.reg.timers.Keys
    ensures forall l :: l in x.reg.lists ==> l < x.heap
    ensures x.reg.table.Keys <= x.used
  {}

  lemma KeepThen(x: Xtr, y: Xtr, z: Xtr, ts: set<Timer>, us: set<Timer>, hit: set<Obj>, hot: set<Obj>,
                 all: set<Timer>, hits: set<Obj>)
    requires Base(x) && Keep(x, y, ts, hit) && Keep(y, z, us, hot) && ts <= all && us <= all && hit <= hits && hot <= hits
    ensures Keep(x, z, all, hits)
  {
    hide Base, RegKeep, Lost, EntKeep, TableOk, ListsOk;
    KeepMore(x, y, ts, all, hit, hits);
    KeepMore(y, z, us, all, hot, hits);
    TimerFacts(x);
    EntFacts(x, y);
    EntFacts(y, z);
    RegThen(x.reg, y.reg, z.reg, x.used, y.used, x.heap, y.heap, all);
    RegSame(x.reg, y.reg, x.used, x.heap, all);
    LostThen(x.reg, y.reg, z.reg, y.entries, z.entries, x.heap, y.heap, all, hits);
    EntThen(x, y, z);
  }

  lemma EntFacts(x: Xtr, y: Xtr)
    requires EntKeep(x, y)
    ensures x.heap <= y.heap && x.used <= y.used && y.cfg == x.cfg && x.now <= y.now
    ensures forall m :: m in y.entries ==> m in x.entries || m >= x.heap
    ensures forall m :: m in x.entries && m in y.entries ==>
              y.entries[m].eid == x.entries[m].eid && y.entries[m].ttl == x.entries[m].ttl
  {}

  lemma RegSame(r: Registry, r': Registry, used: set<Nonce>, heap: int, ts: set<Timer>)
    requires RegKeep(r, r', used, heap, ts)
    ensures forall t :: t in r.timers && t !in ts && t in r'.timers ==> r'.timers[t] == r.timers[t]
  {}

  lemma KeepMore(x: Xtr, y: Xtr, ts: set<Timer>, us: set<Timer>, hit: set<Obj>, hot: set<Obj>)
    requires Keep(x, y, ts, hit) && ts <= us && hit <= hot
    ensures Keep(x, y, us, hot)
  {}

  // ---------- the small steps ----------

  /** Nothing of the registry but the index, and no entry but new ones, has changed. */
  lemma KeepAround(x: Xtr, y: Xtr)
    requires Base(x) && y.cfg == x.cfg && x.heap <= y.heap && x.used <= y.used && x.now <= y.now && y.reg == x.reg
    requires forall m :: m in x.entries ==>
               m in y.entries && y.entries[m].eid == x.entries[m].eid && y.entries[m].ttl == x.entries[m].ttl
    requires forall m :: m in y.entries ==> m in x.entries || m >= x.heap
    requires forall e :: e in x.cache ==> e in y.cache && y.cache[e] == x.cache[e]
    ensures Keep(x, y, {}, {})
  {
    hide Base;
    TimerFacts(x);
  }

  lemma EntSame(x: Xtr, y: Xtr)
    requires y.cfg == x.cfg && x.heap <= y.heap && x.used <= y.used && x.now <= y.now
    requires y.entries == x.entries && y.cache == x.cache
    ensures EntKeep(x, y)
  {}

  lemma LostNone(r: Registry, r': Registry, entries': map<Obj, Entry>, ts: set<Timer>, hit: set<Obj>)
    requires r.timers.Keys <= r'.timers.Keys
    ensures Lost(r, r', entries', ts, hit)
  {}

  lemma KeepNew(x: Xtr, kind: Kind, obj: Obj, part: int)
    requires Base(x)
    ensures Keep(x, NewTimer(x, kind, obj, part), {}, {})
  {
    hide Base, RegKeep, Lost, EntKeep, TableOk, ListsOk;
    var y := NewTimer(x, kind, obj, part);
    TimerFacts(x);
    OwnersKnown(x.reg);
    CreateReg(x.reg, x.heap, y.reg.timers[x.heap], x.used);
    LostNone(x.reg, y.reg, y.entries, {}, {});
    EntSame(x, y);
  }

  lemma CreateReg(r: Registry, t: Timer, rec: TimerRec, used: set<Nonce>)
    requires t !in r.timers && (rec.nonces.Some? ==> rec.nonces.value !in r.lists)
    requires forall n :: n in r.table ==> r.table[n] in r.lists
    ensures RegKeep(r, Create(r, t, rec), used, t, {})
  {}

  lemma KeepArm(x: Xtr, t: Timer, duration: int)
    requires Base(x)
    ensures Keep(x, ArmTimer(x, t, duration), {t}, {})
  {
    hide Base, RegKeep, Lost, EntKeep, Due, TableOk, ListsOk;
    var y := ArmTimer(x, t, duration);
    TimerFacts(x);
    OwnersKnown(x.reg);
    AlarmsReg(x.reg, y.reg, x.used, x.heap, t);
    LostNone(x.reg, y.reg, y.entries, {t}, {});
    EntSame(x, y);
  }

  lemma AlarmsReg(r: Registry, r': Registry, used: set<Nonce>, heap: int, t: Timer)
    requires r' == r.(alarms := r'.alarms) && r'.alarms - {t} == r.alarms - {t}
    requires forall n :: n in r.table ==> r.table[n] in r.lists
    ensures RegKeep(r, r', used, heap, {t})
  {
    forall u | u in r.timers && u != t
      ensures XtrMisses.SameTimer(r, r', u)
    {
      assert u in r'.alarms <==> u in r'.alarms - {t};
      assert u in r.alarms <==> u in r.alarms - {t};
      assert u in r.alarms ==> (r'.alarms - {t})[u] == (r.alarms - {t})[u];
    }
  }

  lemma KeepIssue(x: Xtr, t: Timer, n: Nonce)
    requires Base(x) && HasList(x.reg, t) && n !in x.used
    ensures Keep(x, IssueNonce(x, t, n), {t}, {})
  {
    hide Base, RegKeep, Lost, EntKeep, TableOk;
    var y := IssueNonce(x, t, n);
    TimerFacts(x);
    OwnersKnown(x.reg);
    IssueReg(x.reg, n, x.used, x.heap, t);
    LostNone(x.reg, y.reg, y.entries, {t}, {});
    EntSame(x, y);
  }

  lemma IssueReg(r: Registry, n: Nonce, used: set<Nonce>, heap: int, t: Timer)
    requires HasList(r, t) && ListsOk(r.lists, r.timers) && n !in used
    requires forall k :: k in r.table ==> r.table[k] in r.lists
    ensures RegKeep(r, AddNonce(r, n, r.timers[t].nonces.value), used, heap, {t})
  {}

  lemma OwnersKnown(r: Registry)
    requires TableOk(r.table, r.lists)
    ensures forall n :: n in r.table ==> r.table[n] in r.lists
  {}

  lemma KeepForget(x: Xtr, t: Timer)
    requires Base(x) && HasList(x.reg, t)
    ensures Keep(x, ForgetNonces(x, t), {t}, {})
  {
    hide Base, RegKeep, Lost, EntKeep, TableOk;
    var y := ForgetNonces(x, t);
    TimerFacts(x);
    OwnersKnown(x.reg);
    ForgetReg(x.reg, x.used, x.heap, t);
    LostNone(x.reg, y.reg, y.entries, {t}, {});
    EntSame(x, y);
  }

  lemma ForgetReg(r: Registry, used: set<Nonce>, heap: int, t: Timer)
    requires HasList(r, t) && ListsOk(r.lists, r.timers)
    requires forall k :: k in r.table ==> r.table[k] in r.lists
    ensures RegKeep(r, Reset(r, r.timers[t].nonces.value), used, heap, {t})
  {}

  lemma PurgeReg(r: Registry, r': Registry, used: set<Nonce>, heap: int, gone: set<Timer>)
    requires TableOk(r.table, r.lists) && ListsOk(r.lists, r.timers) && r' == Purge(r, gone).(index := r'.index)
    ensures RegKeep(r, r', used, heap, {})
    ensures forall t :: t in r.timers && t !in r'.timers ==> t in gone
  {}

  lemma KeepStopOne(x: Xtr, o: Obj, t: Timer)
    requires Base(x)
    ensures Keep(x, x.(reg := StopOne(x.reg, o, t)), {t}, {})
  {
    hide Base, EntKeep, Remove, RegKeep, TableOk, ListsOk, Belongs;
    var y := x.(reg := StopOne(x.reg, o, t));
    TimerFacts(x);
    PurgeReg(x.reg, y.reg, x.used, x.heap, {t});
    RegMore(x.reg, y.reg, x.used, x.heap, {}, {t});
    EntSame(x, y);
  }

  lemma RegMore(r: Registry, r': Registry, used: set<Nonce>, heap: int, ts: set<Timer>, us: set<Timer>)
    requires RegKeep(r, r', used, heap, ts) && ts <= us
    ensures RegKeep(r, r', used, heap, us)
  {}

  lemma KeepStopKind(x: Xtr, m: Obj)
    requires Base(x)
    ensures Keep(x, x.(reg := StopKind(x.reg, m, Probing)), {}, {m})
  {
    hide Base, EntKeep, Others, RegKeep, TableOk, ListsOk, Belongs;
    var y := x.(reg := StopKind(x.reg, m, Probing));
    TimerFacts(x);
    PurgeReg(x.reg, y.reg, x.used, x.heap, OfKind(x.reg, m, Probing));
    EntSame(x, y);
  }

  lemma KeepRemove(x: Xtr, m: Obj, ending: Ending)
    requires Base(x) && m in x.entries
    ensures Keep(x, RemoveEntry(x, m, ending), {}, {})
  {
    hide Base, RegKeep, TableOk, ListsOk, Belongs, TimersOf, EntKeep;
    var y := RemoveEntry(x, m, ending);
    TimerFacts(x);
    var eid := x.entries[m].eid;
    if eid in x.cache {
      var d := x.cache[eid];
      PurgeReg(x.reg, y.reg, x.used, x.heap, Elements(TimersOf(x.reg, d)));
      OwnTimers(x, d);
      RemovedEnt(x, m, ending);
    } else {
      KeepAround(x, x);
    }
  }

  lemma OwnTimers(x: Xtr, d: Obj)
    requires Base(x)
    ensures forall t :: t in Elements(TimersOf(x.reg, d)) ==> t in x.reg.timers && x.reg.timers[t].obj == d
  {
    hide Allocated, TimersOk, CacheOk, BoundsOk, ClockOk, TableOk, ListsOk;
  }

  lemma RemovedEnt(x: Xtr, m: Obj, ending: Ending)
    requires Base(x) && m in x.entries && x.entries[m].eid in x.cache
    ensures EntKeep(x, RemoveEntry(x, m, ending))
  {
    hide Inv, Allocated, TimersOk, BoundsOk, ClockOk, StopAll;
  }

  // ---------- the larger steps ----------

  /** A timer that was not there, and an entry that was not, need no exception. */
  lemma KeepLess(x: Xtr, y: Xtr, t: Timer, hit: set<Obj>, m: Obj)
    requires Base(x) && t >= x.heap && m >= x.heap && Keep(x, y, {t}, hit)
    ensures Keep(x, y, {}, hit - {m}) && (hit == {m} || hit == {} ==> Keep(x, y, {}, {}))
  {
    hide Base, EntKeep, TableOk, ListsOk;
    TimerFacts(x);
  }

  lemma KeepSilent(x: Xtr, y: Xtr, z: Xtr, ts: set<Timer>, hit: set<Obj>)
    requires Keep(x, y, ts, hit) && z == y.(misses := z.misses)
    ensures Keep(x, z, ts, hit)
  {
    hide RegKeep, Lost;
    assert forall m :: Anchored(y, m) ==> Anchored(z, m);
  }

  lemma KeepNewArmed(x: Xtr, kind: Kind, obj: Obj, part: int, duration: int)
    requires Base(x) && obj in x.entries && kind in {Expiry, SmrRetry, Probing}
    ensures Keep(x, ArmTimer(NewTimer(x, kind, obj, part), x.heap, duration), {}, {})
  {
    hide Base, Keep, NewTimer, ArmTimer;
    var y := NewTimer(x, kind, obj, part);
    KeepNew(x, kind, obj, part);
    NewTimerBase(x, kind, obj, part);
    KeepArm(y, x.heap, duration);
    KeepThen(x, y, ArmTimer(y, x.heap, duration), {}, {x.heap}, {}, {}, {x.heap}, {});
    KeepLess(x, ArmTimer(y, x.heap, duration), x.heap, {}, x.heap);
  }

  lemma {:induction false} KeepProbes(x: Xtr, m: Obj, locs: seq<Loc>)
    requires Base(x) && m in x.entries
    ensures Keep(x, ProbeLocators(x, m, locs), {}, {})
    decreases |locs|
  {
    hide Base, Keep, ProbeLocator;
    if locs == [] {
      KeepAround(x, x);
    } else {
      var y := ProbeLocator(x, m, locs[0].id);
      ProbeLocatorIs(x, m, locs[0].id);
      KeepNewArmed(x, Probing, m, locs[0].id, x.cfg.probeInterval);
      ProbeLocatorBase(x, m, locs[0].id);
      KeepProbes(y, m, locs[1..]);
      KeepThen(x, y, ProbeLocators(y, m, locs[1..]), {}, {}, {}, {}, {}, {});
    }
  }

  lemma ProbeLocatorIs(x: Xtr, m: Obj, id: int)
    ensures ProbeLocator(x, m, id) == ArmTimer(NewTimer(x, Probing, m, id), x.heap, x.cfg.probeInterval)
    ensures ProbeLocator(x, m, id).entries == x.entries
  {}

  lemma KeepProgram(x: Xtr, m: Obj)
    requires Base(x) && m in x.entries
    ensures Keep(x, ProgramProbing(x, m), {}, {m})
  {
    hide Base, Keep, StopKind, ProbeLocators;
    if x.cfg.probeInterval == 0 {
      KeepAround(x, x);
      KeepMore(x, x, {}, {}, {}, {m});
    } else {
      var y := x.(reg := StopKind(x.reg, m, Probing));
      KeepStopKind(x, m);
      StopKindBase(x, m, Probing);
      KeepProbes(y, m, x.entries[m].locs);
      KeepThen(x, y, ProbeLocators(y, m, x.entries[m].locs), {}, {}, {m}, {}, {}, {m});
    }
  }

  lemma KeepRefresh(x: Xtr, m: Obj)
    requires Base(x) && m in x.entries
    ensures m in StartExpiry(x, m).entries && Keep(x, ProgramProbing(StartExpiry(x, m), m), {}, {m})
  {
    hide Base, Keep, ProgramProbing, NewTimer, ArmTimer;
    var y := StartExpiry(x, m);
    KeepNewArmed(x, Expiry, m, 0, x.entries[m].ttl * 60);
    StartExpiryBase(x, m);
    ExpiryEntries(x, m);
    KeepProgram(y, m);
    KeepThen(x, y, ProgramProbing(y, m), {}, {}, {}, {m}, {}, {m});
  }

  lemma ExpiryEntries(x: Xtr, m: Obj)
    requires m in x.entries
    ensures StartExpiry(x, m).entries == x.entries
  {}

  lemma KeepAdd(x: Xtr, rec: Record)
    requires Base(x)
    ensures Keep(x, AddMapping(x, rec), {}, {})
  {
    hide Base, Keep, StartExpiry, ProgramProbing, MakeLocs;
    var m := x.heap;
    var e := Entry(rec.eid, true, rec.ttl, MakeLocs(rec.addrs, m + 1));
    var y := x.(entries := x.entries[m := e], cache := if rec.eid in x.cache then x.cache else x.cache[rec.eid := m],
                heap := x.heap + 1 + |rec.addrs|);
    TimerFacts(x);
    KeepAround(x, y);
    NewEntryBase(x, e, |rec.addrs|);
    KeepRefresh(y, m);
    KeepThen(x, y, AddMapping(x, rec), {}, {}, {}, {m}, {m}, {m});
    KeepLess(x, AddMapping(x, rec), m, {m}, m);
    assert {m} - {m} == {};
  }

  lemma {:induction false} KeepAddAll(x: Xtr, recs: seq<Record>)
    requires Base(x)
    ensures Keep(x, AddMappings(x, recs), {}, {})
    decreases |recs|
  {
    hide Base, Keep, AddMapping;
    if recs == [] {
      KeepAround(x, x);
    } else {
      KeepAdd(x, recs[0]);
      AddMappingBase(x, recs[0]);
      KeepAddAll(AddMapping(x, recs[0]), recs[1..]);
      KeepThen(x, AddMapping(x, recs[0]), AddMappings(x, recs), {}, {}, {}, {}, {}, {});
    }
  }

  /** The entry that an update for this prefix is made to. */
  ghost function Target(x: Xtr, eid: Eid): set<Obj> {
    if eid in x.cache then {x.cache[eid]} else {}
  }

  lemma KeepUpdate(x: Xtr, rec: Record)
    requires Base(x)
    ensures (BaseFacts(x); Keep(x, UpdateMapping(x, rec), {}, Target(x, rec.eid)))
  {
    hide Base, Keep, StartExpiry, ProgramProbing, MakeLocs;
    BaseFacts(x);
    if rec.eid in x.cache {
      var m := x.cache[rec.eid];
      var locs := MakeLocs(rec.addrs, x.heap);
      var y := x.(entries := x.entries[m := x.entries[m].(locs := locs)], heap := x.heap + |rec.addrs|);
      KeepAround(x, y);
      LocsBelow(rec.addrs, x.heap);
      ReplaceLocsBase(x, m, locs, |rec.addrs|);
      KeepRefresh(y, m);
      KeepThen(x, y, UpdateMapping(x, rec), {}, {}, {}, {m}, {}, {m});
    } else {
      KeepAround(x, x);
    }
  }

  lemma LocsBelow(addrs: seq<(int, bool)>, id: int)
    ensures forall i :: 0 <= i < |MakeLocs(addrs, id)| ==> MakeLocs(addrs, id)[i].id < id + |addrs|
  {}

  lemma KeepRetry(x: Xtr, t: Timer, limit: int, timeout: int, n: Nonce, sent: bool)
    requires Base(x) && HasList(x.reg, t) && x.reg.timers[t].obj in x.entries && n !in x.used
    requires limit + 1 <= Limit(x.cfg, x.reg.timers[t].kind)
    ensures Keep(x, RetryCallback(x, t, limit, timeout, n, sent), {t}, {})
  {
    hide Base, Keep, RemoveEntry, IssueNonce, ArmTimer, Limit;
    var m := x.reg.timers[t].obj;
    var y := RetryCallback(x, t, limit, timeout, n, sent);
    if |NoncesOf(x.reg, t)| - 1 < limit {
      if sent {
        KeepSend(x, t, timeout, n);
        SentIs(x, t, timeout, n);
        KeepSilent(x, ArmTimer(IssueNonce(x, t, n), t, timeout), y, {t}, {});
      } else {
        KeepAround(x, x);
        KeepSilent(x, x, y, {}, {});
        KeepMore(x, y, {}, {t}, {}, {});
      }
    } else {
      KeepRemove(x, m, if x.reg.timers[t].kind == RequestRetry then TimedOut(x.now) else Displaced(x.now));
      KeepMore(x, y, {}, {t}, {}, {});
    }
  }

  lemma KeepSend(x: Xtr, t: Timer, timeout: int, n: Nonce)
    requires Base(x) && HasList(x.reg, t) && n !in x.used && |NoncesOf(x.reg, t)| < Limit(x.cfg, x.reg.timers[t].kind)
    ensures Keep(x, ArmTimer(IssueNonce(x, t, n), t, timeout), {t}, {})
  {
    hide Base, Keep, IssueNonce, ArmTimer;
    KeepIssue(x, t, n);
    IssueBase(x, t, n);
    KeepArm(IssueNonce(x, t, n), t, timeout);
    KeepThen(x, IssueNonce(x, t, n), ArmTimer(IssueNonce(x, t, n), t, timeout), {t}, {t}, {}, {}, {t}, {});
  }

  /** The history of misses does not matter to a send. */
  lemma SentIs(x: Xtr, t: Timer, timeout: int, n: Nonce)
    requires HasList(x.reg, t)
    ensures forall ms :: ArmTimer(IssueNonce(x.(misses := ms), t, n), t, timeout)
                         == ArmTimer(IssueNonce(x, t, n), t, timeout).(misses := ms)
  {}

  lemma KeepProbeCallback(x: Xtr, t: Timer, n: Nonce, sent: bool)
    requires Base(x) && HasList(x.reg, t) && x.reg.timers[t].obj in x.entries && x.reg.timers[t].kind == Probing && n !in x.used
    ensures Keep(x, ProbeCallback(x, t, n, sent), {t}, {})
  {
    hide Base, Keep, IssueNonce, ArmTimer, ForgetNonces, MarkLocator, IsUp;
    var m, id := x.reg.timers[t].obj, x.reg.timers[t].part;
    KeepAround(x, x);
    KeepMore(x, x, {}, {t}, {}, {});
    if |NoncesOf(x.reg, t)| - 1 < x.cfg.probeRetries {
      if sent { KeepSend(x, t, x.cfg.probeRetryInterval, n); }
    } else {
      var y := if IsUp(x.entries[m].locs, id) then MarkLocator(x, m, id, false) else x;
      KeepMark(x, m, id, false);
      MarkLocatorBase(x, m, id, false);
      MarkLocatorShape(x, m, id, false);
      KeepMore(x, y, {}, {t}, {}, {});
      KeepForget(y, t);
      ForgetBase(y, t);
      var z := ForgetNonces(y, t);
      KeepArm(z, t, x.cfg.probeInterval);
      KeepThen(x, y, z, {t}, {t}, {}, {}, {t}, {});
      KeepThen(x, z, ArmTimer(z, t, x.cfg.probeInterval), {t}, {t}, {}, {}, {t}, {});
    }
  }

  lemma KeepMark(x: Xtr, m: Obj, id: int, up: bool)
    requires Base(x) && m in x.entries
    ensures Keep(x, MarkLocator(x, m, id, up), {}, {})
  {
    hide Base, Keep, SetUp;
    KeepAround(x, MarkLocator(x, m, id, up));
  }

  lemma KeepAnswered(x: Xtr, m: Obj, addr: int)
    requires Base(x) && m in x.entries
    ensures Keep(x, ProbeAnswered(x, m, addr), {}, {})
  {
    hide Base, Keep, FindByAddr, MarkLocator, ProbeLocator;
    match FindByAddr(x.entries[m].locs, addr)
    case None => KeepAround(x, x);
    case Some(id) =>
      var y := MarkLocator(x, m, id, true);
      KeepMark(x, m, id, true);
      MarkLocatorBase(x, m, id, true);
      MarkLocatorShape(x, m, id, true);
      ProbeLocatorIs(y, m, id);
      KeepNewArmed(y, Probing, m, id, y.cfg.probeInterval);
      KeepThen(x, y, ProbeLocator(y, m, id), {}, {}, {}, {}, {}, {});
  }

  // ---------- every event ----------

  /** The timer whose own step an event is: it fires, or a reply bears one of its nonces. */
  ghost function Touched(x: Xtr, e: Event): set<Timer>
    requires Inv(x.reg)
  {
    match e
    case Fire(t, _, _) => {t}
    case Reply(n, _, _) => if n in x.reg.table then {TimerOfNonce(x.reg, n)} else {}
    case Probed(n, _, _) => if n in x.reg.table then {TimerOfNonce(x.reg, n)} else {}
    case _ => {}
  }

  /** The entry whose probing an event programs anew. */
  ghost function Reprogrammed(x: Xtr, e: Event): set<Obj> {
    if e.Reply? && e.recs != [] then Target(x, e.recs[0].eid) else {}
  }

  lemma KeepExpired(x: Xtr, t: Timer)
    requires Base(x)
    ensures Keep(x, Expired(x, t), {t}, {})
  {
    hide Base, RegKeep, Lost, EntKeep, TableOk, ListsOk;
    var y := Expired(x, t);
    TimerFacts(x);
    OwnersKnown(x.reg);
    AlarmsReg(x.reg, y.reg, x.used, x.heap, t);
    LostNone(x.reg, y.reg, y.entries, {t}, {});
    EntSame(x, y);
  }

  lemma FireKeep(x: Xtr, t: Timer, n: Nonce, sent: bool)
    requires Good(x) && Enabled(x, Fire(t, n, sent))
    ensures Keep(x, Step(x, Fire(t, n, sent)), {t}, {})
  {
    hide Base, XtrMisses.MissesOk, Keep, RetryCallback, ProbeCallback, RemoveEntry;
    FireReady(x, t);
    var y, z := Expired(x, t), Step(x, Fire(t, n, sent));
    KeepExpired(x, t);
    match x.reg.timers[t].kind {
      case Expiry =>
        KeepRemove(y, y.reg.timers[t].obj, Displaced(y.now));
        KeepMore(y, z, {}, {t}, {}, {});
      case RequestRetry => KeepRetry(y, t, y.cfg.requestRetries, MRQ_TIMEOUT, n, sent);
      case SmrRetry => KeepRetry(y, t, MAX_SMR_RETRANSMIT, SMR_TIMEOUT, n, sent);
      case Probing => KeepProbeCallback(y, t, n, sent);
    }
    KeepThen(x, y, z, {t}, {t}, {}, {}, {t}, {});
  }

  lemma PlaceholderKeep(x: Xtr, eid: Eid)
    requires Base(x) && eid !in x.cache
    ensures var m := x.heap;
            var y := x.(entries := x.entries[m := Entry(eid, false, 0, [])], cache := x.cache[eid := m], heap := m + 1);
            var z := NewTimer(y, RequestRetry, m, 0);
            Base(z) && Keep(x, z, {}, {})
  {
    hide Base, Keep, NewTimer, TableOk, ListsOk;
    var m := x.heap;
    var y := x.(entries := x.entries[m := Entry(eid, false, 0, [])], cache := x.cache[eid := m], heap := m + 1);
    TimerFacts(x);
    KeepAround(x, y);
    PlaceholderBase(x, eid);
    KeepNew(y, RequestRetry, m, 0);
    NewTimerBase(y, RequestRetry, m, 0);
    KeepThen(x, y, NewTimer(y, RequestRetry, m, 0), {}, {}, {}, {}, {}, {});
  }

  lemma MissKeep(x: Xtr, eid: Eid, n: Nonce, sent: bool)
    requires Base(x) && eid !in x.cache && n !in x.used
    ensures Keep(x, CacheMiss(x, eid, n, sent), {}, {})
  {
    hide Base, Keep, RetryCallback;
    var m := x.heap;
    var y := x.(entries := x.entries[m := Entry(eid, false, 0, [])], cache := x.cache[eid := m], heap := m + 1);
    var z := NewTimer(y, RequestRetry, m, 0);
    PlaceholderKeep(x, eid);
    var w := z.(misses := z.misses[m := Miss(x.now, m + 1, [], [], false, Open)]);
    KeepSilent(x, z, w, {}, {});
    BaseFacts(z);
    MissesBase(z, w.misses);
    KeepRetry(w, m + 1, x.cfg.requestRetries, MRQ_TIMEOUT, n, sent);
    KeepThen(x, w, CacheMiss(x, eid, n, sent), {}, {m + 1}, {}, {}, {m + 1}, {});
    KeepLess(x, CacheMiss(x, eid, n, sent), m + 1, {}, m);
  }

  lemma SolicitedKeep(x: Xtr, m: Obj, n: Nonce, sent: bool)
    requires Base(x) && m in x.entries && n !in x.used
    ensures Keep(x, SolicitedRequest(x, m, n, sent), {}, {})
  {
    hide Base, Keep, RetryCallback;
    var y, z := NewTimer(x, SmrRetry, m, 0), SolicitedRequest(x, m, n, sent);
    KeepNew(x, SmrRetry, m, 0);
    NewTimerBase(x, SmrRetry, m, 0);
    KeepRetry(y, x.heap, MAX_SMR_RETRANSMIT, SMR_TIMEOUT, n, sent);
    KeepThen(x, y, z, {}, {x.heap}, {}, {}, {x.heap}, {});
    KeepLess(x, z, x.heap, {}, x.heap);
  }

  lemma ReplyKeep(x: Xtr, n: Nonce, recs: seq<Record>, complete: bool)
    requires Good(x) && Enabled(x, Reply(n, recs, complete))
    ensures Inv(x.reg)
    ensures var e := Reply(n, recs, complete); Keep(x, Step(x, e), Touched(x, e), Reprogrammed(x, e))
  {
    hide Base, XtrMisses.MissesOk, Inv, Keep, AddMappings, UpdateMapping, RemoveEntry, StopOne, Survives, Target;
    BaseFacts(x);
    var e := Reply(n, recs, complete);
    KeepAround(x, x);
    KeepMore(x, x, {}, Touched(x, e), {}, Reprogrammed(x, e));
    if n in x.reg.table {
      var t := TimerOfNonce(x.reg, n);
      var m := x.reg.timers[t].obj;
      if !x.entries[m].active {
        var y := RemoveEntry(x, m, Answered(x.now));
        KeepRemove(x, m, Answered(x.now));
        RemoveEntryBase(x, m, Answered(x.now));
        KeepAddAll(y, recs);
        KeepThen(x, y, AddMappings(y, recs), {}, {}, {}, {}, {t}, Reprogrammed(x, e));
      } else if recs != [] {
        var y := UpdateMapping(x, recs[0]);
        KeepUpdate(x, recs[0]);
        UpdateMappingBase(x, recs[0]);
        KeepStopOne(y, m, t);
        KeepThen(x, y, y.(reg := StopOne(y.reg, m, t)), {}, {t}, Target(x, recs[0].eid), {}, {t}, Target(x, recs[0].eid));
      }
    }
  }

  lemma ProbedKeep(x: Xtr, n: Nonce, rec: Option<Record>, addr: int)
    requires Good(x) && Enabled(x, Probed(n, rec, addr))
    ensures Inv(x.reg)
    ensures var e := Probed(n, rec, addr); Keep(x, Step(x, e), Touched(x, e), {})
  {
    hide Base, XtrMisses.MissesOk, Inv, Keep, ProbeAnswered, StopOne, Silence, OwnEntry;
    BaseFacts(x);
    var e := Probed(n, rec, addr);
    KeepAround(x, x);
    KeepMore(x, x, {}, Touched(x, e), {}, {});
    if n in x.reg.table && rec.Some? && ProbedEntry(x, rec.value.eid).Some? {
      var t, m := TimerOfNonce(x.reg, n), ProbedEntry(x, rec.value.eid).value;
      var y := ProbeAnswered(x, m, addr);
      KeepAnswered(x, m, addr);
      ProbeAnsweredBase(x, m, addr);
      var z := y.(reg := StopOne(y.reg, m, t));
      KeepStopOne(y, m, t);
      KeepThen(x, y, z, {}, {t}, {}, {}, {t}, {});
      KeepSilent(x, z, Step(x, e), {t}, {});
    }
  }

  /** In every step a timer that the step is not about is left as it is, or goes with its entry or its probing. */
  lemma StepKeep(x: Xtr, e: Event)
    requires Good(x) && Enabled(x, e)
    ensures Inv(x.reg) && Keep(x, Step(x, e), Touched(x, e), Reprogrammed(x, e))
  {
    hide Base, XtrMisses.MissesOk, Inv, Keep, SafeReply, OwnEntry, CacheMiss, SolicitedRequest, MapReply, ProbeReply, Callback;
    BaseFacts(x);
    match e {
      case BeginTick => ClockKeep(x, Step(x, e));
      case EndTick => ClockKeep(x, Step(x, e));
      case Fire(t, n, sent) => FireKeep(x, t, n, sent);
      case Missed(eid, n, sent) => MissKeep(x, eid, n, sent);
      case Solicited(m, n, sent) => SolicitedKeep(x, m, n, sent);
      case Reply(n, recs, complete) => ReplyKeep(x, n, recs, complete);
      case Probed(n, rec, addr) => ProbedKeep(x, n, rec, addr);
    }
  }

  lemma ClockKeep(x: Xtr, y: Xtr)
    requires Base(x) && y == x.(now := y.now, ticking := y.ticking) && x.now <= y.now
    ensures Keep(x, y, {}, {})
  {
    hide Base, Keep;
    KeepAround(x, y);
  }
}
