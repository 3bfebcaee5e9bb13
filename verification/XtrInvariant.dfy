/** What every handler and callback of the tunnel router keeps. */
module XtrInvariant {
  import opened Options
  import opened Seqs
  import opened RegistrySpec
  import opened XtrSpec

  /** Everything allocated lies below the heap mark. */
  ghost predicate Allocated(timers: map<Timer, TimerRec>, lists: map<ListId, NonceList>,
                            entries: map<Obj, Entry>, misses: map<Obj, Miss>, heap: int)
  {
    && (forall t :: t in timers ==> t < heap)
    && (forall l :: l in lists ==> l < heap)
    && (forall m :: m in entries ==> m < heap)
    && (forall m :: m in misses ==> m < heap && misses[m].timer < heap)
    && (forall m, i :: m in entries && 0 <= i < |entries[m].locs| ==> entries[m].locs[i].id < heap)
  }

  /** Every timer belongs to an entry that still exists, and is of the kind its entry may have. */
  ghost predicate TimersOk(timers: map<Timer, TimerRec>, entries: map<Obj, Entry>) {
    forall t :: t in timers ==>
      && timers[t].obj in entries
      && timers[t].kind in {Expiry, RequestRetry, SmrRetry, Probing}
      && (timers[t].nonces.Some? <==> timers[t].kind != Expiry)
      && (timers[t].kind == RequestRetry ==> !entries[timers[t].obj].active)
  }

  /** Cached entries exist under their own prefix; a placeholder is always reachable through the cache. */
  ghost predicate CacheOk(cache: map<Eid, Obj>, entries: map<Obj, Entry>, petrs: Obj) {
    && (forall e :: e in cache ==> cache[e] in entries && entries[cache[e]].eid == e && cache[e] != petrs)
    && (forall m :: m in entries && !entries[m].active ==> entries[m].eid in cache && cache[entries[m].eid] == m)
    && petrs in entries
  }

  /** How many requests a timer of this kind may have outstanding. */
  function Limit(cfg: Config, kind: Kind): nat {
    var retries := match kind
      case RequestRetry => cfg.requestRetries
      case SmrRetry => MAX_SMR_RETRANSMIT
      case _ => cfg.probeRetries;
    if retries + 1 > 0 then retries + 1 else 0
  }

  ghost predicate BoundsOk(timers: map<Timer, TimerRec>, lists: map<ListId, NonceList>, cfg: Config) {
    forall l :: l in lists && lists[l].timer in timers ==>
      |lists[l].nonces| <= Limit(cfg, timers[lists[l].timer].kind)
  }

  /** No alarm is overdue. */
  ghost predicate ClockOk(alarms: map<Timer, nat>, now: nat, ticking: bool) {
    forall t :: t in alarms ==> (if ticking then now <= alarms[t] else now < alarms[t])
  }

  ghost predicate Base(x: Xtr) {
    && Inv(x.reg)
    && Allocated(x.reg.timers, x.reg.lists, x.entries, x.misses, x.heap)
    && TimersOk(x.reg.timers, x.entries)
    && CacheOk(x.cache, x.entries, x.cfg.petrs)
    && BoundsOk(x.reg.timers, x.reg.lists, x.cfg)
    && ClockOk(x.reg.alarms, x.now, x.ticking)
    && x.reg.table.Keys <= x.used
  }

  lemma BaseFacts(x: Xtr)
    requires Base(x)
    ensures Inv(x.reg)
    ensures forall t :: t in x.reg.timers ==> x.reg.timers[t].obj in x.entries
    ensures forall e :: e in x.cache ==> x.cache[e] in x.entries
    ensures forall m :: m in x.misses ==> m < x.heap && x.misses[m].timer < x.heap
    ensures forall m :: m in x.entries ==> m < x.heap
    ensures x.cfg.petrs in x.entries
  {}

  // ---------- the small steps ----------

  lemma NewTimerBase(x: Xtr, kind: Kind, obj: Obj, part: int)
    requires Base(x) && obj in x.entries
    requires kind in {Expiry, SmrRetry, Probing} || (kind == RequestRetry && !x.entries[obj].active)
    ensures Base(NewTimer(x, kind, obj, part))
    ensures var y := NewTimer(x, kind, obj, part);
            x.heap in y.reg.timers && (kind != Expiry ==> HasList(y.reg, x.heap) && NoncesOf(y.reg, x.heap) == [])
  {
    hide Inv, Fresh, Allocated, TimersOk, CacheOk, BoundsOk, ClockOk;
    var rec := TimerRec(kind, obj, part, if kind == Expiry then None else Some(x.heap + 1));
    HeapIsFresh(x, rec);
    CreateKeepsInv(x.reg, x.heap, rec);
    NewTimerParts(x.reg.timers, x.reg.lists, x.entries, x.misses, x.heap, x.cfg, rec);
  }

  lemma HeapIsFresh(x: Xtr, rec: TimerRec)
    requires Base(x) && rec.nonces == (if rec.kind == Expiry then None else Some(x.heap + 1))
    ensures Fresh(x.reg, x.heap, rec) && ListsOk(x.reg.lists, x.reg.timers)
  {
    hide TimersOk, CacheOk, BoundsOk, ClockOk;
  }

  lemma NewTimerKind(x: Xtr, kind: Kind, obj: Obj, part: int)
    ensures var y := NewTimer(x, kind, obj, part);
            x.heap in y.reg.timers && y.reg.timers[x.heap].kind == kind
  {}

  lemma NewTimerParts(timers: map<Timer, TimerRec>, lists: map<ListId, NonceList>, entries: map<Obj, Entry>,
                      misses: map<Obj, Miss>, heap: int, cfg: Config, rec: TimerRec)
    requires Allocated(timers, lists, entries, misses, heap) && TimersOk(timers, entries)
    requires BoundsOk(timers, lists, cfg) && ListsOk(lists, timers)
    requires rec.obj in entries && rec.kind in {Expiry, RequestRetry, SmrRetry, Probing}
    requires rec.kind == RequestRetry ==> !entries[rec.obj].active
    requires rec.nonces == if rec.kind == Expiry then None else Some(heap + 1)
    ensures var timers' := timers[heap := rec];
            var lists' := if rec.nonces.Some? then lists[rec.nonces.value := NonceList([], heap)] else lists;
            && Allocated(timers', lists', entries, misses, heap + 2)
            && TimersOk(timers', entries)
            && BoundsOk(timers', lists', cfg)
  {}

  lemma ArmBase(x: Xtr, t: Timer, duration: int)
    requires Base(x) && t in x.reg.timers
    ensures Base(ArmTimer(x, t, duration))
  {
    hide TableOk, ListsOk, IndexOk, Allocated, TimersOk, CacheOk, BoundsOk;
  }

  lemma IssueBase(x: Xtr, t: Timer, n: Nonce)
    requires Base(x) && HasList(x.reg, t) && n !in x.used
    requires |NoncesOf(x.reg, t)| < Limit(x.cfg, x.reg.timers[t].kind)
    ensures Base(IssueNonce(x, t, n))
  {
    var l := x.reg.timers[t].nonces.value;
    AddNonceKeepsInv(x.reg, n, l);
    assert x.reg.lists[l].timer == t;
    hide Inv, TableOk, ListsOk, IndexOk, TimersOk, CacheOk, ClockOk, Limit;
  }

  lemma ForgetBase(x: Xtr, t: Timer)
    requires Base(x) && HasList(x.reg, t)
    ensures Base(ForgetNonces(x, t))
  {
    ResetKeepsInv(x.reg, x.reg.timers[t].nonces.value);
    hide Inv, TableOk, ListsOk, IndexOk, TimersOk, CacheOk, ClockOk, Limit;
  }

  lemma PurgeBase(x: Xtr, r': Registry, ts: set<Timer>)
    requires Base(x) && Inv(r') && r' == Purge(x.reg, ts).(index := r'.index)
    ensures Base(x.(reg := r'))
  {
    PurgeExact(x.reg, ts);
    hide Inv, Purge, CacheOk, Limit;
  }

  // ---------- entries ----------

  lemma RemoveEntryBase(x: Xtr, m: Obj, ending: Ending)
    requires Base(x) && m in x.entries
    ensures Base(RemoveEntry(x, m, ending))
  {
    hide Base, Inv, Purge;
    BaseFacts(x);
    var eid := x.entries[m].eid;
    if eid in x.cache {
      var d := x.cache[eid];
      var ts := Elements(TimersOf(x.reg, d));
      StopAllKeepsInv(x.reg, d);
      PurgeBase(x, StopAll(x.reg, d), ts);
      PurgeExact(x.reg, ts);
      forall t | t in x.reg.timers
        ensures t in ts <==> x.reg.timers[t].obj == d
      {
        StopAllTargets(x.reg, d, t);
      }
      RemoveParts(x, StopAll(x.reg, d), d, eid, ending);
    }
  }

  lemma RemoveParts(x: Xtr, r': Registry, d: Obj, eid: Eid, ending: Ending)
    requires Base(x) && Base(x.(reg := r')) && eid in x.cache && d == x.cache[eid]
    requires forall t :: t in r'.timers ==> r'.timers[t].obj != d
    ensures Base(x.(cache := x.cache - {eid}, reg := r', entries := x.entries - {d},
                    misses := Settle(x.misses, d, ending)))
  {
    hide Inv, BoundsOk, ClockOk;
  }

  lemma ProbeLocatorBase(x: Xtr, m: Obj, id: int)
    requires Base(x) && m in x.entries
    ensures Base(ProbeLocator(x, m, id))
  {
    NewTimerBase(x, Probing, m, id);
    ArmBase(NewTimer(x, Probing, m, id), x.heap, x.cfg.probeInterval);
  }

  lemma {:induction false} ProbeLocatorsBase(x: Xtr, m: Obj, locs: seq<Loc>)
    requires Base(x) && m in x.entries
    ensures Base(ProbeLocators(x, m, locs))
    decreases |locs|
  {
    if locs != [] {
      ProbeLocatorBase(x, m, locs[0].id);
      ProbeLocatorsBase(ProbeLocator(x, m, locs[0].id), m, locs[1..]);
    }
  }

  lemma StopKindBase(x: Xtr, m: Obj, kind: Kind)
    requires Base(x)
    ensures Base(x.(reg := StopKind(x.reg, m, kind)))
  {
    StopKindKeepsInv(x.reg, m, kind);
    PurgeBase(x, StopKind(x.reg, m, kind), OfKind(x.reg, m, kind));
  }

  lemma StopOneBase(x: Xtr, t: Timer)
    requires Base(x) && t in x.reg.timers
    ensures Base(x.(reg := StopOne(x.reg, x.reg.timers[t].obj, t)))
  {
    StopOneKeepsInvIff(x.reg, x.reg.timers[t].obj, t);
    PurgeBase(x, StopOne(x.reg, x.reg.timers[t].obj, t), {t});
  }

  lemma ProgramProbingBase(x: Xtr, m: Obj)
    requires Base(x) && m in x.entries
    ensures Base(ProgramProbing(x, m))
  {
    hide Base, StopKind, ProbeLocators;
    StopKindBase(x, m, Probing);
    ProbeLocatorsBase(x.(reg := StopKind(x.reg, m, Probing)), m, x.entries[m].locs);
  }

  lemma StartExpiryBase(x: Xtr, m: Obj)
    requires Base(x) && m in x.entries
    ensures Base(StartExpiry(x, m))
  {
    NewTimerBase(x, Expiry, m, 0);
    ArmBase(NewTimer(x, Expiry, m, 0), x.heap, x.entries[m].ttl * 60);
  }

  /** A new active entry, entered in the cache only if its prefix is free. */
  lemma NewEntryBase(x: Xtr, e: Entry, room: nat)
    requires Base(x) && e.active
    requires forall i :: 0 <= i < |e.locs| ==> e.locs[i].id < x.heap + 1 + room
    ensures Base(x.(entries := x.entries[x.heap := e],
                    cache := if e.eid in x.cache then x.cache else x.cache[e.eid := x.heap],
                    heap := x.heap + 1 + room))
  {
    hide Inv, BoundsOk, ClockOk;
  }

  lemma ReplaceLocsBase(x: Xtr, m: Obj, locs: seq<Loc>, room: nat)
    requires Base(x) && m in x.entries
    requires forall i :: 0 <= i < |locs| ==> locs[i].id < x.heap + room
    ensures Base(x.(entries := x.entries[m := x.entries[m].(locs := locs)], heap := x.heap + room))
  {
    hide Inv, BoundsOk, ClockOk;
  }

  lemma AddMappingBase(x: Xtr, rec: Record)
    requires Base(x)
    ensures Base(AddMapping(x, rec))
  {
    hide Base, ProgramProbing, Create;
    var m := x.heap;
    var e := Entry(rec.eid, true, rec.ttl, MakeLocs(rec.addrs, m + 1));
    NewEntryBase(x, e, |rec.addrs|);
    var y := x.(entries := x.entries[m := e],
                cache := if rec.eid in x.cache then x.cache else x.cache[rec.eid := m],
                heap := x.heap + 1 + |rec.addrs|);
    StartExpiryBase(y, m);
    ProgramProbingBase(StartExpiry(y, m), m);
  }

  lemma UpdateMappingBase(x: Xtr, rec: Record)
    requires Base(x)
    ensures forall e :: e in x.cache ==> x.cache[e] in x.entries
    ensures Base(UpdateMapping(x, rec))
  {
    hide Base, ProgramProbing, Create;
    BaseFacts(x);
    if rec.eid in x.cache {
      var m := x.cache[rec.eid];
      var locs := MakeLocs(rec.addrs, x.heap);
      ReplaceLocsBase(x, m, locs, |rec.addrs|);
      var y := x.(entries := x.entries[m := x.entries[m].(locs := locs)], heap := x.heap + |rec.addrs|);
      StartExpiryBase(y, m);
      ProgramProbingBase(StartExpiry(y, m), m);
    }
  }

  // ---------- callbacks ----------

  /** Bookkeeping in the history of misses changes nothing the daemon stores. */
  lemma MissesBase(x: Xtr, misses: map<Obj, Miss>)
    requires Base(x)
    requires forall m :: m in misses ==> m < x.heap && misses[m].timer < x.heap
    ensures Base(x.(misses := misses))
  {
    hide Inv, BoundsOk, ClockOk, TimersOk, CacheOk;
  }

  lemma RetryCallbackBase(x: Xtr, t: Timer, limit: int, timeout: int, n: Nonce, sent: bool)
    requires Base(x) && HasList(x.reg, t) && n !in x.used
    requires limit + 1 <= Limit(x.cfg, x.reg.timers[t].kind)
    ensures Base(RetryCallback(x, t, limit, timeout, n, sent))
  {
    var m := x.reg.timers[t].obj;
    if |NoncesOf(x.reg, t)| - 1 < limit {
      MissesBase(x, LogStall(x.misses, m, t));
      MissesBase(x, LogSend(x.misses, m, t, n, x.now));
      var y := x.(misses := LogSend(x.misses, m, t, n, x.now));
      IssueBase(y, t, n);
      ArmBase(IssueNonce(y, t, n), t, timeout);
      hide Base;
    } else {
      RemoveEntryBase(x, m, if x.reg.timers[t].kind == RequestRetry then TimedOut(x.now) else Displaced(x.now));
      hide Base;
    }
  }

  lemma {:induction false} SetUpIds(locs: seq<Loc>, id: int, up: bool)
    ensures |SetUp(locs, id, up)| == |locs|
    ensures forall i :: 0 <= i < |locs| ==>
              SetUp(locs, id, up)[i] == if locs[i].id == id then locs[i].(up := up) else locs[i]
  {
    if locs != [] { SetUpIds(locs[1..], id, up); }
  }

  lemma MarkLocatorBase(x: Xtr, m: Obj, id: int, up: bool)
    requires Base(x) && m in x.entries
    ensures Base(MarkLocator(x, m, id, up))
  {
    SetUpIds(x.entries[m].locs, id, up);
    ReplaceLocsBase(x, m, SetUp(x.entries[m].locs, id, up), 0);
    hide Base;
  }

  lemma IssueShape(x: Xtr, t: Timer, n: Nonce)
    requires HasList(x.reg, t)
    ensures IssueNonce(x, t, n).reg.timers == x.reg.timers
  {}

  lemma ForgetShape(x: Xtr, t: Timer)
    requires HasList(x.reg, t)
    ensures ForgetNonces(x, t).reg.timers == x.reg.timers
  {}

  lemma ProbeCallbackBase(x: Xtr, t: Timer, n: Nonce, sent: bool)
    requires Base(x) && HasList(x.reg, t) && x.reg.timers[t].kind == Probing && n !in x.used
    ensures x.reg.timers[t].obj in x.entries
    ensures Base(ProbeCallback(x, t, n, sent))
  {
    hide Base, MarkLocator, Reset, AddNonce, IsUp, Due;
    BaseFacts(x);
    var m, id := x.reg.timers[t].obj, x.reg.timers[t].part;
    if |NoncesOf(x.reg, t)| - 1 < x.cfg.probeRetries {
      IssueBase(x, t, n);
      IssueShape(x, t, n);
      ArmBase(IssueNonce(x, t, n), t, x.cfg.probeRetryInterval);
    } else {
      MarkLocatorBase(x, m, id, false);
      MarkLocatorShape(x, m, id, false);
      var y := if IsUp(x.entries[m].locs, id) then MarkLocator(x, m, id, false) else x;
      ForgetBase(y, t);
      ForgetShape(y, t);
      ArmBase(ForgetNonces(y, t), t, x.cfg.probeInterval);
    }
  }

  lemma ReadyToFire(x: Xtr, t: Timer)
    requires Base(x) && t in x.reg.timers
    ensures CallbackReady(x, t)
  {
    hide BoundsOk, ClockOk, CacheOk, Allocated;
  }

  lemma CallbackBase(x: Xtr, t: Timer, n: Nonce, sent: bool)
    requires Base(x) && t in x.reg.timers && n !in x.used
    ensures CallbackReady(x, t)
    ensures Base(Callback(x, t, n, sent))
  {
    ReadyToFire(x, t);
    match x.reg.timers[t].kind {
      case Expiry => RemoveEntryBase(x, x.reg.timers[t].obj, Displaced(x.now));
      case RequestRetry => RetryCallbackBase(x, t, x.cfg.requestRetries, MRQ_TIMEOUT, n, sent);
      case SmrRetry => RetryCallbackBase(x, t, MAX_SMR_RETRANSMIT, SMR_TIMEOUT, n, sent);
      case Probing => ProbeCallbackBase(x, t, n, sent);
      case _ =>
    }
    hide Base;
  }

  // ---------- events ----------

  lemma CacheMissBase(x: Xtr, eid: Eid, n: Nonce, sent: bool)
    requires Base(x) && eid !in x.cache && n !in x.used
    ensures Base(CacheMiss(x, eid, n, sent))
  {
    hide Base, RetryCallback;
    BaseFacts(x);
    var m := x.heap;
    var y := x.(entries := x.entries[m := Entry(eid, false, 0, [])], cache := x.cache[eid := m], heap := m + 1);
    PlaceholderBase(x, eid);
    NewTimerBase(y, RequestRetry, m, 0);
    var z := NewTimer(y, RequestRetry, m, 0);
    var w := z.(misses := z.misses[m := Miss(x.now, m + 1, [], [], false, Open)]);
    MissesBase(z, w.misses);
    RetryCallbackBase(w, m + 1, x.cfg.requestRetries, MRQ_TIMEOUT, n, sent);
  }

  lemma PlaceholderBase(x: Xtr, eid: Eid)
    requires Base(x) && eid !in x.cache
    ensures Base(x.(entries := x.entries[x.heap := Entry(eid, false, 0, [])],
                    cache := x.cache[eid := x.heap], heap := x.heap + 1))
  {
    hide Inv, BoundsOk, ClockOk;
  }

  lemma SolicitedRequestBase(x: Xtr, m: Obj, n: Nonce, sent: bool)
    requires Base(x) && m in x.entries && n !in x.used
    ensures Base(SolicitedRequest(x, m, n, sent))
  {
    NewTimerBase(x, SmrRetry, m, 0);
    RetryCallbackBase(NewTimer(x, SmrRetry, m, 0), x.heap, MAX_SMR_RETRANSMIT, SMR_TIMEOUT, n, sent);
    hide Base, RetryCallback;
  }

  lemma {:induction false} AddMappingsBase(x: Xtr, recs: seq<Record>)
    requires Base(x)
    ensures Base(AddMappings(x, recs))
    decreases |recs|
  {
    if recs != [] {
      AddMappingBase(x, recs[0]);
      hide Base, AddMapping;
      AddMappingsBase(AddMapping(x, recs[0]), recs[1..]);
    }
  }

  // ---------- replies ----------

  /** A timer, its record and its outstanding nonces are as they were. */
  ghost predicate SameRequest(r: Registry, r': Registry, t: Timer)
    requires t in r.timers
  {
    && t in r'.timers && r'.timers[t] == r.timers[t]
    && (HasList(r, t) ==> HasList(r', t) && NoncesOf(r', t) == NoncesOf(r, t))
  }

  ghost predicate Old(x: Xtr, t: Timer) {
    && t in x.reg.timers && t < x.heap
    && (x.reg.timers[t].nonces.Some? ==> x.reg.timers[t].nonces.value < x.heap)
  }

  lemma {:induction false} ProbeLocatorsKeep(x: Xtr, m: Obj, locs: seq<Loc>, t: Timer)
    requires Old(x, t)
    ensures var y := ProbeLocators(x, m, locs);
            SameRequest(x.reg, y.reg, t) && y.entries == x.entries && y.cache == x.cache
    decreases |locs|
  {
    if locs != [] { ProbeLocatorsKeep(ProbeLocator(x, m, locs[0].id), m, locs[1..], t); }
  }

  /** Timer t is none of the probe timers that an update of the prefix stops. */
  ghost predicate Survives(x: Xtr, t: Timer, eid: Eid)
    requires t in x.reg.timers
  {
    x.reg.timers[t].kind == Probing && x.cfg.probeInterval != 0 && eid in x.cache ==>
      x.cache[eid] != x.reg.timers[t].obj
  }

  lemma UpdateKeepsTimer(x: Xtr, rec: Record, t: Timer)
    requires Base(x) && t in x.reg.timers && Survives(x, t, rec.eid)
    ensures forall e :: e in x.cache ==> x.cache[e] in x.entries
    ensures SameRequest(x.reg, UpdateMapping(x, rec).reg, t)
  {
    hide Base, Inv, ProbeLocators, StopKind, StartExpiry, ProgramProbing;
    BaseFacts(x);
    TimerBelowHeap(x, t);
    if rec.eid in x.cache {
      var m := x.cache[rec.eid];
      var y := x.(entries := x.entries[m := x.entries[m].(locs := MakeLocs(rec.addrs, x.heap))],
                  heap := x.heap + |rec.addrs|);
      StartExpiryKeeps(y, m, t);
      UpdateListsOk(y, m);
      ProgramProbingKeeps(StartExpiry(y, m), m, t);
    }
  }

  lemma StartExpiryKeeps(x: Xtr, m: Obj, t: Timer)
    requires m in x.entries && Old(x, t)
    ensures var y := StartExpiry(x, m);
            && y.entries == x.entries && y.cache == x.cache && y.cfg == x.cfg && x.heap <= y.heap
            && SameRequest(x.reg, y.reg, t) && Old(y, t)
            && (ListsOk(x.reg.lists, x.reg.timers) ==> y.reg.lists == x.reg.lists)
            && y.reg.timers == x.reg.timers[x.heap := TimerRec(Expiry, m, 0, None)]
  {}

  lemma ProgramProbingKeeps(x: Xtr, m: Obj, t: Timer)
    requires m in x.entries && Old(x, t) && ListsOk(x.reg.lists, x.reg.timers)
    requires x.reg.timers[t].kind == Probing && x.cfg.probeInterval != 0 ==> x.reg.timers[t].obj != m
    ensures SameRequest(x.reg, ProgramProbing(x, m).reg, t)
  {
    hide ProbeLocators;
    if x.cfg.probeInterval != 0 {
      var w := x.(reg := StopKind(x.reg, m, Probing));
      assert SameRequest(x.reg, w.reg, t);
      ProbeLocatorsKeep(w, m, x.entries[m].locs, t);
    }
  }

  lemma UpdateListsOk(x: Xtr, m: Obj)
    requires m in x.entries && ListsOk(x.reg.lists, x.reg.timers) && x.heap !in x.reg.timers
    ensures ListsOk(StartExpiry(x, m).reg.lists, StartExpiry(x, m).reg.timers)
  {}

  lemma TimerBelowHeap(x: Xtr, t: Timer)
    requires Base(x) && t in x.reg.timers
    ensures Old(x, t) && ListsOk(x.reg.lists, x.reg.timers)
    ensures forall u :: u in x.reg.timers ==> u < x.heap
  {}

  lemma AskingTimer(x: Xtr, n: Nonce)
    requires Base(x) && n in x.reg.table
    ensures Inv(x.reg) && x.reg.timers[TimerOfNonce(x.reg, n)].kind != Expiry
  {}

  /** The timer that a Map-Reply is about to stop still exists after the update that comes first. */
  ghost predicate SafeReply(x: Xtr, n: Nonce, recs: seq<Record>)
    requires Inv(x.reg) && forall t :: t in x.reg.timers ==> x.reg.timers[t].obj in x.entries
  {
    n in x.reg.table && recs != [] ==>
      var t := TimerOfNonce(x.reg, n);
      x.entries[x.reg.timers[t].obj].active ==> Survives(x, t, recs[0].eid)
  }

  lemma MapReplyBase(x: Xtr, n: Nonce, recs: seq<Record>, complete: bool)
    requires Base(x) && (BaseFacts(x); SafeReply(x, n, recs))
    ensures Inv(x.reg)
    ensures forall t :: t in x.reg.timers ==> x.reg.timers[t].obj in x.entries
    ensures forall e :: e in x.cache ==> x.cache[e] in x.entries
    ensures Base(MapReply(x, n, recs, complete).0)
  {
    hide Base, AddMappings, UpdateMapping, RemoveEntry, StopOne, Survives;
    BaseFacts(x);
    if n in x.reg.table {
      var t := TimerOfNonce(x.reg, n);
      var m := x.reg.timers[t].obj;
      if !x.entries[m].active {
        RemoveEntryBase(x, m, Answered(x.now));
        AddMappingsBase(RemoveEntry(x, m, Answered(x.now)), recs);
      } else if recs != [] {
        UpdateMappingBase(x, recs[0]);
        UpdateKeepsTimer(x, recs[0], t);
        StopOneBase(UpdateMapping(x, recs[0]), t);
      }
    }
  }

  /** The nonce belongs to a timer of the entry that the probe reply is about. */
  ghost predicate OwnEntry(x: Xtr, n: Nonce, eid: Eid)
    requires Inv(x.reg)
  {
    n in x.reg.table && ProbedEntry(x, eid).Some? ==>
      x.reg.timers[TimerOfNonce(x.reg, n)].obj == ProbedEntry(x, eid).value
  }

  lemma ProbeAnsweredBase(x: Xtr, m: Obj, addr: int)
    requires Base(x) && m in x.entries
    ensures Base(ProbeAnswered(x, m, addr))
  {
    hide Base, ProbeLocator, MarkLocator;
    match FindByAddr(x.entries[m].locs, addr)
    case None =>
    case Some(id) =>
      MarkLocatorBase(x, m, id, true);
      MarkLocatorShape(x, m, id, true);
      ProbeLocatorBase(MarkLocator(x, m, id, true), m, id);
  }

  lemma ProbeAnsweredClock(x: Xtr, m: Obj, addr: int)
    requires m in x.entries
    ensures ProbeAnswered(x, m, addr).now == x.now
  {}

  lemma MarkLocatorShape(x: Xtr, m: Obj, id: int, up: bool)
    requires m in x.entries
    ensures var y := MarkLocator(x, m, id, up);
            && y == x.(entries := y.entries) && y.entries.Keys == x.entries.Keys
            && (forall k :: k in x.entries && k != m ==> y.entries[k] == x.entries[k])
            && y.entries[m] == x.entries[m].(locs := SetUp(x.entries[m].locs, id, up))
  {}

  lemma TimerUnused(x: Xtr)
    requires Base(x)
    ensures x.heap !in x.reg.timers
  {}

  lemma ProbeAnsweredKeeps(x: Xtr, m: Obj, addr: int, t: Timer)
    requires Base(x) && m in x.entries && t in x.reg.timers
    ensures SameRequest(x.reg, ProbeAnswered(x, m, addr).reg, t)
  {
    hide Base;
    TimerBelowHeap(x, t);
  }

  lemma ProbeReplyBase(x: Xtr, n: Nonce, rec: Option<Record>, addr: int)
    requires Base(x)
    requires Inv(x.reg) && (rec.Some? ==> OwnEntry(x, n, rec.value.eid))
    ensures forall e :: e in x.cache ==> x.cache[e] in x.entries
    ensures Base(ProbeReply(x, n, rec, addr).0)
  {
    hide Base, Inv, StopOne;
    BaseFacts(x);
    if n in x.reg.table && rec.Some? && ProbedEntry(x, rec.value.eid).Some? {
      var t, m := TimerOfNonce(x.reg, n), ProbedEntry(x, rec.value.eid).value;
      ProbeAnsweredBase(x, m, addr);
      TimerBelowHeap(x, t);
      var y := ProbeAnswered(x, m, addr);
      assert t in y.reg.timers && y.reg.timers[t] == x.reg.timers[t];
      StopOneBase(y, t);
      BaseFacts(y);
      MissesBase(y.(reg := StopOne(y.reg, m, t)), Silence(y.misses, m, t, x.now));
    }
  }
}
