/**
  The handlers and callbacks of lispd/control/lisp_xtr.c as they run: the device's own fields, the
  shared tables of timers and nonces, and the loops over locators and records. Each method makes
  exactly the step that XtrSpec states, so all that XtrTheorems and XtrProbing say holds of it.
 */
module XtrDevice {
  import opened Options
  import opened RegistrySpec
  import opened RegistryTables
  import opened XtrSpec
  import opened XtrInvariant
  import opened XtrTheorems
  import WheelSpec

  method WithState(locs: seq<Loc>, id: int, up: bool) returns (done: seq<Loc>)
    ensures done == SetUp(locs, id, up)
  {
    done := [];
    SetUpIds(locs, id, up);
    for i := 0 to |locs|
      invariant |done| == i
      invariant forall j :: 0 <= j < i ==> done[j] == SetUp(locs, id, up)[j]
    {
      done := done + [if locs[i].id == id then locs[i].(up := up) else locs[i]];
    }
  }

  class Device {
    const cfg: Config
    const tables: Tables
    var cache: map<Eid, Obj>
    var entries: map<Obj, Entry>
    var now: nat
    var ticking: bool
    var heap: int
    ghost var used: set<Nonce>
    ghost var misses: map<Obj, Miss>

    /** The router as configured, the locators of its proxy entry already probed */
    constructor (cfg: Config, eid: Eid, addrs: seq<(int, bool)>)
      requires cfg.petrs == 0
      ensures Valid() && fresh(tables) && State() == Start(cfg, eid, addrs)
    {
      hide Base, Inv, ProgramProbing, MakeLocs;
      this.cfg, heap, now, ticking := cfg, WheelSpec.WHEEL_SIZE + |addrs|, 0, false;
      cache, entries := map[], map[0 := Entry(eid, true, 0, MakeLocs(addrs, 1))];
      used, misses := {}, map[];
      tables := new Tables();
      new;
      BareBase(cfg, eid, addrs);
      assert State() == Bare(cfg, eid, addrs);
      ProgramMceRlocProbing(0);
    }

    ghost function State(): Xtr
      reads this, tables
    {
      Xtr(cfg, tables.State(), cache, entries, now, ticking, heap, used, misses)
    }

    ghost predicate Valid()
      reads this, tables
    {
      Base(State())
    }

    /** Creates a timer at a fresh address and starts it. */
    method NewArmedTimer(kind: Kind, obj: Obj, part: int, duration: int) returns (t: Timer)
      requires Valid() && obj in entries && kind in {Expiry, Probing}
      modifies this, tables
      ensures Valid() && t == old(heap)
      ensures State() == ArmTimer(XtrSpec.NewTimer(old(State()), kind, obj, part), t, duration)
    {
      hide Base, Inv, Create, Fresh, WheelSpec.FiringDelay;
      ghost var x := State();
      NewTimerBase(x, kind, obj, part);
      ArmBase(XtrSpec.NewTimer(x, kind, obj, part), heap, duration);
      FreshTimer(x, kind, obj, part);
      t := heap;
      tables.NewTimer(t, TimerRec(kind, obj, part, if kind == Expiry then None else Some(t + 1)));
      heap := heap + 2;
      tables.StartTimer(t, now + WheelSpec.FiringDelay(duration, ticking));
    }

    /** tr_mcache_remove_entry */
    method RemoveEntry(m: Obj, ghost ending: Ending)
      requires Valid() && m in entries
      modifies this, tables
      ensures Valid() && State() == XtrSpec.RemoveEntry(old(State()), m, ending)
    {
      hide Base, Inv, StopAll, Settle;
      ghost var x := State();
      RemoveEntryBase(x, m, ending);
      BaseFacts(x);
      var eid := entries[m].eid;
      if eid in cache {
        var d := cache[eid];
        cache := cache - {eid};
        var _ := tables.StopTimersFromObj(d);
        entries := entries - {d};
        misses := Settle(misses, d, ending);
      }
    }

    /** program_mce_rloc_probing */
    method ProgramMceRlocProbing(m: Obj)
      requires Valid() && m in entries
      modifies this, tables
      ensures Valid() && State() == ProgramProbing(old(State()), m)
    {
      hide Base, Inv, StopKind, Create, WheelSpec.FiringDelay;
      ghost var x := State();
      if cfg.probeInterval == 0 { return; }
      StopKindBase(x, m, Probing);
      BaseFacts(x);
      tables.StopTimersOfType(m, Probing);
      ghost var y := State();
      assert y == x.(reg := StopKind(x.reg, m, Probing));
      var locs := entries[m].locs;
      for i := 0 to |locs|
        invariant Valid() && m in entries && entries == x.entries
        invariant ProbeLocators(State(), m, locs[i..]) == ProbeLocators(y, m, locs)
      {
        assert locs[i..][0] == locs[i] && locs[i..][1..] == locs[i + 1..];
        ghost var z := State();
        var _ := NewArmedTimer(Probing, m, locs[i].id, cfg.probeInterval);
        assert State() == ProbeLocator(z, m, locs[i].id);
      }
    }

    /** mc_entry_start_expiration_timer, then program_mce_rloc_probing */
    method Refresh(m: Obj)
      requires Valid() && m in entries
      modifies this, tables
      ensures Valid() && old(State()).entries == StartExpiry(old(State()), m).entries
      ensures State() == ProgramProbing(StartExpiry(old(State()), m), m)
    {
      hide Base, Create, ProgramProbing;
      var _ := NewArmedTimer(Expiry, m, 0, entries[m].ttl * 60);
      ProgramMceRlocProbing(m);
    }

    /** tr_mcache_add_mapping */
    method AddMapping(rec: Record)
      requires Valid()
      modifies this, tables
      ensures Valid() && State() == XtrSpec.AddMapping(old(State()), rec)
    {
      hide Base, StartExpiry, ProgramProbing;
      ghost var x := State();
      var m := heap;
      var e := Entry(rec.eid, true, rec.ttl, MakeLocs(rec.addrs, m + 1));
      NewEntryBase(x, e, |rec.addrs|);
      entries := entries[m := e];
      if rec.eid !in cache {
        cache := cache[rec.eid := m];
      }
      heap := heap + 1 + |rec.addrs|;
      Refresh(m);
    }

    /** update_mcache_entry */
    method UpdateEntry(rec: Record)
      requires Valid()
      modifies this, tables
      ensures (BaseFacts(old(State())); Valid() && State() == UpdateMapping(old(State()), rec))
    {
      hide Base, StartExpiry, ProgramProbing;
      ghost var x := State();
      BaseFacts(x);
      if rec.eid in cache {
        var m := cache[rec.eid];
        var locs := MakeLocs(rec.addrs, heap);
        ReplaceLocsBase(x, m, locs, |rec.addrs|);
        entries := entries[m := entries[m].(locs := locs)];
        heap := heap + |rec.addrs|;
        Refresh(m);
      }
    }

    /** A request sent with a new nonce: the nonce is recorded and the timer runs again */
    method IssueAndArm(t: Timer, n: Nonce, timeout: int)
      requires Inv(tables.State()) && HasList(tables.State(), t) && n !in tables.table
      modifies this`used, tables
      ensures State() == ArmTimer(IssueNonce(old(State()), t, n), t, timeout)
    {
      hide Inv, AddNonce, WheelSpec.FiringDelay;
      tables.Insert(n, tables.timers[t].nonces.value);
      used := used + {n};
      tables.StartTimer(t, now + WheelSpec.FiringDelay(timeout, ticking));
    }

    /** send_map_request_retry_cb and smr_invoked_map_request_cb, given the nonce drawn and the send's outcome */
    method RetryCb(t: Timer, limit: int, timeout: int, n: Nonce, sent: bool)
      requires Valid() && HasList(tables.State(), t) && n !in used
      requires limit + 1 <= Limit(cfg, tables.timers[t].kind)
      modifies this, tables
      ensures (BaseFacts(old(State())); State() == RetryCallback(old(State()), t, limit, timeout, n, sent))
      ensures Valid()
    {
      hide Base, Inv, XtrSpec.RemoveEntry, LogSend, LogStall, IssueNonce, ArmTimer, Limit;
      ghost var x := State();
      BaseFacts(x);
      UnusedNonce(x, n);
      RetryCallbackBase(x, t, limit, timeout, n, sent);
      var m := tables.timers[t].obj;
      var list := tables.timers[t].nonces.value;
      if |tables.lists[list].nonces| - 1 < limit {
        if sent {
          misses := LogSend(misses, m, t, n, now);
          IssueAndArm(t, n, timeout);
        } else {
          misses := LogStall(misses, m, t);
        }
      } else {
        RemoveEntry(m, if tables.timers[t].kind == RequestRetry then TimedOut(now) else Displaced(now));
      }
    }

    /** locator_set_state, for the locator found by its identity */
    method SetState(m: Obj, id: int, up: bool)
      requires m in entries
      modifies this`entries
      ensures State() == MarkLocator(old(State()), m, id, up)
    {
      var locs := WithState(entries[m].locs, id, up);
      entries := entries[m := entries[m].(locs := locs)];
    }

    /** rloc_probing_cb */
    method RlocProbingCb(t: Timer, n: Nonce, sent: bool)
      requires Valid() && HasList(tables.State(), t) && n !in used && tables.timers[t].kind == Probing
      modifies this, tables
      ensures (BaseFacts(old(State())); State() == ProbeCallback(old(State()), t, n, sent))
      ensures Valid()
    {
      hide Base, Inv, MarkLocator, IssueNonce, ForgetNonces, ArmTimer, Limit, IsUp;
      ghost var x := State();
      BaseFacts(x);
      UnusedNonce(x, n);
      ProbeCallbackBase(x, t, n, sent);
      var m, id := tables.timers[t].obj, tables.timers[t].part;
      var list := tables.timers[t].nonces.value;
      if |tables.lists[list].nonces| - 1 < cfg.probeRetries {
        if sent { IssueAndArm(t, n, cfg.probeRetryInterval); }
        return;
      }
      if IsUp(entries[m].locs, id) {
        MarkLocatorShape(x, m, id, false);
        SetState(m, id, false);
        if entries[m].eid !in cache && m != cfg.petrs { return; }
      }
      InvLinked(tables.State());
      ForgetAndArm(t, cfg.probeInterval);
    }

    /** The nonces of a timer forgotten, and the timer armed */
    method ForgetAndArm(t: Timer, duration: int)
      requires HasList(tables.State(), t) && tables.Linked()
      modifies tables
      ensures State() == ArmTimer(ForgetNonces(old(State()), t), t, duration)
    {
      hide Reset, ListsOk, TableOk, WheelSpec.FiringDelay;
      tables.ResetNonces(tables.timers[t].nonces.value);
      tables.StartTimer(t, now + WheelSpec.FiringDelay(duration, ticking));
    }

    /** The callback of a timer that the wheel has just taken off its spoke */
    method Fire(t: Timer, n: Nonce, sent: bool)
      requires Valid() && t in tables.timers && n !in used
      modifies this, tables
      ensures (ReadyToFire(old(State()), t); State() == Callback(old(State()), t, n, sent))
      ensures Valid()
    {
      hide Base, RetryCallback, ProbeCallback, XtrSpec.RemoveEntry;
      ReadyToFire(State(), t);
      match tables.timers[t].kind {
        case Expiry => RemoveEntry(tables.timers[t].obj, Displaced(now));
        case RequestRetry => RetryCb(t, cfg.requestRetries, MRQ_TIMEOUT, n, sent);
        case SmrRetry => RetryCb(t, MAX_SMR_RETRANSMIT, SMR_TIMEOUT, n, sent);
        case Probing => RlocProbingCb(t, n, sent);
      }
    }

    /** handle_map_cache_miss, for an EID that the cache does not cover */
    method HandleMapCacheMiss(eid: Eid, n: Nonce, sent: bool)
      requires Valid() && eid !in cache && n !in used
      modifies this, tables
      ensures Valid() && State() == CacheMiss(old(State()), eid, n, sent)
    {
      hide Base, Inv, RetryCallback, Create, Fresh;
      ghost var x := State();
      BaseFacts(x);
      var m := heap;
      PlaceholderBase(x, eid);
      entries, cache, heap := entries[m := Entry(eid, false, 0, [])], cache[eid := m], m + 1;
      ghost var y := State();
      NewTimerBase(y, RequestRetry, m, 0);
      FreshTimer(y, RequestRetry, m, 0);
      tables.NewTimer(m + 1, TimerRec(RequestRetry, m, 0, Some(m + 2)));
      heap := m + 3;
      assert State() == XtrSpec.NewTimer(y, RequestRetry, m, 0);
      MissesBase(State(), misses[m := Miss(now, m + 1, [], [], false, Open)]);
      misses := misses[m := Miss(now, m + 1, [], [], false, Open)];
      NewTimerKind(y, RequestRetry, m, 0);
      RetryCb(m + 1, cfg.requestRetries, MRQ_TIMEOUT, n, sent);
    }

    /** tr_reply_to_smr, for the entry found */
    method ReplyToSmr(m: Obj, n: Nonce, sent: bool)
      requires Valid() && m in entries && n !in used
      modifies this, tables
      ensures Valid() && State() == SolicitedRequest(old(State()), m, n, sent)
    {
      hide Base, Inv, RetryCallback, Create, Fresh;
      ghost var x := State();
      var t := heap;
      NewTimerBase(x, SmrRetry, m, 0);
      FreshTimer(x, SmrRetry, m, 0);
      tables.NewTimer(t, TimerRec(SmrRetry, m, 0, Some(t + 1)));
      heap := t + 2;
      assert State() == XtrSpec.NewTimer(x, SmrRetry, m, 0);
      NewTimerKind(x, SmrRetry, m, 0);
      RetryCb(t, MAX_SMR_RETRANSMIT, SMR_TIMEOUT, n, sent);
    }

    /** mapping_get_loct_with_addr */
    method FindLocator(m: Obj, addr: int) returns (id: Option<int>)
      requires m in entries
      ensures id == FindByAddr(entries[m].locs, addr)
    {
      var locs := entries[m].locs;
      for i := 0 to |locs|
        invariant FindByAddr(locs[i..], addr) == FindByAddr(locs, addr)
      {
        if locs[i].addr == addr { return Some(locs[i].id); }
      }
      return None;
    }

    /** handle_locator_probe_reply */
    method HandleLocatorProbeReply(m: Obj, addr: int)
      requires Valid() && m in entries
      modifies this, tables
      ensures Valid() && State() == ProbeAnswered(old(State()), m, addr)
    {
      hide Base, MarkLocator, Create, FindByAddr, WheelSpec.FiringDelay;
      ghost var x := State();
      var id := FindLocator(m, addr);
      if id.Some? {
        MarkLocatorBase(x, m, id.value, true);
        MarkLocatorShape(x, m, id.value, true);
        SetState(m, id.value, true);
        var _ := NewArmedTimer(Probing, m, id.value, cfg.probeInterval);
      }
    }

    /** tr_recv_map_reply with the probe bit */
    method RecvProbeReply(n: Nonce, rec: Option<Record>, addr: int) returns (good: bool)
      requires Valid() && (BaseFacts(State()); rec.Some? ==> OwnEntry(State(), n, rec.value.eid))
      modifies this, tables
      ensures (BaseFacts(old(State())); (State(), good) == ProbeReply(old(State()), n, rec, addr))
      ensures Valid()
    {
      hide Base, Inv, ProbeAnswered, StopOne, Silence, ListsOk, TableOk;
      ghost var x := State();
      BaseFacts(x);
      ProbeReplyBase(x, n, rec, addr);
      var found := tables.Lookup(n);
      NonceKnown(x.reg, n);
      if found.None? || rec.None? { return false; }
      var t := tables.lists[found.value].timer;
      LookupTimer(x.reg, n, found.value);
      var eid := rec.value.eid;
      var m;
      if eid in cache {
        m := cache[eid];
      } else if entries[cfg.petrs].eid.addr == eid.addr {
        m := cfg.petrs;
      } else {
        return false;
      }
      assert ProbedEntry(x, eid) == Some(m);
      HandleLocatorProbeReply(m, addr);
      ProbeAnsweredKeeps(x, m, addr, t);
      ProbeAnsweredClock(x, m, addr);
      BaseFacts(State());
      tables.StopTimerFromObj(m, t);
      misses := Silence(misses, m, t, now);
      return true;
    }

    /** tr_recv_map_reply without the probe bit */
    method RecvMapReply(n: Nonce, recs: seq<Record>, complete: bool) returns (good: bool)
      requires Valid() && (BaseFacts(State()); SafeReply(State(), n, recs))
      modifies this, tables
      ensures (BaseFacts(old(State())); (State(), good) == MapReply(old(State()), n, recs, complete))
      ensures Valid()
    {
      hide Base, Inv, XtrSpec.RemoveEntry, XtrSpec.AddMapping, UpdateMapping, StopOne;
      ghost var x := State();
      BaseFacts(x);
      MapReplyBase(x, n, recs, complete);
      var found := tables.Lookup(n);
      NonceKnown(x.reg, n);
      if found.None? { return false; }
      var t := tables.lists[found.value].timer;
      LookupTimer(x.reg, n, found.value);
      var m := tables.timers[t].obj;
      if !entries[m].active {
        RemoveEntry(m, Answered(now));
        ghost var y := State();
        for i := 0 to |recs|
          invariant Valid() && AddMappings(State(), recs[i..]) == AddMappings(y, recs)
        {
          assert recs[i..][0] == recs[i] && recs[i..][1..] == recs[i + 1..];
          AddMapping(recs[i]);
        }
        return complete;
      }
      if recs == [] { return false; }
      UpdateKeepsTimer(x, recs[0], t);
      UpdateEntry(recs[0]);
      BaseFacts(State());
      tables.StopTimerFromObj(m, t);
      return true;
    }
  }

  lemma BareBase(cfg: Config, eid: Eid, addrs: seq<(int, bool)>)
    requires cfg.petrs == 0
    ensures Base(Bare(cfg, eid, addrs))
  {
    BareGood(cfg, eid, addrs);
  }

  lemma UnusedNonce(x: Xtr, n: Nonce)
    requires Base(x) && n !in x.used
    ensures n !in x.reg.table
  {}

  lemma InvLinked(r: Registry)
    requires Inv(r)
    ensures ListsOk(r.lists, r.timers) && TableOk(r.table, r.lists)
  {}

  lemma FreshTimer(x: Xtr, kind: Kind, obj: Obj, part: int)
    requires Base(x)
    ensures Fresh(x.reg, x.heap, TimerRec(kind, obj, part, if kind == Expiry then None else Some(x.heap + 1)))
    ensures Inv(x.reg)
  {}

  lemma NonceKnown(r: Registry, n: Nonce)
    requires Inv(r)
    ensures n in r.table <==> exists k :: k in r.lists && n in r.lists[k].nonces
  {
    if n in r.table {
      var l := r.table[n];
      assert l in r.lists && n in r.lists[l].nonces;
    }
    forall k | k in r.lists && n in r.lists[k].nonces ensures n in r.table {}
  }

  lemma LookupTimer(r: Registry, n: Nonce, l: ListId)
    requires Inv(r) && l in r.lists && n in r.lists[l].nonces
    ensures n in r.table && r.table[n] == l && TimerOfNonce(r, n) == r.lists[l].timer
  {}
}
