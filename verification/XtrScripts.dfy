/**
  The router's other events on the timer wheel: what a packet or a message does to the timers is a
  script of wheel commands. With the ticks of XtrWheel every step of the daemon, wheel included, is
  a step of the router as XtrRuns has it.
 */
module XtrScripts {
  import opened Options
  import opened Seqs
  import opened RegistrySpec
  import opened XtrSpec
  import opened XtrInvariant
  import opened XtrRuns
  import opened XtrTheorems
  import opened WheelScripts
  import opened XtrWheel
  import XtrMisses
  import W = WheelSpec
  import WheelRuns

  /** A script that takes the wheel from the router's state x to its state y. */
  ghost predicate Leads(w: W.Wheel, cs: seq<W.Command>, x: Xtr, y: Xtr) {
    W.Inv(w) && Seen(w, x) && W.LegalScript(cs, w.live) && Seen(W.DoAll(w, cs), y)
  }

  lemma Then(w: W.Wheel, cs: seq<W.Command>, ds: seq<W.Command>, x: Xtr, y: Xtr, z: Xtr)
    requires Leads(w, cs, x, y) && Leads(W.DoAll(w, cs), ds, y, z)
    ensures Leads(w, cs + ds, x, z)
  {
    hide W.Inv, W.DoAll, W.LegalScript, WheelRuns.Alarms;
    DoAllConcat(w, cs, ds);
  }

  /** Nothing that the wheel can see. */
  lemma Unseen(w: W.Wheel, x: Xtr, y: Xtr)
    requires Seen(w, x) && y.reg.timers.Keys == x.reg.timers.Keys && y.reg.alarms == x.reg.alarms
    requires y.now == x.now && y.ticking == x.ticking
    ensures Leads(w, [], x, y)
  {
    hide Seen;
    NothingSeen(w, x, y);
  }

  ghost predicate Roomy(x: Xtr) {
    x.heap >= W.WHEEL_SIZE
  }

  lemma NewTimerLeads(w: W.Wheel, x: Xtr, kind: Kind, obj: Obj, part: int)
    requires Seen(w, x) && Base(x) && Roomy(x)
    ensures Leads(w, [W.Create(x.heap)], x, NewTimer(x, kind, obj, part))
  {
    hide Base, W.Inv, W.CreateTimer, WheelRuns.Alarms;
    TimerUnused(x);
    assert W.Legal(W.Create(x.heap), w.live);
    WheelRuns.DoAllOne(w, W.Create(x.heap));
    CreatedSame(w, x.heap);
  }

  lemma ArmLeads(w: W.Wheel, x: Xtr, t: Timer, duration: int)
    requires Seen(w, x) && t in x.reg.timers
    ensures Leads(w, [W.Start(t, duration)], x, ArmTimer(x, t, duration))
  {
    hide W.Inv, W.DoAll, W.LegalScript, WheelRuns.Alarms;
    StartSeen(w, x, ArmTimer(x, t, duration), t, duration);
  }

  lemma NewArmedLeads(w: W.Wheel, x: Xtr, kind: Kind, obj: Obj, part: int, duration: int)
    requires Seen(w, x) && Base(x) && Roomy(x)
    ensures Leads(w, [W.Create(x.heap)] + [W.Start(x.heap, duration)], x,
                  ArmTimer(NewTimer(x, kind, obj, part), x.heap, duration))
  {
    hide Base, Seen, NewTimer, ArmTimer;
    NewTimerLeads(w, x, kind, obj, part);
    NewTimerKind(x, kind, obj, part);
    ArmLeads(W.DoAll(w, [W.Create(x.heap)]), NewTimer(x, kind, obj, part), x.heap, duration);
    Then(w, [W.Create(x.heap)], [W.Start(x.heap, duration)], x, NewTimer(x, kind, obj, part),
         ArmTimer(NewTimer(x, kind, obj, part), x.heap, duration));
  }

  lemma PurgeLeads(w: W.Wheel, x: Xtr, r': Registry, ts: seq<Timer>)
    requires Seen(w, x) && NoRepeats(ts)
    requires forall t :: t in Elements(ts) ==> t in x.reg.timers
    requires r' == Purge(x.reg, Elements(ts)).(index := r'.index)
    ensures Leads(w, Stops(ts), x, x.(reg := r'))
  {
    hide W.Inv, WheelRuns.Alarms, Belongs;
    StopsDo(w, ts);
  }

  lemma StopOneLeads(w: W.Wheel, x: Xtr, o: Obj, t: Timer)
    requires Seen(w, x) && t in x.reg.timers
    ensures Leads(w, Stops([t]), x, x.(reg := StopOne(x.reg, o, t)))
  {
    hide Seen;
    assert Elements([t]) == {t};
    PurgeLeads(w, x, StopOne(x.reg, o, t), [t]);
  }

  lemma StopKindLeads(w: W.Wheel, x: Xtr, o: Obj, kind: Kind)
    requires Seen(w, x) && Inv(x.reg)
    ensures Leads(w, Stops(Only(x.reg.timers, TimersOf(x.reg, o), kind)), x, x.(reg := StopKind(x.reg, o, kind)))
  {
    hide Seen, Only, TableOk, ListsOk;
    var ts := Only(x.reg.timers, TimersOf(x.reg, o), kind);
    forall t
      ensures t in Elements(ts) <==> t in OfKind(x.reg, o, kind)
    {
      assert t in x.reg.timers && x.reg.timers[t].obj == o ==> t in TimersOf(x.reg, o);
    }
    assert Elements(ts) == OfKind(x.reg, o, kind);
    PurgeLeads(w, x, StopKind(x.reg, o, kind), ts);
  }

  lemma {:induction false} ProbesLead(w: W.Wheel, x: Xtr, m: Obj, locs: seq<Loc>) returns (cs: seq<W.Command>)
    requires Seen(w, x) && Base(x) && Roomy(x) && m in x.entries
    ensures Leads(w, cs, x, ProbeLocators(x, m, locs))
    decreases |locs|
  {
    hide Base, Seen, ProbeLocator;
    if locs == [] {
      cs := [];
      Unseen(w, x, x);
    } else {
      var y := ProbeLocator(x, m, locs[0].id);
      var c := [W.Create(x.heap)] + [W.Start(x.heap, x.cfg.probeInterval)];
      ProbeIs(x, m, locs[0].id);
      NewArmedLeads(w, x, Probing, m, locs[0].id, x.cfg.probeInterval);
      ProbeLocatorBase(x, m, locs[0].id);
      var ds := ProbesLead(W.DoAll(w, c), y, m, locs[1..]);
      cs := c + ds;
      Then(w, c, ds, x, y, ProbeLocators(y, m, locs[1..]));
    }
  }

  lemma ProbeIs(x: Xtr, m: Obj, id: int)
    ensures ProbeLocator(x, m, id) == ArmTimer(NewTimer(x, Probing, m, id), x.heap, x.cfg.probeInterval)
    ensures ProbeLocator(x, m, id).heap == x.heap + 2 && ProbeLocator(x, m, id).entries == x.entries
  {}

  lemma ProgramProbingLeads(w: W.Wheel, x: Xtr, m: Obj) returns (cs: seq<W.Command>)
    requires Seen(w, x) && Base(x) && Roomy(x) && m in x.entries
    ensures Leads(w, cs, x, ProgramProbing(x, m))
  {
    hide Base, Seen, StopKind, ProbeLocators;
    if x.cfg.probeInterval == 0 {
      cs := [];
      Unseen(w, x, x);
    } else {
      BaseFacts(x);
      var y := x.(reg := StopKind(x.reg, m, Probing));
      var c := Stops(Only(x.reg.timers, TimersOf(x.reg, m), Probing));
      StopKindLeads(w, x, m, Probing);
      StopKindBase(x, m, Probing);
      var ds := ProbesLead(W.DoAll(w, c), y, m, x.entries[m].locs);
      cs := c + ds;
      Then(w, c, ds, x, y, ProbeLocators(y, m, x.entries[m].locs));
    }
  }

  /** The router as configured is in step with a wheel that has been told to probe its proxies. */
  lemma StartLeads(cfg: Config, eid: Eid, addrs: seq<(int, bool)>) returns (cs: seq<W.Command>)
    requires cfg.petrs == 0
    ensures W.LegalScript(cs, {}) && Seen(W.DoAll(W.Initial(), cs), Start(cfg, eid, addrs))
  {
    hide Base, XtrMisses.MissesOk, ProgramProbing;
    var x := Bare(cfg, eid, addrs);
    BareGood(cfg, eid, addrs);
    assert WheelRuns.Alarms(W.Initial()) == map[];
    cs := ProgramProbingLeads(W.Initial(), x, 0);
  }

  /** A refresh: one more expiry timer, and probing anew. */
  lemma RefreshLeads(w: W.Wheel, x: Xtr, m: Obj) returns (cs: seq<W.Command>)
    requires Seen(w, x) && Base(x) && Roomy(x) && m in x.entries
    ensures m in StartExpiry(x, m).entries
    ensures Leads(w, cs, x, ProgramProbing(StartExpiry(x, m), m))
  {
    hide Base, Seen, StartExpiry, ProgramProbing;
    var y := StartExpiry(x, m);
    var c := [W.Create(x.heap)] + [W.Start(x.heap, x.entries[m].ttl * 60)];
    ExpiryIs(x, m);
    NewArmedLeads(w, x, Expiry, m, 0, x.entries[m].ttl * 60);
    StartExpiryBase(x, m);
    var ds := ProgramProbingLeads(W.DoAll(w, c), y, m);
    cs := c + ds;
    Then(w, c, ds, x, y, ProgramProbing(y, m));
  }

  lemma ExpiryIs(x: Xtr, m: Obj)
    requires m in x.entries
    ensures StartExpiry(x, m) == ArmTimer(NewTimer(x, Expiry, m, 0), x.heap, x.entries[m].ttl * 60)
    ensures StartExpiry(x, m).heap == x.heap + 2 && StartExpiry(x, m).entries == x.entries
  {}

  lemma AddMappingLeads(w: W.Wheel, x: Xtr, rec: Record) returns (cs: seq<W.Command>)
    requires Seen(w, x) && Base(x) && Roomy(x)
    ensures Leads(w, cs, x, AddMapping(x, rec))
  {
    hide Base, Seen, StartExpiry, ProgramProbing, Leads;
    var m := x.heap;
    var e := Entry(rec.eid, true, rec.ttl, MakeLocs(rec.addrs, m + 1));
    var cache := if rec.eid in x.cache then x.cache else x.cache[rec.eid := m];
    NewEntryBase(x, e, |rec.addrs|);
    cs := PlacedRefresh(w, x, x.(entries := x.entries[m := e], cache := cache, heap := x.heap + 1 + |rec.addrs|), m);
  }

  /** A change of entries that the wheel does not see, and a refresh. */
  lemma PlacedRefresh(w: W.Wheel, x: Xtr, y: Xtr, m: Obj) returns (cs: seq<W.Command>)
    requires Seen(w, x) && Base(y) && Roomy(y) && m in y.entries
    requires y == x.(entries := y.entries, cache := y.cache, heap := y.heap)
    ensures m in StartExpiry(y, m).entries
    ensures Leads(w, cs, x, ProgramProbing(StartExpiry(y, m), m))
  {
    hide Base, Seen, StartExpiry, ProgramProbing;
    SeenSame(w, x, y);
    cs := RefreshLeads(w, y, m);
    SameStart(w, cs, x, y, ProgramProbing(StartExpiry(y, m), m));
  }

  lemma SeenSame(w: W.Wheel, x: Xtr, y: Xtr)
    requires Seen(w, x) && y.reg.timers.Keys == x.reg.timers.Keys && y.reg.alarms == x.reg.alarms
    requires y.now == x.now && y.ticking == x.ticking
    ensures Seen(w, y)
  {
    hide W.Inv;
  }

  lemma SameStart(w: W.Wheel, cs: seq<W.Command>, x: Xtr, y: Xtr, z: Xtr)
    requires Seen(w, x) && Leads(w, cs, y, z)
    ensures Leads(w, cs, x, z)
  {
    hide Seen;
  }

  lemma {:induction false} AddMappingsLead(w: W.Wheel, x: Xtr, recs: seq<Record>) returns (cs: seq<W.Command>)
    requires Seen(w, x) && Base(x) && Roomy(x)
    ensures Leads(w, cs, x, AddMappings(x, recs))
    decreases |recs|
  {
    hide Base, Seen, AddMapping;
    if recs == [] {
      cs := [];
      Unseen(w, x, x);
    } else {
      var y := AddMapping(x, recs[0]);
      var c := AddMappingLeads(w, x, recs[0]);
      AddMappingBase(x, recs[0]);
      XtrMisses.AddMappingFrame(x, recs[0]);
      XtrMisses.FrameKeys(x, y, {}, {});
      var ds := AddMappingsLead(W.DoAll(w, c), y, recs[1..]);
      cs := c + ds;
      Then(w, c, ds, x, y, AddMappings(y, recs[1..]));
    }
  }

  lemma UpdateMappingLeads(w: W.Wheel, x: Xtr, rec: Record) returns (cs: seq<W.Command>)
    requires Seen(w, x) && Base(x) && Roomy(x)
    ensures (BaseFacts(x); Leads(w, cs, x, UpdateMapping(x, rec)))
  {
    hide Base, Seen, StartExpiry, ProgramProbing;
    BaseFacts(x);
    if rec.eid in x.cache {
      var m := x.cache[rec.eid];
      var locs := MakeLocs(rec.addrs, x.heap);
      ReplaceLocsBase(x, m, locs, |rec.addrs|);
      cs := PlacedRefresh(w, x, x.(entries := x.entries[m := x.entries[m].(locs := locs)], heap := x.heap + |rec.addrs|), m);
    } else {
      cs := [];
      Unseen(w, x, x);
    }
  }

  // ---------- the events ----------

  /** The router with the placeholder and the request timer of a new miss, before the first request. */
  function Placed(x: Xtr, eid: Eid): Xtr {
    var m := x.heap;
    var y := x.(entries := x.entries[m := Entry(eid, false, 0, [])], cache := x.cache[eid := m], heap := m + 1);
    var z := NewTimer(y, RequestRetry, m, 0);
    z.(misses := z.misses[m := Miss(x.now, m + 1, [], [], false, Open)])
  }

  lemma PlacedLeads(w: W.Wheel, x: Xtr, eid: Eid)
    requires Seen(w, x) && Base(x) && Roomy(x) && eid !in x.cache
    ensures Base(Placed(x, eid)) && Leads(w, [W.Create(x.heap + 1)], x, Placed(x, eid))
  {
    hide Base, Seen, NewTimer;
    var m := x.heap;
    var y := x.(entries := x.entries[m := Entry(eid, false, 0, [])], cache := x.cache[eid := m], heap := m + 1);
    var z := NewTimer(y, RequestRetry, m, 0);
    PlaceholderBase(x, eid);
    SeenSame(w, x, y);
    NewTimerBase(y, RequestRetry, m, 0);
    NewTimerLeads(w, y, RequestRetry, m, 0);
    SameStart(w, [W.Create(m + 1)], x, y, z);
    BaseFacts(z);
    NewTimerMisses(y, m);
    MissesBase(z, Placed(x, eid).misses);
    SilentEnd(w, [W.Create(m + 1)], x, z, Placed(x, eid));
  }

  lemma NewTimerMisses(x: Xtr, m: Obj)
    ensures NewTimer(x, RequestRetry, m, 0).heap == x.heap + 2
  {}

  lemma PlacedTimer(x: Xtr, eid: Eid, n: Nonce, sent: bool)
    ensures var v := Placed(x, eid);
            && HasList(v.reg, x.heap + 1) && v.reg.timers[x.heap + 1].obj in v.entries
            && CacheMiss(x, eid, n, sent) == RetryCallback(v, x.heap + 1, x.cfg.requestRetries, MRQ_TIMEOUT, n, sent)
  {
    hide RetryCallback;
  }

  lemma MissLeads(w: W.Wheel, x: Xtr, eid: Eid, n: Nonce, sent: bool) returns (cs: seq<W.Command>)
    requires Seen(w, x) && Base(x) && Roomy(x) && eid !in x.cache
    ensures Leads(w, cs, x, CacheMiss(x, eid, n, sent))
  {
    hide Base, Seen, RetryCallback, RetryScript, CacheMiss, Placed;
    var v, t := Placed(x, eid), x.heap + 1;
    PlacedLeads(w, x, eid);
    PlacedTimer(x, eid, n, sent);
    var w1 := W.DoAll(w, [W.Create(t)]);
    RetrySeen(w1, v, t, x.cfg.requestRetries, MRQ_TIMEOUT, n, sent);
    var ds := RetryScript(v, t, x.cfg.requestRetries, MRQ_TIMEOUT, sent);
    cs := [W.Create(t)] + ds;
    Then(w, [W.Create(t)], ds, x, v, CacheMiss(x, eid, n, sent));
  }

  lemma SolicitedLeads(w: W.Wheel, x: Xtr, m: Obj, n: Nonce, sent: bool) returns (cs: seq<W.Command>)
    requires Seen(w, x) && Base(x) && Roomy(x) && m in x.entries
    ensures Leads(w, cs, x, SolicitedRequest(x, m, n, sent))
  {
    hide Base, Seen, RetryCallback, RetryScript;
    var y := NewTimer(x, SmrRetry, m, 0);
    NewTimerBase(x, SmrRetry, m, 0);
    NewTimerLeads(w, x, SmrRetry, m, 0);
    var w1 := W.DoAll(w, [W.Create(x.heap)]);
    RetrySeen(w1, y, x.heap, MAX_SMR_RETRANSMIT, SMR_TIMEOUT, n, sent);
    var ds := RetryScript(y, x.heap, MAX_SMR_RETRANSMIT, SMR_TIMEOUT, sent);
    cs := [W.Create(x.heap)] + ds;
    Then(w, [W.Create(x.heap)], ds, x, y, SolicitedRequest(x, m, n, sent));
  }

  lemma ReplyLeads(w: W.Wheel, x: Xtr, n: Nonce, recs: seq<Record>, complete: bool) returns (cs: seq<W.Command>)
    requires Seen(w, x) && Base(x) && Roomy(x) && (BaseFacts(x); SafeReply(x, n, recs))
    ensures (BaseFacts(x); Leads(w, cs, x, MapReply(x, n, recs, complete).0))
  {
    hide Base, Seen, Inv, AddMappings, UpdateMapping, RemoveEntry, RemoveScript, StopOne, Survives;
    BaseFacts(x);
    if n !in x.reg.table {
      cs := [];
      Unseen(w, x, x);
      return;
    }
    var t := TimerOfNonce(x.reg, n);
    var m := x.reg.timers[t].obj;
    if !x.entries[m].active {
      cs := InstallLeads(w, x, m, recs);
    } else if recs == [] {
      cs := [];
      Unseen(w, x, x);
    } else {
      cs := AnswerLeads(w, x, recs[0], t);
    }
  }

  lemma InstallLeads(w: W.Wheel, x: Xtr, m: Obj, recs: seq<Record>) returns (cs: seq<W.Command>)
    requires Seen(w, x) && Base(x) && Roomy(x) && m in x.entries
    ensures Leads(w, cs, x, AddMappings(RemoveEntry(x, m, Answered(x.now)), recs))
  {
    hide Base, Seen, AddMappings, RemoveEntry, RemoveScript;
    var y := RemoveEntry(x, m, Answered(x.now));
    RemoveLeads(w, x, m, Answered(x.now));
    RemoveEntryBase(x, m, Answered(x.now));
    RemovedRoom(x, m, Answered(x.now));
    var ds := AddMappingsLead(W.DoAll(w, RemoveScript(x, m)), y, recs);
    cs := RemoveScript(x, m) + ds;
    Then(w, RemoveScript(x, m), ds, x, y, AddMappings(y, recs));
  }

  lemma RemoveLeads(w: W.Wheel, x: Xtr, m: Obj, ending: Ending)
    requires Seen(w, x) && Base(x) && m in x.entries
    ensures Leads(w, RemoveScript(x, m), x, RemoveEntry(x, m, ending))
  {
    hide Base, RemoveScript, RemoveEntry, W.Inv, WheelRuns.Alarms;
    RemoveSeen(w, x, m, ending);
  }

  lemma AnswerLeads(w: W.Wheel, x: Xtr, rec: Record, t: Timer) returns (cs: seq<W.Command>)
    requires Seen(w, x) && Base(x) && Roomy(x) && t in x.reg.timers && Survives(x, t, rec.eid)
    ensures (BaseFacts(x);
             var y, m := UpdateMapping(x, rec), x.reg.timers[t].obj;
             Leads(w, cs, x, y.(reg := StopOne(y.reg, m, t))))
  {
    hide Base, Seen, UpdateMapping, StopOne, Survives;
    BaseFacts(x);
    var y, m := UpdateMapping(x, rec), x.reg.timers[t].obj;
    var c := UpdateMappingLeads(w, x, rec);
    UpdateKeepsTimer(x, rec, t);
    StopOneLeads(W.DoAll(w, c), y, m, t);
    cs := c + Stops([t]);
    Then(w, c, Stops([t]), x, y, y.(reg := StopOne(y.reg, m, t)));
  }

  lemma RemovedRoom(x: Xtr, m: Obj, ending: Ending)
    requires m in x.entries
    ensures RemoveEntry(x, m, ending).heap == x.heap
  {}

  lemma ProbedLeads(w: W.Wheel, x: Xtr, n: Nonce, rec: Option<Record>, addr: int) returns (cs: seq<W.Command>)
    requires Seen(w, x) && Base(x) && Roomy(x)
    ensures (BaseFacts(x); Leads(w, cs, x, ProbeReply(x, n, rec, addr).0))
  {
    hide Base, Seen, Inv, ProbeAnswered, StopOne, Silence;
    BaseFacts(x);
    if n !in x.reg.table || rec.None? || ProbedEntry(x, rec.value.eid).None? {
      cs := [];
      Unseen(w, x, x);
      return;
    }
    var t, m := TimerOfNonce(x.reg, n), ProbedEntry(x, rec.value.eid).value;
    var y := ProbeAnswered(x, m, addr);
    var c := AnsweredLeads(w, x, m, addr);
    ProbeAnsweredKeeps(x, m, addr, t);
    var z := y.(reg := StopOne(y.reg, m, t));
    StopOneLeads(W.DoAll(w, c), y, m, t);
    cs := c + Stops([t]);
    Then(w, c, Stops([t]), x, y, z);
    SilentEnd(w, cs, x, z, ProbeReply(x, n, rec, addr).0);
  }

  lemma SilentEnd(w: W.Wheel, cs: seq<W.Command>, x: Xtr, y: Xtr, z: Xtr)
    requires Leads(w, cs, x, y) && z == y.(misses := z.misses)
    ensures Leads(w, cs, x, z)
  {
    hide W.Inv, W.DoAll, W.LegalScript, WheelRuns.Alarms;
  }

  lemma AnsweredLeads(w: W.Wheel, x: Xtr, m: Obj, addr: int) returns (cs: seq<W.Command>)
    requires Seen(w, x) && Base(x) && Roomy(x) && m in x.entries
    ensures Leads(w, cs, x, ProbeAnswered(x, m, addr))
  {
    hide Base, Seen, FindByAddr, MarkLocator, ProbeLocator;
    match FindByAddr(x.entries[m].locs, addr)
    case None =>
      cs := [];
      Unseen(w, x, x);
    case Some(id) =>
      var y := MarkLocator(x, m, id, true);
      MarkLocatorShape(x, m, id, true);
      MarkLocatorBase(x, m, id, true);
      SeenSame(w, x, y);
      cs := [W.Create(x.heap)] + [W.Start(x.heap, x.cfg.probeInterval)];
      ProbeIs(y, m, id);
      NewArmedLeads(w, y, Probing, m, id, x.cfg.probeInterval);
      SameStart(w, cs, x, y, ProbeLocator(y, m, id));
  }

  /** Every packet and message moves the router as some script of wheel commands moves the wheel. */
  lemma EventIsScript(w: W.Wheel, x: Xtr, e: Event) returns (cs: seq<W.Command>)
    requires Seen(w, x) && Good(x) && Roomy(x) && Enabled(x, e)
    requires e.Missed? || e.Solicited? || e.Reply? || e.Probed?
    ensures W.LegalScript(cs, w.live) && Seen(W.DoAll(w, cs), Step(x, e))
  {
    hide Base, XtrMisses.MissesOk, Seen, SafeReply, OwnEntry, CacheMiss, SolicitedRequest, MapReply, ProbeReply, W.DoAll,
      W.LegalScript;
    BaseFacts(x);
    match e {
      case Missed(eid, n, sent) => cs := MissLeads(w, x, eid, n, sent);
      case Solicited(m, n, sent) => cs := SolicitedLeads(w, x, m, n, sent);
      case Reply(n, recs, complete) => cs := ReplyLeads(w, x, n, recs, complete);
      case Probed(n, rec, addr) => cs := ProbedLeads(w, x, n, rec, addr);
    }
  }
}
