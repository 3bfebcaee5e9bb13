/**
  Replies that do not fit the request whose nonce they bear. tr_recv_map_reply finds the timer by
  the nonce alone, so a reply of either kind may reach a timer of the other kind or of another
  entry; this module says for every such reply what becomes of the tables and of the miss.
 */
module XtrMismatch {
  import opened Options
  import opened RegistrySpec
  import opened XtrSpec
  import opened XtrInvariant
  import opened XtrMisses
  import opened XtrRuns

  // ---------- probe replies ----------

  /**
    After a probe reply the registry is consistent if and only if the timer belongs to the entry
    that the reply is about; otherwise a freed timer stays in the index of its object.
   */
  lemma ProbeReplyInvIff(x: Xtr, n: Nonce, rec: Record, addr: int)
    requires Base(x) && n in x.reg.table && ProbedEntry(x, rec.eid).Some?
    ensures (BaseFacts(x); Inv(ProbeReply(x, n, Some(rec), addr).0.reg) <==> OwnEntry(x, n, rec.eid))
  {
    hide Base, Inv, StopOne, ProbeAnswered;
    BaseFacts(x);
    var t, m := TimerOfNonce(x.reg, n), ProbedEntry(x, rec.eid).value;
    var y := ProbeAnswered(x, m, addr);
    ProbeAnsweredBase(x, m, addr);
    ProbeAnsweredKeeps(x, m, addr, t);
    BaseFacts(y);
    StopOneKeepsInvIff(y.reg, m, t);
  }

  /**
    A probe reply ends a miss if and only if it bears a nonce of that miss. The miss is then never
    requested again, and its placeholder stays in the cache, where it keeps its prefix from missing.
   */
  lemma SilencedIff(x: Xtr, n: Nonce, rec: Record, addr: int, m: Obj)
    requires Good(x) && Enabled(x, Probed(n, Some(rec), addr)) && n in x.reg.table && ProbedEntry(x, rec.eid).Some?
    requires m in x.misses && x.misses[m].ending == Open
    ensures var y := Step(x, Probed(n, Some(rec), addr));
            && m in y.misses
            && (y.misses[m].ending != Open <==> n in x.misses[m].nonces)
            && (n in x.misses[m].nonces ==>
                  && y.misses[m] == x.misses[m].(ending := Silenced(x.now))
                  && m in y.entries && !y.entries[m].active
                  && y.entries[m].eid in y.cache && y.cache[y.entries[m].eid] == m
                  && forall t :: IsKind(y.reg.timers, t, RequestRetry) ==> y.reg.timers[t].obj != m)
  {
    hide Base, Inv, MissesOk, StopOne, ProbeAnswered, Waiting;
    var e := Probed(n, Some(rec), addr);
    BaseFacts(x);
    var t, k := TimerOfNonce(x.reg, n), ProbedEntry(x, rec.eid).value;
    var y := ProbeAnswered(x, k, addr);
    ProbeAnsweredMisses(x, k, addr);
    MissNonces(x, n, m);
    StepGood(x, e);
    if n in x.misses[m].nonces { PlaceholderStays(x, e, m); }
  }

  lemma ProbeAnsweredMisses(x: Xtr, m: Obj, addr: int)
    requires m in x.entries
    ensures ProbeAnswered(x, m, addr).misses == x.misses
  {}

  /** An outstanding nonce is one of an open miss exactly if it leads to the timer of that miss. */
  lemma MissNonces(x: Xtr, n: Nonce, m: Obj)
    requires Good(x) && m in x.misses && x.misses[m].ending == Open && n in x.reg.table
    ensures Inv(x.reg) && (n in x.misses[m].nonces <==> TimerOfNonce(x.reg, n) == x.misses[m].timer)
    ensures n in x.misses[m].nonces ==> x.reg.timers[TimerOfNonce(x.reg, n)].obj == m
  {
    hide Allocated, TimersOk, CacheOk, BoundsOk, ClockOk, IndexOk;
    assert MissOk(x, m);
    var t, l := x.misses[m].timer, x.reg.table[n];
    assert Waiting(x, m, x.misses[m]);
    var k := x.reg.timers[t].nonces.value;
    assert k in x.reg.lists && l in x.reg.lists;
  }

  lemma PlaceholderStays(x: Xtr, e: Event, m: Obj)
    requires Good(x) && e.Probed? && Enabled(x, e) && Good(Step(x, e))
    requires m in x.misses && x.misses[m].ending == Open && m in Step(x, e).misses
    requires Step(x, e).misses[m].ending != Open
    ensures var y := Step(x, e);
            && m in y.entries && !y.entries[m].active
            && y.entries[m].eid in y.cache && y.cache[y.entries[m].eid] == m
            && forall t :: IsKind(y.reg.timers, t, RequestRetry) ==> y.reg.timers[t].obj != m
  {
    hide Inv, Allocated, TimersOk, BoundsOk, ClockOk, StopOne, SetUp, Create, FindByAddr;
    BaseFacts(x);
    assert MissOk(x, m) && Waiting(x, m, x.misses[m]);
  }

  // ---------- Map-Replies ----------

  lemma ProbesAfterStop(x: Xtr, m: Obj, locs: seq<Loc>, t: Timer)
    requires t < x.heap && t !in x.reg.timers
    ensures t !in ProbeLocators(x, m, locs).reg.timers
    decreases |locs|
  {
    if locs != [] { ProbesAfterStop(ProbeLocator(x, m, locs[0].id), m, locs[1..], t); }
  }

  /**
    The update that a Map-Reply begins with stops a timer if and only if it is a probe timer of the
    entry updated, while probing is on.
   */
  lemma UpdateStopsIff(x: Xtr, rec: Record, t: Timer)
    requires Base(x) && t in x.reg.timers
    ensures (BaseFacts(x); t in UpdateMapping(x, rec).reg.timers <==> Survives(x, t, rec.eid))
  {
    hide Base, Inv, StartExpiry, ProbeLocators;
    BaseFacts(x);
    TimerBelowHeap(x, t);
    if Survives(x, t, rec.eid) {
      UpdateKeepsTimer(x, rec, t);
    } else {
      var m := x.cache[rec.eid];
      var y := x.(entries := x.entries[m := x.entries[m].(locs := MakeLocs(rec.addrs, x.heap))],
                  heap := x.heap + |rec.addrs|);
      StartExpiryKeeps(y, m, t);
      var z := StartExpiry(y, m);
      var w := z.(reg := StopKind(z.reg, m, Probing));
      assert t !in w.reg.timers;
      ProbesAfterStop(w, m, z.entries[m].locs, t);
    }
  }

  /**
    The timer that a Map-Reply for an active entry has stopped in the end has been freed before
    that, by the reply's own update, if and only if the reply is not safe.
   */
  lemma StoppedTwiceIff(x: Xtr, n: Nonce, recs: seq<Record>)
    requires Base(x) && n in x.reg.table && recs != []
    requires (BaseFacts(x); x.entries[x.reg.timers[TimerOfNonce(x.reg, n)].obj].active)
    ensures (BaseFacts(x);
             TimerOfNonce(x.reg, n) !in UpdateMapping(x, recs[0]).reg.timers <==> !SafeReply(x, n, recs))
  {
    hide Base, Inv, UpdateMapping, Survives;
    BaseFacts(x);
    UpdateStopsIff(x, recs[0], TimerOfNonce(x.reg, n));
  }
}
