/**
  The tunnel router on the timer wheel. The router's alarms are those of the wheel, its callbacks
  are scripts of wheel commands, and one tick of the wheel with these callbacks is one run of the
  router: the clock advances, the due timers fire one after the other, the tick ends.
 */
module XtrWheel {
  import opened Seqs
  import opened RegistrySpec
  import opened XtrSpec
  import opened XtrInvariant
  import opened XtrRuns
  import opened XtrTheorems
  import opened WheelScripts
  import XtrMisses
  import W = WheelSpec
  import WheelRuns

  /** What the wheel holds is what the router believes: the same timers, alarms, clock and phase. */
  ghost predicate Seen(w: W.Wheel, x: Xtr) {
    && W.Inv(w) && w.live == x.reg.timers.Keys && WheelRuns.Alarms(w) == x.reg.alarms
    && w.now == x.now && w.draining == x.ticking
  }

  // ---------- the callbacks as scripts ----------

  function RemoveScript(x: Xtr, m: Obj): seq<W.Command>
    requires m in x.entries
  {
    if x.entries[m].eid in x.cache then Stops(TimersOf(x.reg, x.cache[x.entries[m].eid])) else []
  }

  function RetryScript(x: Xtr, t: Timer, limit: int, timeout: int, sent: bool): seq<W.Command>
    requires HasList(x.reg, t) && x.reg.timers[t].obj in x.entries
  {
    if |NoncesOf(x.reg, t)| - 1 < limit then if sent then [W.Start(t, timeout)] else []
    else RemoveScript(x, x.reg.timers[t].obj)
  }

  function ProbeScript(x: Xtr, t: Timer, sent: bool): seq<W.Command>
    requires HasList(x.reg, t) && x.reg.timers[t].obj in x.entries
  {
    var m := x.reg.timers[t].obj;
    if |NoncesOf(x.reg, t)| - 1 < x.cfg.probeRetries then
      if sent then [W.Start(t, x.cfg.probeRetryInterval)] else []
    else if IsUp(x.entries[m].locs, x.reg.timers[t].part) && x.entries[m].eid !in x.cache && m != x.cfg.petrs then []
    else [W.Start(t, x.cfg.probeInterval)]
  }

  /** What the callback of a timer asks of the wheel. */
  function CallbackScript(x: Xtr, t: Timer, sent: bool): seq<W.Command>
    requires CallbackReady(x, t)
  {
    match x.reg.timers[t].kind
    case Expiry => RemoveScript(x, x.reg.timers[t].obj)
    case RequestRetry => RetryScript(x, t, x.cfg.requestRetries, MRQ_TIMEOUT, sent)
    case SmrRetry => RetryScript(x, t, MAX_SMR_RETRANSMIT, SMR_TIMEOUT, sent)
    case Probing => ProbeScript(x, t, sent)
    case _ => []
  }

  lemma NothingSeen(w: W.Wheel, x: Xtr, y: Xtr)
    requires Seen(w, x) && y.reg.timers.Keys == x.reg.timers.Keys && y.reg.alarms == x.reg.alarms
    requires y.now == x.now && y.ticking == x.ticking
    ensures W.LegalScript([], w.live) && Seen(W.DoAll(w, []), y)
  {
    hide W.Inv;
  }

  lemma StartSeen(w: W.Wheel, x: Xtr, y: Xtr, t: Timer, duration: int)
    requires Seen(w, x) && t in x.reg.timers && y.reg.timers.Keys == x.reg.timers.Keys
    requires y.reg.alarms == x.reg.alarms[t := Due(x, duration)] && y.now == x.now && y.ticking == x.ticking
    ensures W.LegalScript([W.Start(t, duration)], w.live) && Seen(W.DoAll(w, [W.Start(t, duration)]), y)
  {
    hide W.Inv, W.StartTimer, WheelRuns.Alarms, W.FiringDelay;
    var c := W.Start(t, duration);
    assert W.Legal(c, w.live);
    WheelRuns.DoAllOne(w, c);
    WheelRuns.StartSetsAlarm(w, t, duration);
    W.DoKeepsClock(w, c);
  }

  lemma RemoveSeen(w: W.Wheel, x: Xtr, m: Obj, ending: Ending)
    requires Seen(w, x) && Base(x) && m in x.entries
    ensures W.LegalScript(RemoveScript(x, m), w.live)
    ensures Seen(W.DoAll(w, RemoveScript(x, m)), RemoveEntry(x, m, ending))
  {
    hide Base, W.Inv, WheelRuns.Alarms;
    BaseFacts(x);
    if x.entries[m].eid in x.cache {
      var d := x.cache[x.entries[m].eid];
      var ts := TimersOf(x.reg, d);
      ListedTimers(x.reg, d);
      StopsDo(w, ts);
      StopAllAlarms(x.reg, d);
    } else {
      NothingSeen(w, x, x);
    }
  }

  lemma ListedTimers(r: Registry, d: Obj)
    requires Inv(r)
    ensures var ts := TimersOf(r, d);
            NoRepeats(ts) && forall t :: t in Elements(ts) ==> t in r.timers
  {
    hide TableOk, ListsOk;
  }

  lemma StopAllAlarms(r: Registry, d: Obj)
    ensures StopAll(r, d).timers.Keys == r.timers.Keys - Elements(TimersOf(r, d))
    ensures StopAll(r, d).alarms == r.alarms - Elements(TimersOf(r, d))
  {}

  /** A callback moves the router as its script moves the wheel. */
  lemma CallbackSeen(w: W.Wheel, x: Xtr, t: Timer, n: Nonce, sent: bool)
    requires Seen(w, x) && Base(x) && CallbackReady(x, t)
    ensures W.LegalScript(CallbackScript(x, t, sent), w.live)
    ensures Seen(W.DoAll(w, CallbackScript(x, t, sent)), Callback(x, t, n, sent))
  {
    hide Base, W.Inv, Seen, RemoveScript, RemoveEntry, RetryScript, RetryCallback, ProbeScript, ProbeCallback;
    match x.reg.timers[t].kind
    case Expiry => RemoveSeen(w, x, x.reg.timers[t].obj, Displaced(x.now));
    case RequestRetry => RetrySeen(w, x, t, x.cfg.requestRetries, MRQ_TIMEOUT, n, sent);
    case SmrRetry => RetrySeen(w, x, t, MAX_SMR_RETRANSMIT, SMR_TIMEOUT, n, sent);
    case Probing => ProbeSeen(w, x, t, n, sent);
  }

  lemma RetrySeen(w: W.Wheel, x: Xtr, t: Timer, limit: int, timeout: int, n: Nonce, sent: bool)
    requires Seen(w, x) && Base(x) && HasList(x.reg, t) && x.reg.timers[t].obj in x.entries
    ensures W.LegalScript(RetryScript(x, t, limit, timeout, sent), w.live)
    ensures Seen(W.DoAll(w, RetryScript(x, t, limit, timeout, sent)), RetryCallback(x, t, limit, timeout, n, sent))
  {
    hide Base, W.Inv, Seen, RemoveScript, RemoveEntry, W.DoAll, AddNonce;
    var m := x.reg.timers[t].obj;
    var y := RetryCallback(x, t, limit, timeout, n, sent);
    NoncesOnly(x.reg, n, x.reg.timers[t].nonces.value);
    if |NoncesOf(x.reg, t)| - 1 < limit {
      if sent { StartSeen(w, x, y, t, timeout); } else { NothingSeen(w, x, y); }
    } else {
      RemoveSeen(w, x, m, if x.reg.timers[t].kind == RequestRetry then TimedOut(x.now) else Displaced(x.now));
    }
  }

  lemma ProbeSeen(w: W.Wheel, x: Xtr, t: Timer, n: Nonce, sent: bool)
    requires Seen(w, x) && HasList(x.reg, t) && x.reg.timers[t].obj in x.entries
    ensures W.LegalScript(ProbeScript(x, t, sent), w.live)
    ensures Seen(W.DoAll(w, ProbeScript(x, t, sent)), ProbeCallback(x, t, n, sent))
  {
    hide W.Inv, Seen, W.DoAll, IsUp, SetUp, AddNonce, Reset;
    var m := x.reg.timers[t].obj;
    var y := ProbeCallback(x, t, n, sent);
    NoncesOnly(x.reg, n, x.reg.timers[t].nonces.value);
    if |NoncesOf(x.reg, t)| - 1 < x.cfg.probeRetries {
      if sent { StartSeen(w, x, y, t, x.cfg.probeRetryInterval); } else { NothingSeen(w, x, y); }
    } else if IsUp(x.entries[m].locs, x.reg.timers[t].part) && x.entries[m].eid !in x.cache && m != x.cfg.petrs {
      NothingSeen(w, x, y);
    } else {
      StartSeen(w, x, y, t, x.cfg.probeInterval);
    }
  }

  // ---------- one turn of the drain loop ----------

  /** While a probe timer exists, no interval it is armed with is a whole turn of the wheel. */
  ghost predicate NoWholeTurns(x: Xtr) {
    forall t :: IsKind(x.reg.timers, t, Probing) ==>
      x.cfg.probeInterval % W.WHEEL_SIZE != 0 && x.cfg.probeRetryInterval % W.WHEEL_SIZE != 0
  }

  lemma ScriptNoFullTurn(x: Xtr, t: Timer, sent: bool)
    requires CallbackReady(x, t) && NoWholeTurns(x)
    ensures W.NoFullTurn(CallbackScript(x, t, sent))
  {
    assert x.reg.timers[t].kind == Probing ==> IsKind(x.reg.timers, t, Probing);
  }

  /** Of the timers still due in this tick, a callback adds none and its own is gone. */
  lemma DueShrinks(x: Xtr, t: Timer, n: Nonce, sent: bool)
    requires CallbackReady(x, t) && NoWholeTurns(x) && t !in x.reg.alarms
    ensures var y := Callback(x, t, n, sent);
            && NoWholeTurns(y)
            && (forall u :: u in y.reg.alarms && y.reg.alarms[u] == x.now ==>
                  u != t && u in x.reg.alarms && x.reg.alarms[u] == x.now)
  {
    hide Fewer, Callback;
    CallbackFewer(x, t, n, sent);
    FewerDue(x, Callback(x, t, n, sent), t);
  }

  lemma CallbackFewer(x: Xtr, t: Timer, n: Nonce, sent: bool)
    requires CallbackReady(x, t) && NoWholeTurns(x)
    ensures Fewer(x, Callback(x, t, n, sent), t)
  {
    hide RetryCallback, ProbeCallback, RemoveEntry, Fewer;
    assert x.reg.timers[t].kind == Probing ==> IsKind(x.reg.timers, t, Probing);
    match x.reg.timers[t].kind {
      case Expiry => RemoveAlarms(x, x.reg.timers[t].obj, Displaced(x.now), t);
      case RequestRetry => RetryAlarms(x, t, x.cfg.requestRetries, MRQ_TIMEOUT, n, sent);
      case SmrRetry => RetryAlarms(x, t, MAX_SMR_RETRANSMIT, SMR_TIMEOUT, n, sent);
      case Probing => ProbeAlarms(x, t, n, sent);
    }
  }

  lemma FewerDue(x: Xtr, y: Xtr, t: Timer)
    requires Fewer(x, y, t) && NoWholeTurns(x) && t !in x.reg.alarms
    ensures NoWholeTurns(y)
    ensures forall u :: u in y.reg.alarms && y.reg.alarms[u] == x.now ==>
              u != t && u in x.reg.alarms && x.reg.alarms[u] == x.now
  {
    assert forall u, k :: IsKind(y.reg.timers, u, k) ==> IsKind(x.reg.timers, u, k);
  }

  /** Timers may have gone, alarms may be gone, and only t may have a new one, which lies ahead. */
  ghost predicate Fewer(x: Xtr, y: Xtr, t: Timer) {
    && y.cfg == x.cfg && y.now == x.now
    && (forall u :: u in y.reg.timers ==> u in x.reg.timers && y.reg.timers[u] == x.reg.timers[u])
    && (forall u :: u in y.reg.alarms ==>
          (u in x.reg.alarms && y.reg.alarms[u] == x.reg.alarms[u]) || (u == t && y.reg.alarms[u] > x.now))
  }

  lemma RemoveAlarms(x: Xtr, m: Obj, ending: Ending, t: Timer)
    requires m in x.entries
    ensures Fewer(x, RemoveEntry(x, m, ending), t)
  {
    hide TimersOf, Belongs;
  }

  lemma RetryAlarms(x: Xtr, t: Timer, limit: int, timeout: int, n: Nonce, sent: bool)
    requires HasList(x.reg, t) && x.reg.timers[t].obj in x.entries && timeout % W.WHEEL_SIZE != 0
    ensures Fewer(x, RetryCallback(x, t, limit, timeout, n, sent), t)
  {
    hide AddNonce, RemoveEntry;
    NoncesOnly(x.reg, n, x.reg.timers[t].nonces.value);
    RemoveAlarms(x, x.reg.timers[t].obj, if x.reg.timers[t].kind == RequestRetry then TimedOut(x.now) else Displaced(x.now), t);
  }

  lemma ProbeAlarms(x: Xtr, t: Timer, n: Nonce, sent: bool)
    requires HasList(x.reg, t) && x.reg.timers[t].obj in x.entries
    requires x.cfg.probeInterval % W.WHEEL_SIZE != 0 && x.cfg.probeRetryInterval % W.WHEEL_SIZE != 0
    ensures Fewer(x, ProbeCallback(x, t, n, sent), t)
  {
    hide Fewer, IssueNonce, ForgetNonces, ArmTimer, MarkLocator, IsUp;
    var m, id := x.reg.timers[t].obj, x.reg.timers[t].part;
    MarkLocatorShape(x, m, id, false);
    FewerSelf(x, x, t);
    FewerSelf(x, MarkLocator(x, m, id, false), t);
    IssuedFewer(x, t, n, x.cfg.probeRetryInterval);
    ForgottenFewer(x, x, t, x.cfg.probeInterval);
    ForgottenFewer(x, MarkLocator(x, m, id, false), t, x.cfg.probeInterval);
  }

  lemma FewerSelf(x: Xtr, y: Xtr, t: Timer)
    requires y == x.(entries := y.entries)
    ensures Fewer(x, y, t)
  {}

  lemma IssuedFewer(x: Xtr, t: Timer, n: Nonce, duration: int)
    requires HasList(x.reg, t) && duration % W.WHEEL_SIZE != 0
    ensures Fewer(x, ArmTimer(IssueNonce(x, t, n), t, duration), t)
  {
    hide AddNonce;
    NoncesOnly(x.reg, n, x.reg.timers[t].nonces.value);
  }

  lemma ForgottenFewer(x: Xtr, y: Xtr, t: Timer, duration: int)
    requires y == x.(entries := y.entries) && HasList(x.reg, t) && duration % W.WHEEL_SIZE != 0
    ensures HasList(y.reg, t) && Fewer(x, ArmTimer(ForgetNonces(y, t), t, duration), t)
  {
    hide Reset;
    NoncesOnly(x.reg, 0, x.reg.timers[t].nonces.value);
  }

  /** The firing of a timer by the wheel is a firing of the router. */
  lemma FireSeen(w: W.Wheel, x: Xtr, n: Nonce, sent: bool)
    requires Seen(w, x) && Good(x) && NoWholeTurns(x) && n !in x.used && w.draining
    requires w.spokes[w.current] != [] && W.HeadRotation(w) == 0
    ensures var t := w.spokes[w.current][0];
            && Enabled(x, Fire(t, n, sent)) && t in w.slot && W.Due(w.armings[w.last[t]]) == w.now
            && (FireReady(x, t);
                var s := CallbackScript(Expired(x, t), t, sent);
                && W.LegalScript(s, w.live) && W.NoFullTurn(s)
                && Seen(Ran(w, t, s), Step(x, Fire(t, n, sent))))
  {
    hide Base, W.Inv, XtrMisses.MissesOk, Callback, CallbackScript, CallbackReady, W.Unlink, WheelRuns.Alarms;
    W.OneSpoke(w);
    var t := w.spokes[w.current][0];
    W.HeadIsDue(w);
    HeadAlarm(w, t);
    FireReady(x, t);
    var u := W.Unlink(w, t, W.Fired(w.now));
    WheelRuns.UnlinkClearsAlarm(w, t, W.Fired(w.now));
    WheelRuns.UnlinkKeepsClock(w, t, W.Fired(w.now));
    CallbackSeen(u, Expired(x, t), t, n, sent);
    ScriptNoFullTurn(Expired(x, t), t, sent);
  }

  // ---------- the drain loop ----------

  /** What happens to the router from outside when a timer fires: the nonce drawn, and whether the send succeeds. */
  type Env = (Xtr, Timer) -> (Nonce, bool)

  ghost predicate Draws(env: Env) {
    forall x, t {:trigger env(x, t)} :: env(x, t).0 !in x.used
  }

  lemma StepShrinks(x: Xtr, t: Timer, n: Nonce, sent: bool)
    requires Good(x) && NoWholeTurns(x) && Enabled(x, Fire(t, n, sent))
    ensures var y := Step(x, Fire(t, n, sent));
            && NoWholeTurns(y) && y.now == x.now
            && (forall u :: u in y.reg.alarms && y.reg.alarms[u] == y.now ==>
                  u != t && u in x.reg.alarms && x.reg.alarms[u] == x.now)
  {
    hide Base, XtrMisses.MissesOk, Callback, CallbackReady;
    FireReady(x, t);
    DueShrinks(Expired(x, t), t, n, sent);
    CallbackClock(Expired(x, t), t, n, sent);
  }

  lemma CallbackClock(x: Xtr, t: Timer, n: Nonce, sent: bool)
    requires CallbackReady(x, t) && NoWholeTurns(x) && t !in x.reg.alarms
    ensures Callback(x, t, n, sent).now == x.now
  {
    hide Callback;
    CallbackFewer(x, t, n, sent);
  }

  /** Firings in which each timer meets what comes from outside. */
  ghost predicate Follows(x: Xtr, fires: seq<Event>, env: Env)
    requires Good(x)
    decreases |fires|
  {
    fires == []
    || (Enabled(x, fires[0]) && fires[0].Fire? && (fires[0].n, fires[0].sent) == env(x, fires[0].t)
        && (StepGood(x, fires[0]); Follows(Step(x, fires[0]), fires[1..], env)))
  }

  /** The drain loop with the router's callbacks is a sequence of firings, after which nothing is due. */
  lemma {:induction false} DrainIsRun(w: W.Wheel, x: Xtr, env: Env)
      returns (scripts: Scripts, fires: seq<Event>, y: Xtr)
    requires Seen(w, x) && Good(x) && NoWholeTurns(x) && Draws(env) && w.draining
    ensures DueNow(scripts, x.reg.alarms, x.now) && Follows(x, fires, env)
    ensures RunOf(x, fires, y) && Good(y) && NoWholeTurns(y) && Enabled(y, EndTick) && y.now == x.now
    ensures DrainedTo(w, scripts, y.reg.timers.Keys, y.reg.alarms)
    decreases |w.spokes[w.current]|, W.HeadRotation(w)
  {
    hide Base, W.Inv, XtrMisses.MissesOk, Callback, CallbackScript, CallbackReady, WheelRuns.Alarms, Step, Ran,
      W.DrainStep, W.NoFullTurn, W.LegalScript, W.HeadRotation, Lowered;
    W.OneSpoke(w);
    if w.spokes[w.current] == [] {
      scripts, fires, y := map[], [], x;
      EmptyDrained(w);
    } else if W.HeadRotation(w) > 0 {
      LoweredIs(w, NoCallback());
      scripts, fires, y := DrainIsRun(Lowered(w), x, env);
      LoweredDrained(w, scripts, y.reg.timers.Keys, y.reg.alarms);
    } else {
      var t, n, sent := w.spokes[w.current][0], env(x, w.spokes[w.current][0]).0, env(x, w.spokes[w.current][0]).1;
      var e := Fire(t, n, sent);
      FireSeen(w, x, n, sent);
      HeadAlarm(w, t);
      FireReady(x, t);
      StepGood(x, e);
      var s := CallbackScript(Expired(x, t), t, sent);
      RanShortens(w, t, s);
      StepShrinks(x, t, n, sent);
      var rest;
      scripts, rest, y := DrainIsRun(Ran(w, t, s), Step(x, e), env);
      fires := [e] + rest;
      DueBefore(scripts, x.reg.alarms, Step(x, e).reg.alarms, x.now, t, s);
      RanDrained(w, t, s, scripts, y.reg.timers.Keys, y.reg.alarms);
      scripts := scripts[t := s];
      assert fires[1..] == rest;
    }
  }

  // ---------- the tick ----------

  lemma AdvanceSeen(w: W.Wheel, x: Xtr)
    requires Seen(w, x) && !x.ticking
    ensures Seen(W.Advance(w), x.(now := x.now + 1, ticking := true))
  {
    hide W.Wired, W.Booked, WheelRuns.DueTicks;
  }

  lemma EndSeen(w: W.Wheel, x: Xtr)
    requires Seen(w, x) && W.Inv(w.(draining := false))
    ensures Seen(w.(draining := false), x.(ticking := false))
  {
    hide W.Inv, WheelRuns.DueTicks;
  }

  /**
    One tick of the wheel is one tick of the router: for whatever nonces are drawn and sends
    succeed there are callbacks with which the wheel, in step with the router before, is in step
    with it after the router's clock has advanced, its due timers have fired and its tick has ended.
   */
  lemma TickIsRun(w: W.Wheel, x: Xtr, env: Env) returns (cb: W.Callback, fires: seq<Event>, y: Xtr)
    requires Seen(w, x) && Good(x) && NoWholeTurns(x) && Draws(env) && !x.ticking
    ensures W.WellBehaved(cb) && W.NeverArmsFullTurn(cb)
    ensures (StepGood(x, BeginTick); Follows(Step(x, BeginTick), fires, env))
    ensures RunOf(x, [BeginTick] + fires + [EndTick], y) && Good(y) && NoWholeTurns(y) && !y.ticking
    ensures Seen(W.Tick(w, cb), y)
  {
    hide Base, W.Inv, XtrMisses.MissesOk, WheelRuns.Alarms, Draws, Agrees, RunOf, Follows;
    var x1 := Step(x, BeginTick);
    StepGood(x, BeginTick);
    AdvanceSeen(w, x);
    assert NoWholeTurns(x1);
    var scripts, y1;
    scripts, fires, y1 := DrainIsRun(W.Advance(w), x1, env);
    cb := Running(scripts);
    RunningTick(scripts, x1.reg.alarms, x1.now);
    var u := W.Drain(W.Advance(w), cb);
    assert Seen(u, y1);
    W.EmptySpokeNothingDue(u);
    y := Step(y1, EndTick);
    EndSeen(u, y1);
    StepGood(y1, EndTick);
    RunOne(x, BeginTick);
    RunOne(y1, EndTick);
    RunThen(x, [BeginTick], x1, fires, y1);
    RunThen(x, [BeginTick] + fires, y1, [EndTick], y);
  }
}
