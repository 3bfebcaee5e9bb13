/**
  Whole runs of the timer wheel: any interleaving of protocol code that creates, starts,
  restarts and stops timers with ticks whose callbacks do the same.
 */
module WheelRuns {
  import opened Options
  import opened WheelSpec

  datatype Event = Script(commands: seq<Command>) | TickEvent(cb: Callback)

  ghost predicate Enabled(w: Wheel, e: Event) {
    match e
    case Script(cs) => LegalScript(cs, w.live)
    case TickEvent(cb) => WellBehaved(cb) && NeverArmsFullTurn(cb)
  }

  ghost function Step(w: Wheel, e: Event): (w': Wheel)
    requires Inv(w) && !w.draining && Enabled(w, e)
    ensures Inv(w') && !w'.draining
  {
    match e
    case Script(cs) => DoAllKeepsClock(w, cs); DoAll(w, cs)
    case TickEvent(cb) => Tick(w, cb)
  }

  ghost predicate RunOf(w: Wheel, es: seq<Event>, w': Wheel)
    requires Inv(w) && !w.draining
    decreases |es|
  {
    if es == [] then w' == w else Enabled(w, es[0]) && RunOf(Step(w, es[0]), es[1..], w')
  }

  ghost predicate Reachable(w: Wheel) {
    exists es :: RunOf(Initial(), es, w)
  }

  lemma {:induction false} RunKeepsInv(w: Wheel, es: seq<Event>, w': Wheel)
    requires Inv(w) && !w.draining && RunOf(w, es, w')
    ensures Inv(w') && !w'.draining
    decreases |es|
  {
    if es != [] { RunKeepsInv(Step(w, es[0]), es[1..], w'); }
  }

  // ---------- what may become of an arming ----------

  predicate Mentions(c: Command, t: Address) {
    (c.Start? || c.Stop?) && c.t == t
  }

  predicate Spares(cs: seq<Command>, t: Address) {
    forall i :: 0 <= i < |cs| ==> !Mentions(cs[i], t)
  }

  /** Callbacks of other timers leave t alone; its own may do anything. */
  ghost predicate OthersSpare(cb: Callback, t: Address) {
    forall u, live {:trigger cb(u, live)} :: u != t ==> Spares(cb(u, live), t)
  }

  /** Arming i is still in the history, its settled fate is final, and it was not cancelled. */
  ghost predicate Kept(w: Wheel, w': Wheel, i: nat)
    requires i < |w.armings|
  {
    && |w.armings| <= |w'.armings|
    && w'.armings[i].(fate := Pending) == w.armings[i].(fate := Pending)
    && (w.armings[i].fate == Pending ==> w'.armings[i].fate != Cancelled)
    && (w.armings[i].fate != Pending ==> w'.armings[i].fate == w.armings[i].fate)
  }

  lemma DoKeeps(w: Wheel, c: Command, i: nat)
    requires Inv(w) && Legal(c, w.live) && i < |w.armings|
    requires w.armings[i].fate == Pending ==> !Mentions(c, w.armings[i].timer)
    ensures Kept(w, Do(w, c), i)
  {
    if !c.Create? && c.t in w.slot {
      UnlinkKeeps(w, c.t, Cancelled, i);
    }
  }

  lemma UnlinkKeeps(w: Wheel, t: Address, fate: Fate, i: nat)
    requires Inv(w) && t in w.slot && i < |w.armings|
    requires fate == Cancelled || (fate == Fired(w.now) && Due(w.armings[w.last[t]]) == w.now)
    requires fate == Cancelled && w.armings[i].fate == Pending ==> w.armings[i].timer != t
    ensures Kept(w, Unlink(w, t, fate), i)
  {
    assert Unlink(w, t, fate).armings == w.armings[w.last[t] := w.armings[w.last[t]].(fate := fate)];
    hide Wired, DueOnSpoke, FiringDelay;
  }

  lemma {:induction false} DoAllKeeps(w: Wheel, cs: seq<Command>, i: nat)
    requires Inv(w) && LegalScript(cs, w.live) && i < |w.armings|
    requires w.armings[i].fate == Pending ==> Spares(cs, w.armings[i].timer)
    ensures Kept(w, DoAll(w, cs), i)
    decreases |cs|
  {
    hide Inv, Do, Legal, LiveAfter;
    if cs != [] {
      DoKeeps(w, cs[0], i);
      DoAllKeeps(Do(w, cs[0]), cs[1..], i);
    }
  }

  lemma {:induction false} DrainKeeps(w: Wheel, cb: Callback, i: nat)
    requires Inv(w) && WellBehaved(cb) && NeverArmsFullTurn(cb) && w.draining
    requires i < |w.armings|
    requires w.armings[i].fate == Pending ==> OthersSpare(cb, w.armings[i].timer)
    ensures Kept(w, Drain(w, cb), i)
    decreases |w.spokes[w.current]|, HeadRotation(w)
  {
    hide Inv, WellBehaved, NeverArmsFullTurn, OthersSpare, DrainStep, HeadRotation;
    OneSpoke(w);
    if w.spokes[w.current] != [] {
      DrainStepKeeps(w, cb, i);
      DrainStepProgress(w, cb);
      DrainKeeps(DrainStep(w, cb), cb, i);
    }
  }

  lemma DrainStepKeeps(w: Wheel, cb: Callback, i: nat)
    requires Inv(w) && WellBehaved(cb) && w.draining && w.spokes[w.current] != [] && i < |w.armings|
    requires w.armings[i].fate == Pending ==> OthersSpare(cb, w.armings[i].timer)
    ensures Kept(w, DrainStep(w, cb), i)
  {
    hide Wired, Booked, Unlink, DoAll;
    OneSpoke(w);
    HeadIsDue(w);
    var t := w.spokes[w.current][0];
    if w.rotation[t] == 0 {
      var u := Unlink(w, t, Fired(w.now));
      UnlinkKeeps(w, t, Fired(w.now), i);
      if u.armings[i].fate == Pending { SparesOther(w, u, cb, t, i); }
      DoAllKeeps(u, cb(t, w.live), i);
    }
  }

  lemma SparesOther(w: Wheel, u: Wheel, cb: Callback, t: Address, i: nat)
    requires Inv(w) && t in w.slot && Due(w.armings[w.last[t]]) == w.now && u == Unlink(w, t, Fired(w.now))
    requires i < |w.armings| && w.armings[i].fate == Pending && u.armings[i].fate == Pending
    requires OthersSpare(cb, w.armings[i].timer)
    ensures u.armings[i].timer == w.armings[i].timer && Spares(cb(t, w.live), w.armings[i].timer)
  {
    hide Wired, DueOnSpoke, FiringDelay;
    assert FateOk(w.armings[i], i, w.last, w.now);
  }

  ghost predicate EventSpares(e: Event, t: Address) {
    match e
    case Script(cs) => Spares(cs, t)
    case TickEvent(cb) => OthersSpare(cb, t)
  }

  lemma {:induction false} RunKeeps(w: Wheel, es: seq<Event>, w': Wheel, i: nat)
    requires Inv(w) && !w.draining && RunOf(w, es, w') && i < |w.armings|
    requires forall k :: 0 <= k < |es| && w.armings[i].fate == Pending
               ==> EventSpares(es[k], w.armings[i].timer)
    ensures Kept(w, w', i)
    decreases |es|
  {
    hide Inv, Step, Enabled, EventSpares;
    if es != [] {
      assert w.armings[i].fate == Pending ==> EventSpares(es[0], w.armings[i].timer);
      StepKeeps(w, es[0], i);
      RunKeeps(Step(w, es[0]), es[1..], w', i);
    }
  }

  lemma StepKeeps(w: Wheel, e: Event, i: nat)
    requires Inv(w) && !w.draining && Enabled(w, e) && i < |w.armings|
    requires w.armings[i].fate == Pending ==> EventSpares(e, w.armings[i].timer)
    ensures Kept(w, Step(w, e), i)
  {
    hide Inv, DoAll, Drain, WellBehaved, NeverArmsFullTurn;
    match e
    case Script(cs) => DoAllKeeps(w, cs, i);
    case TickEvent(cb) => DrainKeeps(Advance(w), cb, i);
  }

  // ---------- the theorems ----------

  /**
    In every reachable state, every arming ever made that is neither cancelled nor still running
    fired exactly once, on its due tick; one still running is not yet due.
   */
  lemma EveryArmingOnTime(w: Wheel, i: nat)
    requires Reachable(w) && i < |w.armings|
    ensures match w.armings[i].fate
            case Pending => w.now < Due(w.armings[i])
            case Fired(tick) => tick == Due(w.armings[i])
            case Cancelled => true
  {
    var es :| RunOf(Initial(), es, w);
    RunKeepsInv(Initial(), es, w);
    assert FateOk(w.armings[i], i, w.last, w.now);
  }

  /**
    A timer that nobody restarts or stops fires on its due tick in every continuation of the run,
    whether it was armed by protocol code or inside another timer's callback.
   */
  lemma FiresUnlessCancelled(w: Wheel, es: seq<Event>, w': Wheel, i: nat)
    requires Inv(w) && !w.draining && RunOf(w, es, w')
    requires i < |w.armings| && w.armings[i].fate == Pending
    requires forall k :: 0 <= k < |es| ==> EventSpares(es[k], w.armings[i].timer)
    ensures |w.armings| <= |w'.armings|
    ensures w'.armings[i].fate == if w'.now < Due(w.armings[i]) then Pending else Fired(Due(w.armings[i]))
  {
    RunKeeps(w, es, w', i);
    RunKeepsInv(w, es, w');
    assert FateOk(w'.armings[i], i, w'.last, w'.now);
  }

  /** A settled arming stays settled: no timer fires twice for one start. */
  lemma SettledForever(w: Wheel, es: seq<Event>, w': Wheel, i: nat)
    requires Inv(w) && !w.draining && RunOf(w, es, w')
    requires i < |w.armings| && w.armings[i].fate != Pending
    ensures i < |w'.armings| && w'.armings[i] == w.armings[i]
  {
    RunKeeps(w, es, w', i);
  }

  /**
    "Fires after exactly the requested number of ticks" holds of the code just for these
    durations; a longer one loses its whole turns, because the walk meets a timer whose rotation
    count it has only lowered again in the same tick.
   */
  lemma ExactDelayIff(duration: int, inTick: bool)
    ensures FiringDelay(duration, inTick) == duration <==>
            (0 < duration < WHEEL_SIZE) || duration == (if inTick then 0 else WHEEL_SIZE)
  {}

  /**
    A callback that arms its own timer for a whole turn is met again by the same walk: the drain
    loop never reaches the end of the spoke.
   */
  lemma {:induction false} FullTurnNeverEnds(w: Wheel, cb: Callback, t: Address, n: nat)
    requires WellBehaved(cb) && AloneOnSpoke(w, t)
    requires forall live {:trigger cb(t, live)} :: cb(t, live) == [Start(t, WHEEL_SIZE)]
    ensures Iterations(w, cb, n).Some? && AloneOnSpoke(Iterations(w, cb, n).value, t)
    decreases n
  {
    hide Wired, Booked, DrainStep, WellBehaved;
    if n > 0 {
      FullTurnReturns(w, cb, t);
      FullTurnNeverEnds(DrainStep(w, cb), cb, t, n - 1);
    }
  }

  ghost predicate AloneOnSpoke(w: Wheel, t: Address) {
    Inv(w) && w.draining && w.spokes[w.current] == [t]
  }

  lemma FullTurnReturns(w: Wheel, cb: Callback, t: Address)
    requires WellBehaved(cb) && AloneOnSpoke(w, t)
    requires forall live {:trigger cb(t, live)} :: cb(t, live) == [Start(t, WHEEL_SIZE)]
    ensures AloneOnSpoke(DrainStep(w, cb), t)
  {
    DrainStepStaysInTick(w, cb);
    HeadIsDue(w);
    if w.rotation[t] == 0 {
      var u := Unlink(w, t, Fired(w.now));
      UnlinkEmpties(w, t);
      assert cb(t, w.live) == [Start(t, WHEEL_SIZE)];
      DoAllOne(u, Start(t, WHEEL_SIZE));
      InsertFullTurn(u, t);
    }
  }

  lemma UnlinkEmpties(w: Wheel, t: Address)
    requires Inv(w) && w.spokes[w.current] == [t] && t in w.slot && Due(w.armings[w.last[t]]) == w.now
    ensures Unlink(w, t, Fired(w.now)).spokes[w.current] == []
  {
    assert t in w.spokes[w.current];
    hide Booked, DueOnSpoke, FiringDelay;
  }

  lemma DoAllOne(w: Wheel, c: Command)
    requires Inv(w) && Legal(c, w.live)
    ensures LegalScript([c], w.live) && DoAll(w, [c]) == Do(w, c)
  {
    assert [c][1..] == [];
    hide Inv, Do;
  }

  lemma InsertFullTurn(w: Wheel, t: Address)
    requires Inv(w) && t in w.live && t !in w.slot && w.spokes[w.current] == []
    ensures StartTimer(w, t, WHEEL_SIZE).spokes[w.current] == [t]
  {
    PartialTurnMovesAway(w.current, WHEEL_SIZE);
    hide Booked, DueOnSpoke, FiringDelay, SpokeFor;
  }

  /** The state after n iterations of the drain loop, if the loop runs that long. */
  ghost function Iterations(w: Wheel, cb: Callback, n: nat): (r: Option<Wheel>)
    requires Inv(w) && WellBehaved(cb) && w.draining
    ensures r.Some? ==> Inv(r.value)
    decreases n
  {
    if n == 0 then Some(w)
    else if w.spokes[w.current] == [] then None
    else
      HeadIsDue(w);
      var w' := DrainStep(w, cb);
      DrainStepStaysInTick(w, cb);
      Iterations(w', cb, n - 1)
  }

  // ---------- the wheel is a set of alarms ----------

  function DueTicks(armings: seq<Arming>, last: map<Address, nat>): map<Address, nat>
    requires forall t :: t in last ==> last[t] < |armings|
  {
    map t | t in last :: Due(armings[last[t]])
  }

  /** What the rest of the daemon sees of the wheel: when each running timer will fire. */
  function Alarms(w: Wheel): (m: map<Address, nat>)
    requires Inv(w)
    ensures m.Keys == w.slot.Keys
  {
    DueTicks(w.armings, w.last)
  }

  lemma UnlinkClearsAlarm(w: Wheel, t: Address, fate: Fate)
    requires Inv(w) && t in w.slot
    requires fate == Cancelled || (fate == Fired(w.now) && Due(w.armings[w.last[t]]) == w.now)
    ensures Alarms(Unlink(w, t, fate)) == Alarms(w) - {t}
  {
    hide Wired, FateOk, DueOnSpoke, Due;
    DueTicksUnlink(w.armings, w.last, t, fate);
  }

  lemma DueTicksUnlink(armings: seq<Arming>, last: map<Address, nat>, t: Address, fate: Fate)
    requires forall u :: u in last ==> last[u] < |armings| && armings[last[u]].timer == u
    requires t in last
    ensures DueTicks(armings[last[t] := armings[last[t]].(fate := fate)], last - {t})
         == DueTicks(armings, last) - {t}
  {
    var m := DueTicks(armings[last[t] := armings[last[t]].(fate := fate)], last - {t});
    assert m.Keys == last.Keys - {t};
    assert forall u :: u in m ==> m[u] == Due(armings[last[u]]);
  }

  lemma DueTicksInsert(armings: seq<Arming>, last: map<Address, nat>, a: Arming)
    requires forall u :: u in last ==> last[u] < |armings|
    ensures DueTicks(armings + [a], last[a.timer := |armings|])
         == DueTicks(armings, last)[a.timer := Due(a)]
  {
    var m := DueTicks(armings + [a], last[a.timer := |armings|]);
    assert m.Keys == last.Keys + {a.timer};
    assert forall u :: u in m && u != a.timer ==> m[u] == Due(armings[last[u]]);
  }

  lemma InsertSetsAlarm(w: Wheel, t: Address, duration: int)
    requires Inv(w) && t in w.live && t !in w.slot
    ensures Alarms(Insert(w, t, duration)) == Alarms(w)[t := w.now + FiringDelay(duration, w.draining)]
  {
    var a := Arming(t, duration, w.now, w.draining, Pending);
    assert Due(a) == w.now + FiringDelay(duration, w.draining);
    hide Wired, FateOk, DueOnSpoke, FiringDelay, Due, DueTicks;
    DueTicksInsert(w.armings, w.last, a);
  }

  lemma StartSetsAlarm(w: Wheel, t: Address, duration: int)
    requires Inv(w) && t in w.live
    ensures Alarms(StartTimer(w, t, duration)) == Alarms(w)[t := w.now + FiringDelay(duration, w.draining)]
  {
    hide Inv, Insert, Unlink, DueTicks, FiringDelay;
    if t in w.slot {
      UnlinkClearsAlarm(w, t, Cancelled);
      UnlinkKeepsClock(w, t, Cancelled);
      InsertSetsAlarm(Unlink(w, t, Cancelled), t, duration);
      assert (Alarms(w) - {t})[t := w.now + FiringDelay(duration, w.draining)]
          == Alarms(w)[t := w.now + FiringDelay(duration, w.draining)];
    } else {
      InsertSetsAlarm(w, t, duration);
    }
  }

  lemma UnlinkKeepsClock(w: Wheel, t: Address, fate: Fate)
    requires Inv(w) && t in w.slot
    requires fate == Cancelled || (fate == Fired(w.now) && Due(w.armings[w.last[t]]) == w.now)
    ensures var w' := Unlink(w, t, fate); w'.now == w.now && w'.draining == w.draining
  {}

  lemma StopClearsAlarm(w: Wheel, t: Address)
    requires Inv(w) && t in w.live
    ensures Alarms(StopTimer(w, t)) == Alarms(w) - {t}
  {
    if t in w.slot {
      UnlinkClearsAlarm(w, t, Cancelled);
    }
    hide Inv, Unlink, FiringDelay;
  }

  /** An iteration of the drain loop either changes no alarm, or clears one that is due now. */
  lemma DrainStepFiresDueAlarm(w: Wheel, cb: Callback)
    requires Inv(w) && WellBehaved(cb) && w.draining && w.spokes[w.current] != []
    ensures var t := w.spokes[w.current][0];
            && t in Alarms(w) && Alarms(w)[t] == w.now
            && (Alarms(DrainStep(w, cb)) == Alarms(w)
                || exists u :: Inv(u) && Alarms(u) == Alarms(w) - {t} && u.live == w.live
                     && DrainStep(w, cb) == DoAll(u, cb(t, w.live)))
  {
    HeadIsDue(w);
    var t := w.spokes[w.current][0];
    assert t in Alarms(w) && Alarms(w)[t] == w.now;
    hide Wired, Booked, Unlink, DueTicks, DoAll;
    if w.rotation[t] == 0 {
      UnlinkClearsAlarm(w, t, Fired(w.now));
    }
  }

  /** Over every run: between ticks every alarm lies ahead, so a tick delivers every alarm due on it. */
  lemma AlarmsAhead(w: Wheel)
    requires Reachable(w)
    ensures Inv(w) && forall t :: t in Alarms(w) ==> w.now < Alarms(w)[t] <= w.now + WHEEL_SIZE
  {
    hide Inv, Alarms, Enabled, Step;
    var es :| RunOf(Initial(), es, w);
    RunKeepsInv(Initial(), es, w);
    NothingOverdue(w);
  }

  lemma NothingOverdue(w: Wheel)
    requires Inv(w) && !w.draining
    ensures forall t :: t in Alarms(w) ==> w.now < Alarms(w)[t] <= w.now + WHEEL_SIZE
  {}
}
