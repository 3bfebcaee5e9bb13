/** One tick of the timer wheel with the Map-Server's lease callbacks is one tick of the Map-Server. */
module MapServerWheel {
  import opened Seqs
  import opened Prefixes
  import opened RegistrySpec
  import opened MapServerSpec
  import opened MapServerRuns
  import opened WheelScripts
  import W = WheelSpec
  import WheelRuns

  /** What the wheel holds is what the Map-Server believes. */
  ghost predicate Seen(w: W.Wheel, ms: Ms) {
    && W.Inv(w) && w.live == ms.reg.timers.Keys && WheelRuns.Alarms(w) == ms.reg.alarms
    && w.now == ms.now && w.draining == ms.ticking
  }

  /** The callback of a lease stops every timer of its site. */
  function ExpireScript(ms: Ms, t: Timer): seq<W.Command>
    requires t in ms.reg.timers
  {
    Stops(TimersOf(ms.reg, ms.reg.timers[t].obj))
  }

  lemma FireSeen(w: W.Wheel, ms: Ms, statics: set<Prefix>)
    requires Seen(w, ms) && Good(ms, statics) && w.draining && w.spokes[w.current] != [] && W.HeadRotation(w) == 0
    ensures var t := w.spokes[w.current][0];
            && Enabled(ms, statics, Fire(t)) && t in ms.reg.timers && t in w.slot && W.Due(w.armings[w.last[t]]) == w.now
            && var s := ExpireScript(ms, t);
               W.LegalScript(s, w.live) && W.NoFullTurn(s) && Seen(Ran(w, t, s), Step(ms, statics, Fire(t)))
  {
    hide Good, W.Inv, W.Unlink, WheelRuns.Alarms, SitesOk;
    W.OneSpoke(w);
    var t := w.spokes[w.current][0];
    W.HeadIsDue(w);
    HeadAlarm(w, t);
    GoodLinked(ms, statics);
    ExpireGood(ms, statics, t);
    var u := W.Unlink(w, t, W.Fired(w.now));
    WheelRuns.UnlinkClearsAlarm(w, t, W.Fired(w.now));
    WheelRuns.UnlinkKeepsClock(w, t, W.Fired(w.now));
    var o := ms.reg.timers[t].obj;
    TimersListed(ms.reg, o, t);
    StopsDo(u, TimersOf(ms.reg, o));
    ExpireAlarms(ms, t);
  }

  lemma TimersListed(r: Registry, o: Obj, t: Timer)
    requires Inv(r) && t in r.timers && r.timers[t].obj == o
    ensures var ts := TimersOf(r, o);
            NoRepeats(ts) && t in Elements(ts) && forall u :: u in Elements(ts) ==> u in r.timers
  {
    hide TableOk, ListsOk;
  }

  lemma ExpireAlarms(ms: Ms, t: Timer)
    requires t in ms.reg.timers && ms.reg.timers[t].obj in ms.rsites
    requires t in Elements(TimersOf(ms.reg, ms.reg.timers[t].obj))
    ensures var r, gone := Expire(ms, t).reg, Elements(TimersOf(ms.reg, ms.reg.timers[t].obj));
            && r.timers.Keys == ms.reg.timers.Keys - gone && r.alarms == ms.reg.alarms - {t} - gone
  {
    var gone := Elements(TimersOf(ms.reg, ms.reg.timers[t].obj));
    assert ms.reg.alarms - {t} - gone == ms.reg.alarms - gone;
    hide TimersOf;
  }

  lemma StepShrinks(ms: Ms, statics: set<Prefix>, t: Timer)
    requires Good(ms, statics) && Enabled(ms, statics, Fire(t))
    ensures var ms' := Step(ms, statics, Fire(t));
            && ms'.now == ms.now
            && (forall u :: u in ms'.reg.alarms && ms'.reg.alarms[u] == ms.now ==>
                  u != t && u in ms.reg.alarms && ms.reg.alarms[u] == ms.now)
  {
    hide Good, SitesOk, TimersOf;
    GoodLinked(ms, statics);
    ExpireGood(ms, statics, t);
    TimersListed(ms.reg, ms.reg.timers[t].obj, t);
    ExpireAlarms(ms, t);
  }

  lemma {:induction false} DrainIsRun(w: W.Wheel, ms: Ms, statics: set<Prefix>)
      returns (scripts: Scripts, fires: seq<Event>, ms': Ms)
    requires Seen(w, ms) && Good(ms, statics) && w.draining
    ensures DueNow(scripts, ms.reg.alarms, ms.now) && forall i :: 0 <= i < |fires| ==> fires[i].Fire?
    ensures RunOf(ms, statics, fires, ms') && Good(ms', statics) && Enabled(ms', statics, EndTick) && ms'.now == ms.now
    ensures DrainedTo(w, scripts, ms'.reg.timers.Keys, ms'.reg.alarms)
    decreases |w.spokes[w.current]|, W.HeadRotation(w)
  {
    hide Good, W.Inv, ExpireScript, WheelRuns.Alarms, Step, Ran, W.DrainStep, W.NoFullTurn, W.LegalScript,
      W.HeadRotation, Lowered, SitesOk;
    W.OneSpoke(w);
    if w.spokes[w.current] == [] {
      scripts, fires, ms' := map[], [], ms;
      EmptyDrained(w);
    } else if W.HeadRotation(w) > 0 {
      LoweredIs(w, NoCallback());
      scripts, fires, ms' := DrainIsRun(Lowered(w), ms, statics);
      LoweredDrained(w, scripts, ms'.reg.timers.Keys, ms'.reg.alarms);
    } else {
      var t := w.spokes[w.current][0];
      var e := Fire(t);
      FireSeen(w, ms, statics);
      HeadAlarm(w, t);
      StepGood(ms, statics, e);
      var s, next := ExpireScript(ms, t), Step(ms, statics, e);
      RanShortens(w, t, s);
      StepShrinks(ms, statics, t);
      var rest;
      scripts, rest, ms' := DrainIsRun(Ran(w, t, s), next, statics);
      fires := [e] + rest;
      DueBefore(scripts, ms.reg.alarms, next.reg.alarms, ms.now, t, s);
      RanDrained(w, t, s, scripts, ms'.reg.timers.Keys, ms'.reg.alarms);
      scripts := scripts[t := s];
      assert fires[1..] == rest;
    }
  }

  lemma AdvanceSeen(w: W.Wheel, ms: Ms)
    requires Seen(w, ms) && !ms.ticking
    ensures Seen(W.Advance(w), ms.(now := ms.now + 1, ticking := true))
  {
    hide W.Wired, W.Booked, WheelRuns.DueTicks;
  }

  lemma EndSeen(w: W.Wheel, ms: Ms)
    requires Seen(w, ms) && W.Inv(w.(draining := false))
    ensures Seen(w.(draining := false), ms.(ticking := false))
  {
    hide W.Inv, WheelRuns.DueTicks;
  }

  /**
    One tick of the wheel is one tick of the Map-Server: there are callbacks with which the wheel,
    in step with the Map-Server before, is in step with it when the leases due have run out.
   */
  lemma TickIsRun(w: W.Wheel, ms: Ms, statics: set<Prefix>) returns (cb: W.Callback, fires: seq<Event>, ms': Ms)
    requires Seen(w, ms) && Good(ms, statics) && !ms.ticking
    ensures W.WellBehaved(cb) && W.NeverArmsFullTurn(cb)
    ensures forall i :: 0 <= i < |fires| ==> fires[i].Fire?
    ensures RunOf(ms, statics, [BeginTick] + fires + [EndTick], ms') && Good(ms', statics) && !ms'.ticking
    ensures Seen(W.Tick(w, cb), ms')
  {
    hide Good, W.Inv, WheelRuns.Alarms, Agrees, RunOf, SitesOk;
    var ms1 := Step(ms, statics, BeginTick);
    StepGood(ms, statics, BeginTick);
    AdvanceSeen(w, ms);
    var scripts, ms2;
    scripts, fires, ms2 := DrainIsRun(W.Advance(w), ms1, statics);
    cb := Running(scripts);
    RunningTick(scripts, ms1.reg.alarms, ms1.now);
    var u := W.Drain(W.Advance(w), cb);
    assert Seen(u, ms2);
    W.EmptySpokeNothingDue(u);
    ms' := Step(ms2, statics, EndTick);
    EndSeen(u, ms2);
    StepGood(ms2, statics, EndTick);
    RunOne(ms, statics, BeginTick);
    RunOne(ms2, statics, EndTick);
    RunThen(ms, statics, [BeginTick], ms1, fires, ms2);
    RunThen(ms, statics, [BeginTick] + fires, ms2, [EndTick], ms');
  }

  lemma RunOne(ms: Ms, statics: set<Prefix>, e: Event)
    requires Good(ms, statics) && Enabled(ms, statics, e)
    ensures RunOf(ms, statics, [e], Step(ms, statics, e))
  {
    hide Good, Enabled, Step;
    StepGood(ms, statics, e);
    assert [e][1..] == [];
  }

  lemma {:induction false} RunThen(ms: Ms, statics: set<Prefix>, es: seq<Event>, ms1: Ms, fs: seq<Event>, ms2: Ms)
    requires Good(ms, statics) && RunOf(ms, statics, es, ms1) && Good(ms1, statics) && RunOf(ms1, statics, fs, ms2)
    ensures RunOf(ms, statics, es + fs, ms2)
    decreases |es|
  {
    hide Good, Enabled, Step;
    if es == [] {
      assert es + fs == fs;
    } else {
      StepGood(ms, statics, es[0]);
      RunThen(Step(ms, statics, es[0]), statics, es[1..], ms1, fs, ms2);
      assert (es + fs)[1..] == es[1..] + fs;
    }
  }
}
