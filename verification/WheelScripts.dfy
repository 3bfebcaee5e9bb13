/**
  The drain loop seen by a daemon whose callbacks depend on its own state. What a timer does when it
  fires is a script of wheel commands; no timer fires twice in a tick, so the scripts of a tick form
  one callback, and the loop's outcome can be followed script by script.
 */
module WheelScripts {
  import opened Seqs
  import opened WheelSpec
  import opened WheelRuns

  /** What each timer does if it fires in this tick. */
  type Scripts = map<Address, seq<Command>>

  /** The callbacks do what the scripts say. */
  ghost predicate Agrees(cb: Callback, scripts: Scripts) {
    forall t, live {:trigger cb(t, live)} :: t in scripts && LegalScript(scripts[t], live) ==> cb(t, live) == scripts[t]
  }

  /** Callbacks that run the scripts where they are legal, and otherwise nothing. */
  function Running(scripts: Scripts): (cb: Callback)
    ensures WellBehaved(cb) && Agrees(cb, scripts)
    ensures (forall t :: t in scripts ==> NoFullTurn(scripts[t])) ==> NeverArmsFullTurn(cb)
  {
    (t, live) => if t in scripts && LegalScript(scripts[t], live) then scripts[t] else []
  }

  function NoCallback(): (cb: Callback)
    ensures WellBehaved(cb)
  {
    (t, live) => []
  }

  // ---------- scripts ----------

  lemma {:induction false} DoAllConcat(w: Wheel, cs: seq<Command>, ds: seq<Command>)
    requires Inv(w) && LegalScript(cs, w.live) && LegalScript(ds, DoAll(w, cs).live)
    ensures LegalScript(cs + ds, w.live) && DoAll(w, cs + ds) == DoAll(DoAll(w, cs), ds)
    decreases |cs|
  {
    hide Inv, Legal, Do;
    if cs == [] {
      assert cs + ds == ds;
    } else {
      assert (cs + ds)[0] == cs[0] && (cs + ds)[1..] == cs[1..] + ds;
      DoAllConcat(Do(w, cs[0]), cs[1..], ds);
    }
  }

  lemma CreatedSame(w: Wheel, t: Address)
    requires Inv(w) && t >= WHEEL_SIZE && t !in w.live
    ensures var w' := CreateTimer(w, t); Alarms(w') == Alarms(w) && w'.now == w.now && w'.draining == w.draining
  {}

  function Stops(ts: seq<Address>): (cs: seq<Command>)
    ensures |cs| == |ts| && forall i :: 0 <= i < |ts| ==> cs[i] == Stop(ts[i])
  {
    seq(|ts|, i requires 0 <= i < |ts| => Stop(ts[i]))
  }

  /** Stopping timers one after the other frees exactly these and clears exactly their alarms. */
  lemma {:induction false} StopsDo(w: Wheel, ts: seq<Address>)
    requires Inv(w) && NoRepeats(ts) && forall t :: t in Elements(ts) ==> t in w.live
    ensures LegalScript(Stops(ts), w.live)
    ensures var w' := DoAll(w, Stops(ts));
            && Inv(w') && w'.live == w.live - Elements(ts) && Alarms(w') == Alarms(w) - Elements(ts)
            && w'.now == w.now && w'.draining == w.draining
    decreases |ts|
  {
    hide Inv, StopTimer, Alarms;
    if ts == [] {
      assert Elements(ts) == {};
      assert Alarms(w) - {} == Alarms(w);
    } else {
      var c := Stop(ts[0]);
      assert ts[0] in Elements(ts);
      assert Stops(ts)[0] == c && Stops(ts)[1..] == Stops(ts[1..]);
      var u := Do(w, c);
      StopClearsAlarm(w, ts[0]);
      DoKeepsClock(w, c);
      ElementsRest(ts);
      StopsDo(u, ts[1..]);
      assert w.live - {ts[0]} - Elements(ts[1..]) == w.live - Elements(ts);
      assert Alarms(w) - {ts[0]} - Elements(ts[1..]) == Alarms(w) - Elements(ts);
    }
  }

  lemma ElementsRest(ts: seq<Address>)
    requires ts != [] && NoRepeats(ts)
    ensures Elements(ts) == {ts[0]} + Elements(ts[1..]) && ts[0] !in Elements(ts[1..])
  {
    assert ts == [ts[0]] + ts[1..];
    assert forall t :: t in ts <==> t == ts[0] || t in ts[1..];
  }

  // ---------- the drain loop ----------

  /** With any callbacks that agree with the scripts, the loop ends with these timers and alarms. */
  ghost predicate DrainedTo(w: Wheel, scripts: Scripts, live: set<Address>, alarms: map<Address, nat>)
    requires Inv(w) && w.draining
  {
    forall cb: Callback | WellBehaved(cb) && NeverArmsFullTurn(cb) && Agrees(cb, scripts) ::
      Drain(w, cb).live == live && Alarms(Drain(w, cb)) == alarms
  }

  lemma HeadAlarm(w: Wheel, t: Address)
    requires Inv(w) && t in w.slot
    ensures t in Alarms(w) && Alarms(w)[t] == Due(w.armings[w.last[t]])
  {}

  lemma HeadNow(w: Wheel)
    requires Inv(w) && w.draining && w.spokes[w.current] != [] && HeadRotation(w) == 0
    ensures var t := w.spokes[w.current][0]; t in w.rotation && w.rotation[t] == 0
  {
    HeadIsDue(w);
  }

  lemma SameAlarms(w: Wheel, w': Wheel)
    requires Inv(w) && Inv(w') && w'.armings == w.armings && w'.last == w.last
    ensures Alarms(w') == Alarms(w)
  {
    hide Inv;
  }

  /** At the end of the spoke nothing is due any more. */
  lemma EmptyDrained(w: Wheel)
    requires Inv(w) && w.draining && w.spokes[w.current] == []
    ensures DrainedTo(w, map[], w.live, Alarms(w))
    ensures Inv(w.(draining := false)) && Alarms(w.(draining := false)) == Alarms(w)
    ensures forall t :: t in Alarms(w) ==> Alarms(w)[t] != w.now
  {
    hide Wired, Booked, Alarms;
    EmptySpokeNothingDue(w);
    NothingOverdue(w.(draining := false));
    SameAlarms(w, w.(draining := false));
  }

  /** The wheel when the count of the timer at the head of the spoke has been lowered. */
  ghost function Lowered(w: Wheel): Wheel
    requires Inv(w) && w.spokes[w.current] != [] && HeadRotation(w) > 0
  {
    w.(rotation := w.rotation[w.spokes[w.current][0] := HeadRotation(w) - 1])
  }

  lemma LoweredIs(w: Wheel, cb: Callback)
    requires Inv(w) && WellBehaved(cb) && w.draining && w.spokes[w.current] != [] && HeadRotation(w) > 0
    ensures var w' := Lowered(w);
            && DrainStep(w, cb) == w' && Inv(w') && Alarms(w') == Alarms(w) && w'.live == w.live
            && w'.spokes == w.spokes && w'.current == w.current && w'.now == w.now && w'.draining
            && HeadRotation(w') < HeadRotation(w)
  {
    HeadIsDue(w);
  }

  lemma LoweredDrained(w: Wheel, scripts: Scripts, live: set<Address>, alarms: map<Address, nat>)
    requires Inv(w) && w.draining && w.spokes[w.current] != [] && HeadRotation(w) > 0
    requires Inv(Lowered(w)) && DrainedTo(Lowered(w), scripts, live, alarms)
    ensures DrainedTo(w, scripts, live, alarms)
  {
    hide DrainStep, Inv, Lowered, HeadRotation, Agrees, Alarms, WellBehaved, NeverArmsFullTurn;
    forall cb: Callback | WellBehaved(cb) && NeverArmsFullTurn(cb) && Agrees(cb, scripts)
      ensures Drain(w, cb).live == live && Alarms(Drain(w, cb)) == alarms
    {
      LoweredIs(w, cb);
      DrainStepProgress(w, cb);
      assert Drain(w, cb) == Drain(Lowered(w), cb);
    }
  }

  /** The wheel when the timer at the head of the spoke has fired and its script has run. */
  ghost function Ran(w: Wheel, t: Address, s: seq<Command>): (w': Wheel)
    requires Inv(w) && t in w.slot && Due(w.armings[w.last[t]]) == w.now && LegalScript(s, w.live)
    ensures Inv(w')
  {
    DoAll(Unlink(w, t, Fired(w.now)), s)
  }

  lemma RanShortens(w: Wheel, t: Address, s: seq<Command>)
    requires Inv(w) && w.draining && w.spokes[w.current] != [] && t == w.spokes[w.current][0]
    requires t in w.slot && Due(w.armings[w.last[t]]) == w.now && LegalScript(s, w.live) && NoFullTurn(s)
    ensures var w' := Ran(w, t, s);
            && w'.draining && w'.current == w.current && w'.now == w.now
            && |w'.spokes[w.current]| < |w.spokes[w.current]|
  {
    hide DoAll;
    assert t in w.spokes[w.current];
    DoAllKeepsClock(Unlink(w, t, Fired(w.now)), s);
  }

  lemma RanDrained(w: Wheel, t: Address, s: seq<Command>, scripts: Scripts, live: set<Address>, alarms: map<Address, nat>)
    requires Inv(w) && w.draining && w.spokes[w.current] != [] && t == w.spokes[w.current][0] && HeadRotation(w) == 0
    requires t in w.slot && Due(w.armings[w.last[t]]) == w.now && LegalScript(s, w.live) && t !in scripts
    requires Ran(w, t, s).draining && DrainedTo(Ran(w, t, s), scripts, live, alarms)
    ensures DrainedTo(w, scripts[t := s], live, alarms)
  {
    hide Inv, Unlink, DoAll, LegalScript, WellBehaved, NeverArmsFullTurn, Alarms;
    HeadNow(w);
    forall cb: Callback | WellBehaved(cb) && NeverArmsFullTurn(cb) && Agrees(cb, scripts[t := s])
      ensures Drain(w, cb).live == live && Alarms(Drain(w, cb)) == alarms
    {
      assert cb(t, w.live) == s;
      assert DrainStep(w, cb) == Ran(w, t, s);
      DrainStepProgress(w, cb);
      assert Drain(w, cb) == Drain(Ran(w, t, s), cb);
      assert Agrees(cb, scripts);
    }
  }

  /** Every script is one of a timer due now, and arms none for a whole turn. */
  ghost predicate DueNow(scripts: Scripts, alarms: map<Address, nat>, now: nat) {
    forall t :: t in scripts ==> t in alarms && alarms[t] == now && NoFullTurn(scripts[t])
  }

  lemma DueBefore(scripts: Scripts, alarms: map<Address, nat>, alarms': map<Address, nat>, now: nat, t: Address,
                  s: seq<Command>)
    requires DueNow(scripts, alarms', now) && t in alarms && alarms[t] == now && NoFullTurn(s)
    requires forall u :: u in alarms' && alarms'[u] == now ==> u != t && u in alarms && alarms[u] == now
    ensures t !in scripts && DueNow(scripts[t := s], alarms, now)
  {
    hide NoFullTurn;
  }

  lemma RunningTick(scripts: Scripts, alarms: map<Address, nat>, now: nat)
    requires DueNow(scripts, alarms, now)
    ensures WellBehaved(Running(scripts)) && NeverArmsFullTurn(Running(scripts)) && Agrees(Running(scripts), scripts)
  {}
}
