/** Runs of the timer wheel in which a timer does not do what its duration says. */
module WheelExamples {
  import opened WheelSpec
  import opened WheelRuns
  import opened WheelScripts

  /** Events of the same kind, one after the other. */
  function Ticking(n: nat): (es: seq<Event>)
    ensures |es| == n && forall i :: 0 <= i < n ==> es[i] == TickEvent(NoCallback())
  {
    seq(n, _ => TickEvent(NoCallback()))
  }

  lemma {:induction false} TicksPass(w: Wheel, n: nat) returns (w': Wheel)
    requires Inv(w) && !w.draining
    ensures RunOf(w, Ticking(n), w') && w'.now == w.now + n
    decreases n
  {
    hide Inv, Tick, WellBehaved, NeverArmsFullTurn;
    if n == 0 {
      w' := w;
    } else {
      QuietCallback();
      assert Ticking(n)[1..] == Ticking(n - 1);
      w' := TicksPass(Tick(w, NoCallback()), n - 1);
    }
  }

  lemma QuietCallback()
    ensures WellBehaved(NoCallback()) && NeverArmsFullTurn(NoCallback())
    ensures forall t :: OthersSpare(NoCallback(), t)
  {}

  /** The wheel on which one timer has just been created and started. */
  function OneTimer(t: Address, duration: int): (w: Wheel)
    requires t >= WHEEL_SIZE
    ensures Inv(w)
  {
    StartTimer(CreateTimer(Initial(), t), t, duration)
  }

  lemma OneTimerIs(t: Address, duration: int)
    requires t >= WHEEL_SIZE
    ensures var w := OneTimer(t, duration);
            && !w.draining && w.now == 0 && w.current == 0 && w.armings == [Arming(t, duration, 0, false, Pending)]
            && w.spokes == Initial().spokes[SpokeFor(0, duration) := [t]]
    ensures RunOf(Initial(), [Script([Create(t), Start(t, duration)])], OneTimer(t, duration))
  {
    hide Inv, SpokeFor, Rotations;
    var cs := [Create(t), Start(t, duration)];
    var w := CreateTimer(Initial(), t);
    assert w.spokes[SpokeFor(0, duration)] + [t] == [t];
    assert cs[1..] == [Start(t, duration)];
    DoAllOne(w, Start(t, duration));
    assert LegalScript(cs, {});
    assert DoAll(Initial(), cs) == OneTimer(t, duration);
    assert [Script(cs)][1..] == [];
  }

  /** A timer started for 69 minutes, 4140 ticks, has fired on tick 44. */
  lemma LongDurationRun() returns (es: seq<Event>, w: Wheel)
    ensures RunOf(Initial(), es, w) && w.now == 44
    ensures es[0] == Script([Create(WHEEL_SIZE), Start(WHEEL_SIZE, 69 * 60)])
    ensures w.armings != [] && w.armings[0] == Arming(WHEEL_SIZE, 69 * 60, 0, false, Fired(44))
  {
    hide Inv, OneTimer, RunOf;
    var start := OneTimer(WHEEL_SIZE, 69 * 60);
    OneTimerIs(WHEEL_SIZE, 69 * 60);
    w := TicksPass(start, 44);
    es := [Script([Create(WHEEL_SIZE), Start(WHEEL_SIZE, 69 * 60)])] + Ticking(44);
    RunFirst(Initial(), es[0], start, Ticking(44), w);
    QuietCallback();
    forall k | 0 <= k < 44
      ensures EventSpares(Ticking(44)[k], WHEEL_SIZE)
    {}
    FiresUnlessCancelled(start, Ticking(44), w, 0);
    RunKeeps(start, Ticking(44), w, 0);
  }

  lemma RunFirst(w: Wheel, e: Event, u: Wheel, es: seq<Event>, v: Wheel)
    requires Inv(w) && !w.draining && RunOf(w, [e], u) && Inv(u) && !u.draining && RunOf(u, es, v)
    ensures RunOf(w, [e] + es, v)
  {
    hide Inv, Enabled, Step;
    assert [e][1..] == [] && ([e] + es)[1..] == es;
  }

  /** The callback of timer t starts it for a whole turn. */
  function Again(t: Address): Callback {
    (u, live) => if u == t then [Start(t, WHEEL_SIZE)] else []
  }

  /** A wheel with one timer, started for one tick, whose callback starts it for a whole turn: the next tick never ends. */
  lemma FullTurnRun() returns (w: Wheel)
    ensures Reachable(w) && !w.draining && Inv(w)
    ensures WellBehaved(Again(WHEEL_SIZE))
    ensures forall n: nat :: Iterations(Advance(w), Again(WHEEL_SIZE), n).Some?
  {
    hide Inv, OneTimer, RunOf, SpokeFor;
    w := OneTimer(WHEEL_SIZE, 1);
    OneTimerIs(WHEEL_SIZE, 1);
    AgainLegal(WHEEL_SIZE);
    assert SpokeFor(0, 1) == 1 by { SpokeOne(); }
    assert Advance(w).spokes[1] == [WHEEL_SIZE];
    forall n: nat
      ensures Iterations(Advance(w), Again(WHEEL_SIZE), n).Some?
    {
      FullTurnNeverEnds(Advance(w), Again(WHEEL_SIZE), WHEEL_SIZE, n);
    }
  }

  lemma SpokeOne()
    ensures SpokeFor(0, 1) == 1
  {}

  lemma AgainLegal(t: Address)
    ensures WellBehaved(Again(t))
  {
    forall u, live | u in live
      ensures LegalScript(Again(t)(u, live), live)
    {
      assert [Start(t, WHEEL_SIZE)][1..] == [];
    }
  }
}
