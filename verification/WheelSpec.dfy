/**
  The hashed timer wheel of lispd/lib/timers.c as a value: what is linked on each spoke,
  together with a clock and the history of every arming of a timer.

  The history is not stored by the daemon. It records, for every call that arms a timer,
  when and for how long it was armed and what became of it, so that "fires exactly on time,
  exactly once" can be stated over whole runs.
 */
module WheelSpec {
  import opened Seqs

  const WHEEL_SIZE := 4096
  const UINT32_RANGE := 0x1_0000_0000

  /** Addresses 0 to WHEEL_SIZE - 1 are the sentinels of the spokes, higher ones are timers. */
  type Address = int

  datatype Fate = Pending | Fired(tick: nat) | Cancelled

  /** One call of lmtimer_start: the timer, the clock and phase at the call, what became of it. */
  datatype Arming = Arming(timer: Address, duration: int, at: nat, inTick: bool, fate: Fate)

  datatype Wheel = Wheel(
    current: nat,
    spokes: seq<seq<Address>>,      // the timers linked on each spoke, in walking order
    slot: map<Address, nat>,        // the spoke on which a running timer is linked
    rotation: map<Address, nat>,    // rotation_count of a running timer
    live: set<Address>,             // timers allocated and not yet freed
    draining: bool,                 // inside the drain loop of a tick
    now: nat,                       // ticks since the wheel was created
    armings: seq<Arming>,
    last: map<Address, nat>         // index of the latest arming of a running timer
  )

  /** What the code run by a tick or by a protocol event may ask of the wheel. */
  datatype Command = Create(t: Address) | Start(t: Address, duration: int) | Stop(t: Address)

  /**
    What a timer's callback does when it fires, given the timers allocated at that moment. No
    timer fires twice in one tick, so any behaviour of the callbacks is such a function.
   */
  type Callback = (Address, set<Address>) -> seq<Command>

  // ---------- the operations ----------

  /** The conversion of the C int duration to the uint32_t tick count. */
  function Ticks(duration: int): (n: nat)
    ensures n < UINT32_RANGE && n % WHEEL_SIZE == duration % WHEEL_SIZE
  {
    duration % UINT32_RANGE
  }

  /** The spoke on which insert_timer links a timer, counted from the current one. */
  function SpokeFor(current: nat, duration: int): (pos: nat)
    ensures pos < WHEEL_SIZE
  {
    (current + Ticks(duration) % WHEEL_SIZE) % WHEEL_SIZE
  }

  /** The rotation_count that insert_timer stores. */
  function Rotations(duration: int): nat {
    Ticks(duration) / WHEEL_SIZE
  }

  /** The number of ticks until a timer armed with this duration fires, as the code has it. */
  function FiringDelay(duration: int, draining: bool): (n: nat)
    ensures n <= WHEEL_SIZE
  {
    var r := duration % WHEEL_SIZE;
    if r != 0 then r else if draining then 0 else WHEEL_SIZE
  }

  /** The tick on which an arming fires unless it is cancelled first. */
  function Due(a: Arming): nat {
    a.at + FiringDelay(a.duration, a.inTick)
  }

  /** Every running timer is linked exactly once, on its spoke, and nothing else is linked. */
  ghost predicate Wired(spokes: seq<seq<Address>>, slot: map<Address, nat>) {
    && |spokes| == WHEEL_SIZE
    && (forall t :: t in slot ==> slot[t] < WHEEL_SIZE && t in spokes[slot[t]])
    && (forall i :: 0 <= i < WHEEL_SIZE ==> NoRepeats(spokes[i]))
    && (forall i, t :: 0 <= i < WHEEL_SIZE && t in spokes[i] ==> t in slot && slot[t] == i)
  }

  /** A running timer is due on a tick that falls on its spoke, within one turn of the wheel. */
  predicate DueOnSpoke(due: nat, spoke: nat, now: nat, draining: bool) {
    && due % WHEEL_SIZE == spoke
    && (if draining then now <= due < now + WHEEL_SIZE else now < due <= now + WHEEL_SIZE)
  }

  ghost predicate FateOk(a: Arming, i: nat, last: map<Address, nat>, now: nat) {
    match a.fate
    case Pending => a.timer in last && last[a.timer] == i
    case Fired(tick) => tick == Due(a) <= now
    case Cancelled => true
  }

  /** The clock and the history of armings agree with what is running. */
  ghost predicate Booked(armings: seq<Arming>, last: map<Address, nat>, slot: map<Address, nat>,
                         now: nat, draining: bool)
  {
    && last.Keys == slot.Keys
    && (forall i :: 0 <= i < |armings| ==> FateOk(armings[i], i, last, now))
    && (forall t :: t in last ==>
          && last[t] < |armings|
          && armings[last[t]].timer == t
          && armings[last[t]].fate == Pending
          && DueOnSpoke(Due(armings[last[t]]), slot[t], now, draining))
  }

  ghost predicate Inv(w: Wheel) {
    && w.current == w.now % WHEEL_SIZE
    && w.rotation.Keys == w.slot.Keys <= w.live
    && (forall t :: t in w.live ==> t >= WHEEL_SIZE)
    && Wired(w.spokes, w.slot)
    && Booked(w.armings, w.last, w.slot, w.now, w.draining)
  }

  /** lmtimers_init */
  function Initial(): (w: Wheel)
    ensures Inv(w) && !w.draining
  {
    Wheel(0, seq(WHEEL_SIZE, _ => []), map[], map[], {}, false, 0, [], map[])
  }

  /** Takes a running timer off its spoke and settles its arming. */
  function Unlink(w: Wheel, t: Address, fate: Fate): (w': Wheel)
    requires Inv(w) && t in w.slot
    requires fate == Cancelled || (fate == Fired(w.now) && Due(w.armings[w.last[t]]) == w.now)
    ensures Inv(w') && t !in w'.slot && w'.live == w.live
  {
    var s := w.slot[t];
    WiredUnlink(w.spokes, w.slot, t);
    BookedUnlink(w.armings, w.last, w.slot, w.now, w.draining, t, fate);
    w.(spokes := w.spokes[s := Without(w.spokes[s], t)],
       slot := w.slot - {t},
       rotation := w.rotation - {t},
       last := w.last - {t},
       armings := w.armings[w.last[t] := w.armings[w.last[t]].(fate := fate)])
  }

  lemma WiredUnlink(spokes: seq<seq<Address>>, slot: map<Address, nat>, t: Address)
    requires Wired(spokes, slot) && t in slot
    ensures Wired(spokes[slot[t] := Without(spokes[slot[t]], t)], slot - {t})
  {}

  lemma BookedUnlink(armings: seq<Arming>, last: map<Address, nat>, slot: map<Address, nat>,
                     now: nat, draining: bool, t: Address, fate: Fate)
    requires Booked(armings, last, slot, now, draining) && t in last
    requires fate == Cancelled || (fate == Fired(now) && Due(armings[last[t]]) == now)
    ensures Booked(armings[last[t] := armings[last[t]].(fate := fate)],
                   last - {t}, slot - {t}, now, draining)
  {}

  /** Links a timer at the end of a spoke and books its arming. */
  function Link(w: Wheel, a: Arming, spoke: nat): (w': Wheel)
    requires spoke < |w.spokes|
  {
    w.(spokes := w.spokes[spoke := w.spokes[spoke] + [a.timer]],
       slot := w.slot[a.timer := spoke],
       rotation := w.rotation[a.timer := Rotations(a.duration)],
       last := w.last[a.timer := |w.armings|],
       armings := w.armings + [a])
  }

  lemma LinkKeepsInv(w: Wheel, a: Arming, spoke: nat)
    requires Inv(w) && a.timer in w.live && a.timer !in w.slot && a.fate == Pending
    requires spoke < WHEEL_SIZE && DueOnSpoke(Due(a), spoke, w.now, w.draining)
    ensures Inv(Link(w, a, spoke))
  {
    assert spoke < |w.spokes| && a.timer !in w.last;
    hide Wired, Booked, DueOnSpoke;
    var w' := Link(w, a, spoke);
    assert Wired(w'.spokes, w'.slot) by { WiredInsert(w.spokes, w.slot, a.timer, spoke); }
    assert Booked(w'.armings, w'.last, w'.slot, w'.now, w'.draining) by {
      BookedInsert(w.armings, w.last, w.slot, w.now, w.draining, a, spoke);
    }
  }

  /** insert_timer */
  function Insert(w: Wheel, t: Address, duration: int): (w': Wheel)
    requires Inv(w) && t in w.live && t !in w.slot
    ensures Inv(w') && w'.live == w.live
  {
    var a := Arming(t, duration, w.now, w.draining, Pending);
    DelayLandsOnSpoke(w.now, duration, w.draining);
    LinkKeepsInv(w, a, SpokeFor(w.current, duration));
    Link(w, a, SpokeFor(w.current, duration))
  }

  /** The spoke computed by insert_timer is the one on which the due tick falls. */
  lemma DelayLandsOnSpoke(now: nat, duration: int, draining: bool)
    ensures DueOnSpoke(now + FiringDelay(duration, draining),
                       SpokeFor(now % WHEEL_SIZE, duration), now, draining)
  {}

  lemma WiredInsert(spokes: seq<seq<Address>>, slot: map<Address, nat>, t: Address, pos: nat)
    requires Wired(spokes, slot) && t !in slot && pos < WHEEL_SIZE
    ensures Wired(spokes[pos := spokes[pos] + [t]], slot[t := pos])
  {
    assert t !in spokes[pos];
  }

  lemma BookedInsert(armings: seq<Arming>, last: map<Address, nat>, slot: map<Address, nat>,
                     now: nat, draining: bool, a: Arming, pos: nat)
    requires Booked(armings, last, slot, now, draining) && a.timer !in last && a.fate == Pending
    requires DueOnSpoke(Due(a), pos, now, draining)
    ensures Booked(armings + [a], last[a.timer := |armings|], slot[a.timer := pos], now, draining)
  {}

  /** lmtimer_start: a running timer is first taken off its spoke. */
  function StartTimer(w: Wheel, t: Address, duration: int): (w': Wheel)
    requires Inv(w) && t in w.live
    ensures Inv(w') && w'.live == w.live
  {
    Insert(if t in w.slot then Unlink(w, t, Cancelled) else w, t, duration)
  }

  /** lmtimer_stop: unlinks the timer and frees it. */
  function StopTimer(w: Wheel, t: Address): (w': Wheel)
    requires Inv(w) && t in w.live
    ensures Inv(w') && w'.live == w.live - {t}
  {
    var u := if t in w.slot then Unlink(w, t, Cancelled) else w;
    u.(live := u.live - {t})
  }

  /** lmtimer_create: the allocator hands out an address not in use. */
  function CreateTimer(w: Wheel, t: Address): (w': Wheel)
    requires Inv(w) && t >= WHEEL_SIZE && t !in w.live
    ensures Inv(w') && w'.live == w.live + {t}
  {
    w.(live := w.live + {t})
  }

  /** Code names only allocated timers, and the allocator hands out only free addresses. */
  predicate Legal(c: Command, live: set<Address>) {
    match c
    case Create(t) => t >= WHEEL_SIZE && t !in live
    case Start(t, _) => t in live
    case Stop(t) => t in live
  }

  function LiveAfter(c: Command, live: set<Address>): set<Address> {
    match c
    case Create(t) => live + {t}
    case Start(_, _) => live
    case Stop(t) => live - {t}
  }

  predicate LegalScript(cs: seq<Command>, live: set<Address>) {
    cs == [] || (Legal(cs[0], live) && LegalScript(cs[1..], LiveAfter(cs[0], live)))
  }

  function Do(w: Wheel, c: Command): (w': Wheel)
    requires Inv(w) && Legal(c, w.live)
    ensures Inv(w') && w'.live == LiveAfter(c, w.live)
  {
    match c
    case Create(t) => CreateTimer(w, t)
    case Start(t, d) => StartTimer(w, t, d)
    case Stop(t) => StopTimer(w, t)
  }

  function DoAll(w: Wheel, cs: seq<Command>): (w': Wheel)
    requires Inv(w) && LegalScript(cs, w.live)
    ensures Inv(w')
    decreases |cs|
  {
    if cs == [] then w else DoAll(Do(w, cs[0]), cs[1..])
  }

  ghost predicate WellBehaved(cb: Callback) {
    forall t, live {:trigger cb(t, live)} :: t in live ==> LegalScript(cb(t, live), live)
  }

  /** No command arms a timer with a multiple of the wheel size. */
  predicate NoFullTurn(cs: seq<Command>) {
    forall i :: 0 <= i < |cs| && cs[i].Start? ==> cs[i].duration % WHEEL_SIZE != 0
  }

  ghost predicate NeverArmsFullTurn(cb: Callback) {
    forall t, live {:trigger cb(t, live)} :: NoFullTurn(cb(t, live))
  }

  /** One iteration of the loop of handle_timers. */
  function DrainStep(w: Wheel, cb: Callback): (w': Wheel)
    requires Inv(w) && WellBehaved(cb)
    requires w.draining && w.spokes[w.current] != []
    ensures Inv(w')
  {
    var t := w.spokes[w.current][0];
    HeadIsDue(w);
    if w.rotation[t] > 0 then
      w.(rotation := w.rotation[t := w.rotation[t] - 1])
    else
      DoAll(Unlink(w, t, Fired(w.now)), cb(t, w.live))
  }

  /** The first timer on the spoke being drained is due in this very tick. */
  lemma HeadIsDue(w: Wheel)
    requires Inv(w) && w.draining && w.spokes[w.current] != []
    ensures var t := w.spokes[w.current][0];
            t in w.slot && t in w.live && Due(w.armings[w.last[t]]) == w.now
  {
    var t := w.spokes[w.current][0];
    assert t in w.spokes[w.current] && t in w.last;
    DueThisTick(Due(w.armings[w.last[t]]), w.slot[t], w.now);
  }

  lemma DueThisTick(due: nat, spoke: nat, now: nat)
    requires DueOnSpoke(due, spoke, now, true) && spoke == now % WHEEL_SIZE
    ensures due == now
  {}

  // ---------- draining a spoke ----------

  /** A script run by a callback leaves the clock alone and, short of a full turn, cannot add to
      the spoke being drained. */
  lemma DoKeepsClock(w: Wheel, c: Command)
    requires Inv(w) && Legal(c, w.live)
    ensures var w' := Do(w, c);
            && w'.current == w.current && w'.now == w.now && w'.draining == w.draining
            && (NoFullTurn([c]) ==> |w'.spokes[w.current]| <= |w.spokes[w.current]|)
  {
    hide Inv, Unlink, Insert;
    assert NoFullTurn([c]) && c.Start? ==> [c][0].duration % WHEEL_SIZE != 0;
    OneSpoke(w);
    if !c.Create? && c.t in w.slot { UnlinkShape(w, c.t, Cancelled); }
    if c.Start? { InsertShape(if c.t in w.slot then Unlink(w, c.t, Cancelled) else w, c.t, c.duration); }
  }

  lemma OneSpoke(w: Wheel)
    requires Inv(w)
    ensures w.current < |w.spokes|
  {}

  lemma UnlinkShape(w: Wheel, t: Address, fate: Fate)
    requires Inv(w) && t in w.slot
    requires fate == Cancelled || (fate == Fired(w.now) && Due(w.armings[w.last[t]]) == w.now)
    ensures var w' := Unlink(w, t, fate);
            && w'.current == w.current && w'.now == w.now && w'.draining == w.draining
            && |w'.spokes| == |w.spokes| && |w'.spokes[w.current]| <= |w.spokes[w.current]|
  {
    hide Booked, DueOnSpoke;
  }

  lemma InsertShape(w: Wheel, t: Address, duration: int)
    requires Inv(w) && t in w.live && t !in w.slot
    ensures var w' := Insert(w, t, duration);
            && w'.current == w.current && w'.now == w.now && w'.draining == w.draining
            && |w'.spokes| == |w.spokes|
            && (duration % WHEEL_SIZE != 0 ==> w'.spokes[w.current] == w.spokes[w.current])
  {
    hide Booked, DueOnSpoke, SpokeFor, Rotations;
    PartialTurnMovesAway(w.current, duration);
  }

  lemma PartialTurnMovesAway(current: nat, duration: int)
    requires current < WHEEL_SIZE
    ensures SpokeFor(current, duration) == current <==> duration % WHEEL_SIZE == 0
  {}

  lemma {:induction false} DoAllKeepsClock(w: Wheel, cs: seq<Command>)
    requires Inv(w) && LegalScript(cs, w.live)
    ensures var w' := DoAll(w, cs);
            && w'.current == w.current && w'.now == w.now && w'.draining == w.draining
            && (NoFullTurn(cs) ==> |w'.spokes[w.current]| <= |w.spokes[w.current]|)
    decreases |cs|
  {
    if cs != [] {
      DoKeepsClock(w, cs[0]);
      DoAllKeepsClock(Do(w, cs[0]), cs[1..]);
    }
  }

  lemma DrainStepStaysInTick(w: Wheel, cb: Callback)
    requires Inv(w) && WellBehaved(cb) && w.draining && w.spokes[w.current] != []
    ensures DrainStep(w, cb).draining && DrainStep(w, cb).current == w.current
  {
    HeadIsDue(w);
    var t := w.spokes[w.current][0];
    if w.rotation[t] == 0 {
      DoAllKeepsClock(Unlink(w, t, Fired(w.now)), cb(t, w.live));
    }
  }

  /** The rotation_count of the timer at the head of the spoke being drained. */
  function HeadRotation(w: Wheel): nat
    requires Inv(w)
  {
    if w.spokes[w.current] == [] then 0 else
      var t := w.spokes[w.current][0];
      assert t in w.spokes[w.current];
      w.rotation[t]
  }

  /** Every iteration shortens the spoke or lowers the rotation count at its head. */
  lemma DrainStepProgress(w: Wheel, cb: Callback)
    requires Inv(w) && WellBehaved(cb) && NeverArmsFullTurn(cb)
    requires w.draining && w.spokes[w.current] != []
    ensures var w' := DrainStep(w, cb);
            && w'.draining && w'.now == w.now && w'.current == w.current
            && (|w'.spokes[w.current]| < |w.spokes[w.current]|
                || (w'.spokes[w.current] == w.spokes[w.current] && HeadRotation(w') < HeadRotation(w)))
  {
    var t := w.spokes[w.current][0];
    HeadIsDue(w);
    if w.rotation[t] == 0 {
      DoAllKeepsClock(Unlink(w, t, Fired(w.now)), cb(t, w.live));
    }
  }

  /** The loop of handle_timers. */
  ghost function Drain(w: Wheel, cb: Callback): (w': Wheel)
    requires Inv(w) && WellBehaved(cb) && NeverArmsFullTurn(cb) && w.draining
    ensures Inv(w') && w'.draining && w'.now == w.now && w'.spokes[w'.current] == []
    decreases |w.spokes[w.current]|, HeadRotation(w)
  {
    if w.spokes[w.current] == [] then w else
      DrainStepProgress(w, cb);
      Drain(DrainStep(w, cb), cb)
  }

  function Advance(w: Wheel): (w': Wheel)
    requires Inv(w) && !w.draining
    ensures Inv(w')
  {
    w.(now := w.now + 1, current := (w.current + 1) % WHEEL_SIZE, draining := true)
  }

  /** handle_timers */
  ghost function Tick(w: Wheel, cb: Callback): (w': Wheel)
    requires Inv(w) && WellBehaved(cb) && NeverArmsFullTurn(cb) && !w.draining
    ensures Inv(w') && !w'.draining && w'.now == w.now + 1
  {
    var u := Drain(Advance(w), cb);
    EmptySpokeNothingDue(u);
    u.(draining := false)
  }

  lemma EmptySpokeNothingDue(w: Wheel)
    requires Inv(w) && w.draining && w.spokes[w.current] == []
    ensures Inv(w.(draining := false))
  {
    forall t | t in w.last
      ensures Due(w.armings[w.last[t]]) != w.now
    {
      assert t in w.spokes[w.slot[t]];
    }
  }
}
