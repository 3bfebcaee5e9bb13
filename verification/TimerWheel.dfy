/**
  lispd/lib/timers.c as it works: circular doubly linked spokes edited through the links stored
  in the timers, a counter of running timers, and the drain loop of handle_timers.

  Memory is a pair of maps from addresses to links. An address that is not a key of the maps is
  not allocated, so that every dereference in the methods carries the obligation that the link
  has not been freed.
 */
module TimerWheel {
  import opened WheelSpec
  import opened Seqs

  const NULL: int := -1

  type Links = map<Address, int>

  /** The k-th node met on a walk of the spoke with sentinel i, starting at the sentinel. */
  function Node(i: Address, s: seq<Address>, k: nat): Address
    requires k <= |s|
  {
    if k == 0 then i else s[k - 1]
  }

  /** The node that follows it; after the last timer comes the sentinel again. */
  function Follow(i: Address, s: seq<Address>, k: nat): Address
    requires k <= |s|
  {
    if k == |s| then i else s[k]
  }

  ghost predicate Linked(next: Links, prev: Links, a: Address, b: Address) {
    a in next && next[a] == b && b in prev && prev[b] == a
  }

  /** The links of a sentinel and of the timers on its spoke form one doubly linked ring. */
  ghost predicate Ring(next: Links, prev: Links, i: Address, s: seq<Address>) {
    forall k :: 0 <= k <= |s| ==> Linked(next, prev, Node(i, s, k), Follow(i, s, k))
  }

  ghost predicate Rings(next: Links, prev: Links, spokes: seq<seq<Address>>) {
    forall i :: 0 <= i < |spokes| ==> Ring(next, prev, i, spokes[i])
  }

  // ---------- one ring ----------

  predicate OnRing(i: Address, s: seq<Address>, a: int) {
    a == i || a in s
  }

  lemma RingFrame(next: Links, prev: Links, next': Links, prev': Links, i: Address, s: seq<Address>)
    requires Ring(next, prev, i, s)
    requires forall a :: OnRing(i, s, a) && a in next ==> a in next' && next'[a] == next[a]
    requires forall a :: OnRing(i, s, a) && a in prev ==> a in prev' && prev'[a] == prev[a]
    ensures Ring(next', prev', i, s)
  {
    forall k | 0 <= k <= |s|
      ensures Linked(next', prev', Node(i, s, k), Follow(i, s, k))
    {
      assert Linked(next, prev, Node(i, s, k), Follow(i, s, k));
      assert OnRing(i, s, Node(i, s, k)) && OnRing(i, s, Follow(i, s, k));
    }
  }

  lemma RingUnlink(next: Links, prev: Links, i: Address, s: seq<Address>, m: nat)
    requires Ring(next, prev, i, s) && NoRepeats(s) && i !in s && m < |s|
    ensures Linked(next, prev, Node(i, s, m), s[m]) && Linked(next, prev, s[m], Follow(i, s, m + 1))
    ensures Ring(next[Node(i, s, m) := Follow(i, s, m + 1)], prev[Follow(i, s, m + 1) := Node(i, s, m)],
                 i, s[..m] + s[m + 1..])
  {
    var s' := s[..m] + s[m + 1..];
    var before, after := Node(i, s, m), Follow(i, s, m + 1);
    assert Linked(next, prev, Node(i, s, m), Follow(i, s, m));
    assert Linked(next, prev, Node(i, s, m + 1), Follow(i, s, m + 1));
    var next', prev' := next[before := after], prev[after := before];
    forall k | 0 <= k <= |s'|
      ensures Linked(next', prev', Node(i, s', k), Follow(i, s', k))
    {
      var g := if k <= m then k else k + 1;
      assert Node(i, s', k) == Node(i, s, g);
      var h := if k < m then k else k + 1;
      assert Follow(i, s', k) == Follow(i, s, h);
      assert Linked(next, prev, Node(i, s, g), Follow(i, s, g));
      assert Linked(next, prev, Node(i, s, h), Follow(i, s, h));
      if k != m {
        assert Node(i, s, g) != before;
        assert Follow(i, s, h) != after;
      }
    }
  }

  lemma RingInsert(next: Links, prev: Links, i: Address, s: seq<Address>, t: Address)
    requires Ring(next, prev, i, s) && NoRepeats(s) && i !in s && t !in s && t != i
    ensures Linked(next, prev, Node(i, s, |s|), i)
    ensures Ring(next[t := i][Node(i, s, |s|) := t], prev[t := Node(i, s, |s|)][i := t], i, s + [t])
  {
    var s' := s + [t];
    var tail := Node(i, s, |s|);
    assert Linked(next, prev, Node(i, s, |s|), Follow(i, s, |s|));
    var next', prev' := next[t := i][tail := t], prev[t := tail][i := t];
    forall k | 0 <= k <= |s'|
      ensures Linked(next', prev', Node(i, s', k), Follow(i, s', k))
    {
      if k < |s| {
        assert Node(i, s', k) == Node(i, s, k) != tail;
        assert Follow(i, s', k) == Follow(i, s, k) != i;
        assert Linked(next, prev, Node(i, s, k), Follow(i, s, k));
      }
    }
  }

  // ---------- all the rings ----------

  /** Every running timer lies above the sentinels. */
  ghost predicate TimersAbove(slot: map<Address, nat>) {
    forall t :: t in slot ==> t >= WHEEL_SIZE
  }

  /** Nodes of different rings are different. */
  lemma NodesApart(spokes: seq<seq<Address>>, slot: map<Address, nat>, i: nat, j: nat, a: int)
    requires Wired(spokes, slot) && TimersAbove(slot)
    requires i < WHEEL_SIZE && j < WHEEL_SIZE && i != j
    requires OnRing(i, spokes[i], a)
    ensures !OnRing(j, spokes[j], a)
  {
    NoSentinelLinked(spokes, slot, i, j);
    NoSentinelLinked(spokes, slot, j, i);
    if a in spokes[i] { assert a in slot && slot[a] == i; }
  }

  lemma NoSentinelLinked(spokes: seq<seq<Address>>, slot: map<Address, nat>, i: nat, j: nat)
    requires Wired(spokes, slot) && TimersAbove(slot) && i < WHEEL_SIZE && j < WHEEL_SIZE
    ensures i !in spokes[j]
  {
    assert i !in slot;
  }

  /** Writing the links of a timer that is not running disturbs no ring. */
  lemma RingsFrame(next: Links, prev: Links, spokes: seq<seq<Address>>, slot: map<Address, nat>,
                   next': Links, prev': Links, t: Address)
    requires Wired(spokes, slot) && Rings(next, prev, spokes)
    requires t !in slot && t >= WHEEL_SIZE
    requires forall a: Address :: a in next && a != t ==> a in next' && next'[a] == next[a]
    requires forall a: Address :: a in prev && a != t ==> a in prev' && prev'[a] == prev[a]
    ensures Rings(next', prev', spokes)
  {
    forall i | 0 <= i < |spokes|
      ensures Ring(next', prev', i, spokes[i])
    {
      assert !OnRing(i, spokes[i], t);
      RingFrame(next, prev, next', prev', i, spokes[i]);
    }
  }

  /** Writes that touch only nodes of ring i disturb no other ring. */
  lemma OtherRings(next: Links, prev: Links, spokes: seq<seq<Address>>, slot: map<Address, nat>,
                   next': Links, prev': Links, i: nat, j: nat, t: Address)
    requires Wired(spokes, slot) && TimersAbove(slot) && Rings(next, prev, spokes)
    requires i < WHEEL_SIZE && j < WHEEL_SIZE && i != j
    requires OnRing(i, spokes[i], t) || (t !in slot && t >= WHEEL_SIZE)
    requires forall a: Address :: a in next && a != t && !OnRing(i, spokes[i], a) ==> a in next' && next'[a] == next[a]
    requires forall a: Address :: a in prev && a != t && !OnRing(i, spokes[i], a) ==> a in prev' && prev'[a] == prev[a]
    ensures Ring(next', prev', j, spokes[j])
  {
    forall a | OnRing(j, spokes[j], a)
      ensures a != t && !OnRing(i, spokes[i], a)
    {
      NodesApart(spokes, slot, j, i, a);
    }
    RingFrame(next, prev, next', prev', j, spokes[j]);
  }

  /** The two pointer writes that take a timer out of its ring. */
  lemma RingsUnlink(next: Links, prev: Links, spokes: seq<seq<Address>>, slot: map<Address, nat>, t: Address)
    requires Wired(spokes, slot) && TimersAbove(slot) && Rings(next, prev, spokes) && t in slot
    ensures t in next && t in prev
    ensures OnRing(slot[t], spokes[slot[t]], next[t]) && OnRing(slot[t], spokes[slot[t]], prev[t])
    ensures Rings(next[prev[t] := next[t]], prev[next[t] := prev[t]],
                  spokes[slot[t] := Without(spokes[slot[t]], t)])
  {
    var i := slot[t];
    var s := spokes[i];
    var m := IndexOf(s, t);
    assert Ring(next, prev, i, s);
    NoSentinelLinked(spokes, slot, i, i);
    RingUnlink(next, prev, i, s, m);
    var before, after := Node(i, s, m), Follow(i, s, m + 1);
    assert prev[t] == before && next[t] == after;
    var next', prev' := next[before := after], prev[after := before];
    var spokes' := spokes[i := Without(s, t)];
    forall j | 0 <= j < |spokes'|
      ensures Ring(next', prev', j, spokes'[j])
    {
      if j != i { OtherRings(next, prev, spokes, slot, next', prev', i, j, t); }
    }
  }

  /** The pointer writes of insert_timer put the timer last on its spoke. */
  lemma RingsInsert(next: Links, prev: Links, spokes: seq<seq<Address>>, slot: map<Address, nat>,
                    t: Address, i: nat)
    requires Wired(spokes, slot) && TimersAbove(slot) && Rings(next, prev, spokes)
    requires t !in slot && t >= WHEEL_SIZE && i < WHEEL_SIZE
    ensures i in prev && OnRing(i, spokes[i], prev[i])
    ensures Rings(next[t := i][prev[i] := t], prev[t := prev[i]][i := t], spokes[i := spokes[i] + [t]])
  {
    var s := spokes[i];
    assert Ring(next, prev, i, s) && t !in s;
    NoSentinelLinked(spokes, slot, i, i);
    RingInsert(next, prev, i, s, t);
    var tail := Node(i, s, |s|);
    assert prev[i] == tail && OnRing(i, s, tail);
    var next', prev' := next[t := i][tail := t], prev[t := tail][i := t];
    var spokes' := spokes[i := s + [t]];
    forall j | 0 <= j < |spokes'|
      ensures Ring(next', prev', j, spokes'[j])
    {
      if j != i { OtherRings(next, prev, spokes, slot, next', prev', i, j, t); }
    }
  }

  function FiredCount(armings: seq<Arming>): nat {
    if armings == [] then 0
    else FiredCount(armings[..|armings| - 1]) + if armings[|armings| - 1].fate.Fired? then 1 else 0
  }

  lemma {:induction false} FiredCountUpdate(armings: seq<Arming>, i: nat, a: Arming)
    requires i < |armings| && !armings[i].fate.Fired?
    ensures FiredCount(armings[i := a]) == FiredCount(armings) + if a.fate.Fired? then 1 else 0
  {
    var n := |armings| - 1;
    if i < n {
      assert armings[i := a][..n] == armings[..n][i := a];
      FiredCountUpdate(armings[..n], i, a);
    } else {
      assert armings[i := a][..n] == armings[..n];
    }
  }

  /** The link memory holds the sentinels and the allocated timers, and is wired as the model says. */
  ghost predicate Memory(next: Links, prev: Links, rotation: map<Address, int>, live: set<Address>,
                         spokes: seq<seq<Address>>, slot: map<Address, nat>, rotations: map<Address, nat>)
  {
    && (forall a: Address {:trigger a in next} :: a in next <==> 0 <= a < WHEEL_SIZE || a in live)
    && (forall a: Address {:trigger a in prev} :: a in prev <==> 0 <= a < WHEEL_SIZE || a in live)
    && (forall t :: t in live ==> t >= WHEEL_SIZE)
    && rotation.Keys == live
    && slot.Keys == rotations.Keys <= live
    && (forall t :: t in slot ==> rotation[t] == rotations[t])
    && (forall t :: t in live && t !in slot ==> next[t] == NULL && prev[t] == NULL)
    && Rings(next, prev, spokes)
  }

  /** After the unlinking code, memory is wired as the model without the timer. */
  lemma UnlinkMemory(next: Links, prev: Links, rotation: map<Address, int>, live: set<Address>,
                     spokes: seq<seq<Address>>, slot: map<Address, nat>, rotations: map<Address, nat>, t: Address)
    requires Wired(spokes, slot) && TimersAbove(slot)
    requires Memory(next, prev, rotation, live, spokes, slot, rotations) && t in slot
    ensures t in next && t in prev && next[t] in prev && prev[t] in next
    ensures Memory(next[prev[t] := next[t]][t := NULL], prev[next[t] := prev[t]][t := NULL], rotation, live,
                   spokes[slot[t] := Without(spokes[slot[t]], t)], slot - {t}, rotations - {t})
  {
    RingsUnlinkClear(next, prev, spokes, slot, t);
    hide Rings, Without, Wired;
    var next2, prev2 := next[prev[t] := next[t]][t := NULL], prev[next[t] := prev[t]][t := NULL];
    forall u | u in live && u !in slot - {t}
      ensures next2[u] == NULL && prev2[u] == NULL
    {
      if u != t { assert u !in slot && u != next[t] && u != prev[t]; }
    }
  }

  lemma RingsUnlinkClear(next: Links, prev: Links, spokes: seq<seq<Address>>, slot: map<Address, nat>, t: Address)
    requires Wired(spokes, slot) && TimersAbove(slot) && Rings(next, prev, spokes) && t in slot
    ensures t in next && t in prev
    ensures next[t] in slot || 0 <= next[t] < WHEEL_SIZE
    ensures prev[t] in slot || 0 <= prev[t] < WHEEL_SIZE
    ensures Rings(next[prev[t] := next[t]][t := NULL], prev[next[t] := prev[t]][t := NULL],
                  spokes[slot[t] := Without(spokes[slot[t]], t)])
  {
    RingsUnlink(next, prev, spokes, slot, t);
    WiredUnlink(spokes, slot, t);
    hide Rings, Without;
    var next1, prev1 := next[prev[t] := next[t]], prev[next[t] := prev[t]];
    RingsFrame(next1, prev1, spokes[slot[t] := Without(spokes[slot[t]], t)], slot - {t},
               next1[t := NULL], prev1[t := NULL], t);
  }

  lemma CreateMemory(next: Links, prev: Links, rotation: map<Address, int>, live: set<Address>,
                     spokes: seq<seq<Address>>, slot: map<Address, nat>, rotations: map<Address, nat>, t: Address)
    requires Wired(spokes, slot) && Memory(next, prev, rotation, live, spokes, slot, rotations)
    requires t >= WHEEL_SIZE && t !in live
    ensures Memory(next[t := NULL], prev[t := NULL], rotation[t := 0], live + {t}, spokes, slot, rotations)
  {
    RingsFrame(next, prev, spokes, slot, next[t := NULL], prev[t := NULL], t);
    hide Rings, Wired;
  }

  lemma UnlinkCounts(w: Wheel, t: Address, fate: Fate)
    requires Inv(w) && t in w.slot
    requires fate == Cancelled || (fate == Fired(w.now) && Due(w.armings[w.last[t]]) == w.now)
    ensures |Unlink(w, t, fate).slot| == |w.slot| - 1
    ensures FiredCount(Unlink(w, t, fate).armings) == FiredCount(w.armings) + if fate.Fired? then 1 else 0
  {
    FiredCountUpdate(w.armings, w.last[t], w.armings[w.last[t]].(fate := fate));
    assert (w.slot - {t}).Keys == w.slot.Keys - {t};
    assert |w.slot.Keys - {t}| == |w.slot.Keys| - 1;
    hide Wired, DueOnSpoke, FiredCount, Due;
  }

  /** The loop of lmtimers_init: each sentinel linked to itself. */
  method EmptySpokes() returns (next: Links, prev: Links)
    ensures forall a: Address {:trigger a in next} :: a in next <==> 0 <= a < WHEEL_SIZE
    ensures forall a: Address {:trigger a in prev} :: a in prev <==> 0 <= a < WHEEL_SIZE
    ensures Rings(next, prev, seq(WHEEL_SIZE, _ => []))
  {
    next, prev := map[], map[];
    for i := 0 to WHEEL_SIZE
      invariant forall a: Address {:trigger a in next} :: a in next <==> 0 <= a < i
      invariant forall a: Address {:trigger a in prev} :: a in prev <==> 0 <= a < i
      invariant forall a: Address :: a in next ==> Linked(next, prev, a, a)
    {
      next, prev := next[i := i], prev[i := i];
    }
  }

  /** The fields of the wheel stand for the model. */
  ghost predicate Stands(next: Links, prev: Links, rotation: map<Address, int>, current: int,
                         running: int, expirations: int, w: Wheel)
  {
    && Inv(w)
    && current == w.current
    && running == |w.slot|
    && expirations == FiredCount(w.armings)
    && Memory(next, prev, rotation, w.live, w.spokes, w.slot, w.rotation)
  }

  lemma StandsFacts(next: Links, prev: Links, rotation: map<Address, int>, current: int,
                    running: int, expirations: int, w: Wheel)
    requires Stands(next, prev, rotation, current, running, expirations, w)
    ensures Inv(w) && current == w.current && rotation.Keys == w.live
  {}

  lemma CreateStands(next: Links, prev: Links, rotation: map<Address, int>, current: int,
                     running: int, expirations: int, w: Wheel, t: Address)
    requires Stands(next, prev, rotation, current, running, expirations, w) && t >= WHEEL_SIZE && t !in w.live
    ensures Stands(next[t := NULL], prev[t := NULL], rotation[t := 0], current, running, expirations,
                   CreateTimer(w, t))
  {
    CreateMemory(next, prev, rotation, w.live, w.spokes, w.slot, w.rotation, t);
    hide Wired, Booked, Memory;
  }

  lemma UnlinkStands(next: Links, prev: Links, rotation: map<Address, int>, current: int,
                     running: int, expirations: int, w: Wheel, t: Address, fate: Fate)
    requires Stands(next, prev, rotation, current, running, expirations, w) && t in w.slot
    requires fate == Cancelled || (fate == Fired(w.now) && Due(w.armings[w.last[t]]) == w.now)
    ensures t in next && t in prev
    ensures Stands(next[prev[t] := next[t]][t := NULL], prev[next[t] := prev[t]][t := NULL], rotation, current,
                   running - 1, expirations + (if fate.Fired? then 1 else 0), Unlink(w, t, fate))
  {
    assert TimersAbove(w.slot);
    UnlinkMemory(next, prev, rotation, w.live, w.spokes, w.slot, w.rotation, t);
    UnlinkCounts(w, t, fate);
    hide Wired, Booked, Memory, Without, FiredCount;
  }

  lemma StartStands(next: Links, prev: Links, rotation: map<Address, int>, current: int,
                    running: int, expirations: int, w: Wheel, t: Address, duration: int)
    requires Stands(next, prev, rotation, current, running, expirations, w) && t in w.live && t !in w.slot
    ensures var i := SpokeFor(w.current, duration);
            && i in prev && prev[i] in next
            && Stands(next[t := i][prev[i] := t], prev[t := prev[i]][i := t], rotation[t := Rotations(duration)],
                      current, running + 1, expirations, Insert(w, t, duration))
  {
    var i := SpokeFor(w.current, duration);
    assert TimersAbove(w.slot);
    InsertMemory(next, prev, rotation, w.live, w.spokes, w.slot, w.rotation, t, i, Rotations(duration));
    var a := Arming(t, duration, w.now, w.draining, Pending);
    assert (w.armings + [a])[..|w.armings|] == w.armings;
    assert w.slot[t := i].Keys == w.slot.Keys + {t};
    assert FiredCount(w.armings + [a]) == FiredCount(w.armings);
    hide Wired, Booked, Memory, FiredCount, Rotations, SpokeFor;
  }

  lemma InsertMemory(next: Links, prev: Links, rotation: map<Address, int>, live: set<Address>,
                     spokes: seq<seq<Address>>, slot: map<Address, nat>, rotations: map<Address, nat>,
                     t: Address, i: nat, r: nat)
    requires Wired(spokes, slot) && TimersAbove(slot)
    requires Memory(next, prev, rotation, live, spokes, slot, rotations)
    requires t in live && t !in slot && i < WHEEL_SIZE
    ensures i in prev && prev[i] in next
    ensures Memory(next[t := i][prev[i] := t], prev[t := prev[i]][i := t], rotation[t := r], live,
                   spokes[i := spokes[i] + [t]], slot[t := i], rotations[t := r])
  {
    RingsInsert(next, prev, spokes, slot, t, i);
    assert prev[i] in slot || prev[i] == i;
    hide Rings, Wired;
  }

  /** The test of lmtimer_start and lmtimer_stop: a timer is running exactly if its links are set. */
  lemma RunningIffLinked(next: Links, prev: Links, rotation: map<Address, int>, current: int,
                         running: int, expirations: int, w: Wheel, t: Address)
    requires Stands(next, prev, rotation, current, running, expirations, w) && t in w.live
    ensures t in next && t in prev
    ensures (t in w.slot <==> next[t] != NULL) && (t in w.slot <==> prev[t] != NULL)
  {
    if t in w.slot {
      assert TimersAbove(w.slot);
      RingsUnlink(next, prev, w.spokes, w.slot, t);
      assert next[t] in w.slot || next[t] == w.slot[t];
      assert prev[t] in w.slot || prev[t] == w.slot[t];
    }
  }

  lemma FreeStands(next: Links, prev: Links, rotation: map<Address, int>, current: int,
                   running: int, expirations: int, w: Wheel, t: Address)
    requires Stands(next, prev, rotation, current, running, expirations, w) && t in w.live && t !in w.slot
    ensures Stands(next - {t}, prev - {t}, rotation - {t}, current, running, expirations, StopTimer(w, t))
  {
    RingsFrame(next, prev, w.spokes, w.slot, next - {t}, prev - {t}, t);
    hide Rings, Wired, Booked, FiredCount;
  }

  lemma AdvanceStands(next: Links, prev: Links, rotation: map<Address, int>, current: int,
                      running: int, expirations: int, w: Wheel)
    requires Stands(next, prev, rotation, current, running, expirations, w) && !w.draining
    ensures Stands(next, prev, rotation, (current + 1) % WHEEL_SIZE, running, expirations, Advance(w))
  {
    hide Wired, Booked, Memory, FiredCount;
  }

  /** Where the walk stands: the sentinel leads to the head of the spoke, and the head back to it. */
  lemma HeadOfSpoke(next: Links, prev: Links, rotation: map<Address, int>, current: int,
                    running: int, expirations: int, w: Wheel)
    requires Stands(next, prev, rotation, current, running, expirations, w)
    ensures current in next
    ensures next[current] == current <==> w.spokes[w.current] == []
    ensures var s := w.spokes[w.current];
            s != [] ==> next[current] == s[0] && s[0] in next && s[0] in prev && prev[s[0]] == current
                        && s[0] in w.slot && s[0] in rotation && rotation[s[0]] == w.rotation[s[0]]
  {
    var s := w.spokes[w.current];
    assert Ring(next, prev, w.current, s);
    assert Linked(next, prev, Node(w.current, s, 0), Follow(w.current, s, 0));
    if s != [] {
      var t := s[0];
      assert t in s && t in w.slot && t in w.live;
    }
  }

  lemma DrainStepIs(w: Wheel, cb: Callback)
    requires Inv(w) && WellBehaved(cb) && w.draining && w.spokes[w.current] != []
    ensures var t := w.spokes[w.current][0];
            && t in w.slot && t in w.rotation && Due(w.armings[w.last[t]]) == w.now
            && LegalScript(cb(t, w.live), w.live)
            && DrainStep(w, cb) == if w.rotation[t] > 0 then w.(rotation := w.rotation[t := w.rotation[t] - 1])
                                   else DoAll(Unlink(w, t, Fired(w.now)), cb(t, w.live))
  {
    HeadIsDue(w);
    hide Wired, Booked, Unlink, DoAll;
  }

  lemma LowerStands(next: Links, prev: Links, rotation: map<Address, int>, current: int,
                    running: int, expirations: int, w: Wheel, t: Address)
    requires Stands(next, prev, rotation, current, running, expirations, w)
    requires t in w.slot && w.rotation[t] > 0
    ensures t in rotation
    ensures Stands(next, prev, rotation[t := rotation[t] - 1], current, running, expirations,
                   w.(rotation := w.rotation[t := w.rotation[t] - 1]))
  {
    hide Rings, Wired, Booked, FiredCount;
  }

  lemma StopDrainStands(next: Links, prev: Links, rotation: map<Address, int>, current: int,
                        running: int, expirations: int, w: Wheel)
    requires Stands(next, prev, rotation, current, running, expirations, w)
    requires w.draining && w.spokes[w.current] == []
    ensures Stands(next, prev, rotation, current, running, expirations, w.(draining := false))
  {
    EmptySpokeNothingDue(w);
    hide Inv, Memory, FiredCount;
  }

  class Timers {
    var next: Links
    var prev: Links
    var rotation: map<Address, int>
    var current: int
    var running: int
    var expirations: int
    ghost var model: Wheel

    ghost predicate Valid()
      reads this
    {
      Stands(next, prev, rotation, current, running, expirations, model)
    }

    /** lmtimers_init */
    constructor ()
      ensures Valid() && model == Initial()
    {
      var n, p := EmptySpokes();
      next, prev, rotation := n, p, map[];
      current, running, expirations := 0, 0, 0;
      model := Initial();
    }

    /** lmtimer_create, at the address chosen by the allocator */
    method Create(t: Address)
      requires Valid() && t >= WHEEL_SIZE && t !in model.live
      modifies this
      ensures Valid() && model == CreateTimer(old(model), t)
    {
      hide Stands, Inv, CreateTimer;
      StandsFacts(next, prev, rotation, current, running, expirations, model);
      CreateStands(next, prev, rotation, current, running, expirations, model, t);
      ghost var after := CreateTimer(model, t);
      next, prev, rotation := next[t := NULL], prev[t := NULL], rotation[t := 0];
      model := after;
    }

    /** The unlinking code shared by lmtimer_start, lmtimer_stop and handle_timers */
    method TakeOff(t: Address, expired: bool)
      requires Valid() && t in model.slot
      requires expired ==> Due(model.armings[model.last[t]]) == model.now
      modifies this
      ensures Valid() && model == Unlink(old(model), t, if expired then Fired(old(model).now) else Cancelled)
    {
      hide Stands, Inv, Unlink;
      StandsFacts(next, prev, rotation, current, running, expirations, model);
      ghost var fate := if expired then Fired(model.now) else Cancelled;
      UnlinkStands(next, prev, rotation, current, running, expirations, model, t, fate);
      ghost var after := Unlink(model, t, fate);
      var n, p := next[t], prev[t];
      next, prev := next[p := n], prev[n := p];
      next, prev := next[t := NULL], prev[t := NULL];
      running := running - 1;
      if expired { expirations := expirations + 1; }
      model := after;
    }

    /** lmtimer_start */
    method Start(t: Address, duration: int)
      requires Valid() && t in model.live
      modifies this
      ensures Valid() && model == StartTimer(old(model), t, duration)
    {
      RunningIffLinked(next, prev, rotation, current, running, expirations, model, t);
      if next[t] != NULL {
        TakeOff(t, false);
      }
      InsertTimer(t, duration);
    }

    /** insert_timer, and the count of running timers kept by lmtimer_start */
    method InsertTimer(t: Address, duration: int)
      requires Valid() && t in model.live && t !in model.slot
      modifies this
      ensures Valid() && model == Insert(old(model), t, duration)
    {
      hide Stands, Inv, Insert, SpokeFor, Rotations;
      StandsFacts(next, prev, rotation, current, running, expirations, model);
      StartStands(next, prev, rotation, current, running, expirations, model, t, duration);
      ghost var after := Insert(model, t, duration);
      var pos := SpokeFor(current, duration);
      rotation := rotation[t := Rotations(duration)];
      var tail := prev[pos];
      next, prev := next[t := pos], prev[t := tail];
      next, prev := next[tail := t], prev[pos := t];
      running := running + 1;
      model := after;
    }

    /** lmtimer_stop: afterwards the timer's memory is gone */
    method Stop(t: Address)
      requires Valid() && t in model.live
      modifies this
      ensures Valid() && model == StopTimer(old(model), t)
      ensures t !in next && t !in prev && t !in rotation
    {
      RunningIffLinked(next, prev, rotation, current, running, expirations, model, t);
      if next[t] != NULL || prev[t] != NULL {
        TakeOff(t, false);
      }
      FreeStands(next, prev, rotation, current, running, expirations, model, t);
      ghost var after := StopTimer(model, t);
      hide Stands, StopTimer;
      next, prev, rotation := next - {t}, prev - {t}, rotation - {t};
      model := after;
    }

    /** Code run by a callback or by a protocol event */
    method RunScript(cs: seq<Command>)
      requires Valid() && LegalScript(cs, model.live)
      modifies this
      ensures Valid() && model == DoAll(old(model), cs)
    {
      hide Inv, Memory;
      for i := 0 to |cs|
        invariant Valid() && Inv(model) && LegalScript(cs[i..], model.live)
        invariant DoAll(model, cs[i..]) == DoAll(old(model), cs)
      {
        assert cs[i..][0] == cs[i] && cs[i..][1..] == cs[i + 1..];
        match cs[i] {
          case Create(t) => Create(t);
          case Start(t, d) => Start(t, d);
          case Stop(t) => Stop(t);
        }
      }
    }

    /**
      handle_timers. The walk always continues from the sentinel of the spoke, which is never
      freed, so the callbacks may stop, restart and free any timers.
     */
    method HandleTimers(cb: Callback)
      requires Valid() && !model.draining && WellBehaved(cb) && NeverArmsFullTurn(cb)
      modifies this
      ensures Valid() && model == Tick(old(model), cb)
    {
      AdvanceStands(next, prev, rotation, current, running, expirations, model);
      current := (current + 1) % WHEEL_SIZE;
      model := Advance(model);
      ghost var start := model;
      var spoke := current;
      HeadOfSpoke(next, prev, rotation, current, running, expirations, model);
      hide Inv, Memory, DrainStep, FiredCount;
      var t := next[spoke];
      while t != spoke
        invariant Valid() && model.draining && current == spoke
        invariant spoke in next && t == next[spoke]
        invariant t == spoke <==> model.spokes[model.current] == []
        invariant Drain(model, cb) == Drain(start, cb)
        decreases |model.spokes[model.current]|, HeadRotation(model)
      {
        HeadOfSpoke(next, prev, rotation, current, running, expirations, model);
        DrainStepProgress(model, cb);
        ghost var after := DrainStep(model, cb);
        var p := prev[t];
        assert p == spoke;
        DrainOnce(t, cb);
        assert model == after;
        HeadOfSpoke(next, prev, rotation, current, running, expirations, model);
        t := next[p];
      }
      StopDrainStands(next, prev, rotation, current, running, expirations, model);
      model := model.(draining := false);
    }

    /** The body of the loop of handle_timers, up to the choice of the next node */
    method DrainOnce(t: Address, cb: Callback)
      requires Valid() && WellBehaved(cb) && model.draining
      requires model.spokes[model.current] != [] && t == model.spokes[model.current][0]
      modifies this
      ensures Valid() && model == DrainStep(old(model), cb) && current == old(current)
    {
      hide Stands, Inv, DrainStep, Unlink, DoAll, WellBehaved;
      StandsFacts(next, prev, rotation, current, running, expirations, model);
      HeadOfSpoke(next, prev, rotation, current, running, expirations, model);
      HeadIsDue(model);
      DrainStepStaysInTick(model, cb);
      DrainStepIs(model, cb);
      if rotation[t] > 0 {
        LowerStands(next, prev, rotation, current, running, expirations, model, t);
        ghost var after := DrainStep(model, cb);
        rotation := rotation[t := rotation[t] - 1];
        model := after;
      } else {
        var script := cb(t, rotation.Keys);
        TakeOff(t, true);
        RunScript(script);
        StandsFacts(next, prev, rotation, current, running, expirations, model);
      }
    }
  }
}
