/**
  Interface events and the SMR round they lead to (lispd/control/lisp_xtr.c, lib/iface_locators.c):
  which interfaces have changed on balance since the last round, and which local entries must be
  announced anew. The local mappings appear as their lists of locators.
 */
module Interfaces {
  import opened Options
  import opened Seqs
  import Mappings
  import MappingStore
  import opened IfaceMappings
  import WheelSpec

  const SMR_TIMEOUT := 5

  type Address = nat
  type Locator = int
  type Entry = int

  /**
    One address family of an interface: its address, ipv4_prev_addr or ipv6_prev_addr (an inner
    None is the no-address value), its locators. start is history: the address when the window began.
   */
  datatype Family = Family(cur: Option<Address>, prev: Option<Option<Address>>, locs: seq<Locator>,
                           start: Option<Address>)

  /** first and startUp are history: whether no round has run yet, and the status when the window began. */
  datatype Iface = Iface(v4: Family, v6: Family, statusChanged: bool, up: bool, first: bool, startUp: bool)

  datatype State = State(ifaces: seq<Iface>, now: nat, ticking: bool, due: Option<nat>,
                         changed: Option<nat>)   // history: the tick of the latest event since the last round

  // ---------- events ----------

  /** The transition check of xtr_if_event for a new address. */
  function NewAddress(f: Family, new_: Address): Family {
    f.(cur := Some(new_),
       prev := if f.prev.Some? then if f.prev.value == Some(new_) then None else f.prev
               else Some(f.cur))
  }

  function Program(s: State): State {
    s.(due := Some(s.now + WheelSpec.FiringDelay(SMR_TIMEOUT, s.ticking)), changed := Some(s.now))
  }

  /** left are the locators that the event leaves on the interface. */
  function OnAddress(s: State, i: nat, v6: bool, new_: Address, left: seq<Locator>): State
    requires i < |s.ifaces|
  {
    var x := s.ifaces[i];
    var f := if v6 then x.v6 else x.v4;
    var f' := NewAddress(f, new_).(locs := left);
    if f.cur == Some(new_) then s
    else Program(s.(ifaces := s.ifaces[i := if v6 then x.(v6 := f') else x.(v4 := f')]))
  }

  /** A status event reports the other status. */
  function OnStatus(s: State, i: nat): State
    requires i < |s.ifaces|
  {
    var x := s.ifaces[i];
    Program(s.(ifaces := s.ifaces[i := x.(statusChanged := !x.statusChanged, up := !x.up)]))
  }

  function Settled(f: Family): Family {
    f.(prev := None, start := f.cur)
  }

  function Reset(x: Iface): Iface {
    Iface(Settled(x.v4), Settled(x.v6), false, x.up, false, x.up)
  }

  function ResetAll(xs: seq<Iface>): (r: seq<Iface>)
    ensures |r| == |xs| && forall i :: 0 <= i < |xs| ==> r[i] == Reset(xs[i])
  {
    seq(|xs|, i requires 0 <= i < |xs| => Reset(xs[i]))
  }

  function Round(s: State): State {
    s.(ifaces := ResetAll(s.ifaces), due := None, changed := None)
  }

  datatype Event =
    | Address(i: nat, v6: bool, new_: Address, left: seq<Locator>)
    | Status(i: nat)
    | BeginTick
    | Fire
    | EndTick

  predicate Enabled(s: State, e: Event) {
    match e
    case Address(i, _, _, _) => !s.ticking && i < |s.ifaces|
    case Status(i) => !s.ticking && i < |s.ifaces|
    case BeginTick => !s.ticking
    case Fire => s.ticking && s.due == Some(s.now)
    case EndTick => s.ticking && s.due != Some(s.now)
  }

  function Step(s: State, e: Event): State
    requires Enabled(s, e)
  {
    match e
    case Address(i, v6, a, left) => OnAddress(s, i, v6, a, left)
    case Status(i) => OnStatus(s, i)
    case BeginTick => s.(now := s.now + 1, ticking := true)
    case Fire => Round(s)
    case EndTick => s.(ticking := false)
  }

  // ---------- the balance ----------

  /** prev is set exactly if the address differs from the one the window began with, and then is that one. */
  predicate Balanced(f: Family) {
    f.prev == if f.cur == f.start then None else Some(f.start)
  }

  /** iface_locators_new sets the flag, so until the first round it reads the other way round. */
  predicate StatusBalanced(x: Iface) {
    x.statusChanged <==> (x.first != (x.up != x.startUp))
  }

  ghost predicate Good(s: State) {
    && (forall i :: 0 <= i < |s.ifaces| ==>
          Balanced(s.ifaces[i].v4) && Balanced(s.ifaces[i].v6) && StatusBalanced(s.ifaces[i]))
    && (s.changed.Some? ==> s.due == Some(s.changed.value + SMR_TIMEOUT))
    && (s.due.Some? ==> if s.ticking then s.now <= s.due.value else s.now < s.due.value)
  }

  lemma NewAddressBalanced(f: Family, a: Address)
    requires Balanced(f) && f.cur != Some(a)
    ensures Balanced(NewAddress(f, a))
  {}

  lemma StepGood(s: State, e: Event)
    requires Good(s) && Enabled(s, e)
    ensures Good(Step(s, e))
  {
    match e
    case Address(i, v6, a, _) =>
      var f := if v6 then s.ifaces[i].v6 else s.ifaces[i].v4;
      if f.cur != Some(a) { NewAddressBalanced(f, a); }
    case _ =>
  }

  predicate Started(s: State) {
    && s.now == 0 && !s.ticking && s.changed.None? && s.due == Some(1)
    && (forall i :: 0 <= i < |s.ifaces| ==>
          && s.ifaces[i].v4 == Settled(s.ifaces[i].v4) && s.ifaces[i].v6 == Settled(s.ifaces[i].v6)
          && s.ifaces[i].statusChanged && s.ifaces[i].first && s.ifaces[i].startUp == s.ifaces[i].up)
  }

  predicate RunOf(s: State, es: seq<Event>, s': State)
    decreases |es|
  {
    if es == [] then s' == s else Enabled(s, es[0]) && RunOf(Step(s, es[0]), es[1..], s')
  }

  lemma {:induction false} RunGood(s: State, es: seq<Event>, s': State)
    requires Good(s) && RunOf(s, es, s')
    ensures Good(s')
    decreases |es|
  {
    if es != [] {
      StepGood(s, es[0]);
      RunGood(Step(s, es[0]), es[1..], s');
    }
  }

  ghost predicate Reachable(s: State) {
    exists start, es :: Started(start) && RunOf(start, es, s)
  }

  /**
    Whatever events came in: the previous address is remembered exactly while the address is not
    the one of the start of the window, and the round is due five ticks after the latest event.
   */
  lemma NetChange(s: State, i: nat, v6: bool)
    requires Reachable(s) && i < |s.ifaces|
    ensures var f := if v6 then s.ifaces[i].v6 else s.ifaces[i].v4;
            && (f.prev.Some? <==> f.cur != f.start) && (f.prev.Some? ==> f.prev.value == f.start)
    ensures s.ifaces[i].statusChanged <==> (s.ifaces[i].first != (s.ifaces[i].up != s.ifaces[i].startUp))
    ensures s.changed.Some? ==> s.due == Some(s.changed.value + 5)
    ensures s.due.Some? && !s.ticking ==> s.now < s.due.value
  {
    var start, es :| Started(start) && RunOf(start, es, s);
    RunGood(start, es, s);
  }

  // ---------- the selection ----------

  predicate HasEntry(locs: seq<Locator>, entryOf: map<Locator, Entry>, e: Entry) {
    exists k :: 0 <= k < |locs| && locs[k] in entryOf && entryOf[locs[k]] == e
  }

  /** An entry has a locator on a changed family of the interface, or on the interface if its status changed. */
  predicate Touches(x: Iface, entryOf: map<Locator, Entry>, e: Entry) {
    || ((x.statusChanged || x.v4.prev.Some?) && HasEntry(x.v4.locs, entryOf, e))
    || ((x.statusChanged || x.v6.prev.Some?) && HasEntry(x.v6.locs, entryOf, e))
  }

  /** After the first round, an entry is selected exactly for a locator whose address or status differs on balance. */
  lemma SelectedIffNetChange(s: State, i: nat, entryOf: map<Locator, Entry>, e: Entry)
    requires Reachable(s) && i < |s.ifaces| && !s.ifaces[i].first
    ensures var x := s.ifaces[i];
            Touches(x, entryOf, e) <==>
              || ((x.up != x.startUp || x.v4.cur != x.v4.start) && HasEntry(x.v4.locs, entryOf, e))
              || ((x.up != x.startUp || x.v6.cur != x.v6.start) && HasEntry(x.v6.locs, entryOf, e))
  {
    NetChange(s, i, false);
    NetChange(s, i, true);
  }

  /** The scan of one list of locators: entries not yet selected are added, in front. */
  method Scan(locs: seq<Locator>, entryOf: map<Locator, Entry>, chosen: seq<Entry>) returns (r: seq<Entry>)
    requires NoRepeats(chosen)
    ensures NoRepeats(r)
    ensures forall e :: e in r <==> e in chosen || HasEntry(locs, entryOf, e)
  {
    r := chosen;
    for k := 0 to |locs|
      invariant NoRepeats(r)
      invariant forall e :: e in r <==> e in chosen || HasEntry(locs[..k], entryOf, e)
    {
      var x := locs[k];
      HasEntrySnoc(locs, entryOf, k);
      if x in entryOf && entryOf[x] !in r {
        NoRepeatsCons(entryOf[x], r);
        r := [entryOf[x]] + r;
      }
    }
    assert locs[..|locs|] == locs;
  }

  lemma HasEntrySnoc(locs: seq<Locator>, entryOf: map<Locator, Entry>, k: nat)
    requires k < |locs|
    ensures forall e :: HasEntry(locs[..k + 1], entryOf, e) <==>
                          HasEntry(locs[..k], entryOf, e) || (locs[k] in entryOf && entryOf[locs[k]] == e)
  {
    var a, b := locs[..k], locs[..k + 1];
    forall e: Entry
      ensures HasEntry(b, entryOf, e) <==> HasEntry(a, entryOf, e) || (locs[k] in entryOf && entryOf[locs[k]] == e)
    {
      if HasEntry(a, entryOf, e) {
        var j :| 0 <= j < |a| && a[j] in entryOf && entryOf[a[j]] == e;
        assert b[j] == a[j];
      }
      if locs[k] in entryOf && entryOf[locs[k]] == e { assert b[k] == locs[k]; }
      if HasEntry(b, entryOf, e) {
        var j :| 0 <= j < |b| && b[j] in entryOf && entryOf[b[j]] == e;
        if j < k { assert a[j] == b[j]; }
      }
    }
  }

  /** An entry touched by one of the first n interfaces. */
  ghost predicate Picked(xs: seq<Iface>, n: nat, entryOf: map<Locator, Entry>, e: Entry)
    requires n <= |xs|
  {
    exists j :: 0 <= j < n && Touches(xs[j], entryOf, e)
  }

  ghost predicate Within(locs: Option<seq<Locator>>, entryOf: map<Locator, Entry>, chosen: seq<Entry>) {
    locs.Some? ==> forall e :: HasEntry(locs.value, entryOf, e) ==> e in chosen
  }

  ghost predicate InSlot(locs: Option<seq<Locator>>, entryOf: map<Locator, Entry>, e: Entry) {
    locs.Some? && HasEntry(locs.value, entryOf, e)
  }

  method ScanBoth(locators: array<Option<seq<Locator>>>, entryOf: map<Locator, Entry>, chosen: seq<Entry>)
      returns (r: seq<Entry>)
    requires locators.Length == 2 && NoRepeats(chosen)
    ensures NoRepeats(r)
    ensures forall e :: e in r <==> e in chosen || InSlot(locators[0], entryOf, e) || InSlot(locators[1], entryOf, e)
  {
    hide HasEntry;
    r := chosen;
    for ctr := 0 to 2
      invariant NoRepeats(r)
      invariant forall e :: e in r <==> (e in chosen || (ctr > 0 && InSlot(locators[0], entryOf, e))
                                         || (ctr > 1 && InSlot(locators[1], entryOf, e)))
    {
      if locators[ctr].Some? { r := Scan(locators[ctr].value, entryOf, r); }
    }
  }

  class Router {
    const entryOf: map<Locator, Entry>
    const attached: seq<seq<Entry>>         // by interface: the entries with a locator on it
    var maps: Maps
    var ifaces: seq<Iface>
    var now: nat
    var ticking: bool
    var due: Option<nat>
    ghost var changed: Option<nat>

    ghost function Model(): State
      reads this
    {
      State(ifaces, now, ticking, due, changed)
    }

    constructor (entryOf: map<Locator, Entry>, attached: seq<seq<Entry>>, maps: Maps, ifaces: seq<Iface>)
      ensures this.entryOf == entryOf && this.attached == attached && this.maps == maps
      ensures Model() == State(ifaces, 0, false, Some(1), None)
    {
      this.entryOf, this.attached, this.maps, this.ifaces := entryOf, attached, maps, ifaces;
      now, ticking, due, changed := 0, false, Some(1), None;
    }

    /** program_smr */
    method ProgramSmr(time: nat)
      modifies this`due
      ensures due == Some(now + WheelSpec.FiringDelay(time, ticking))
    {
      due := Some(now + WheelSpec.FiringDelay(time, ticking));
    }

    /** One locator of the interface: given the address where it stands, dropped as a duplicate, or activated */
    method InformLocator(l: Locator, a: Mappings.Addr) returns (kept: bool)
      modifies this`maps
      ensures maps == Informing(old(maps), entryOf, l, a) && kept == !IsDuplicate(old(maps), entryOf, l, a)
    {
      hide Unlisted, Overwritten, Mappings.AddTo, MappingStore.Dropped, MappingStore.FirstId, Mappings.Lookup;
      if l !in entryOf || entryOf[l] !in maps { return true; }
      var e := entryOf[l];
      var gs := maps[e];
      if !MappingStore.IsInactive(gs, l) {
        maps := maps[e := Overwritten(gs, l, a)];
      } else if Mappings.Lookup(gs, a).Some? {
        maps := maps[e := Unlisted(gs, l)];
        return false;
      } else {
        var j := MappingStore.FirstId(gs[0], l);
        maps := maps[e := Mappings.AddTo(MappingStore.Dropped(gs, j), gs[0][j].(addr := a))];
      }
      return true;
    }

    /** The loop of xtr_if_event over the locators of one family */
    method InformLocators(locs: seq<Locator>, a: Mappings.Addr) returns (left: seq<Locator>)
      modifies this`maps
      ensures maps == InformingAll(old(maps), entryOf, locs, a)
      ensures left == Remaining(old(maps), entryOf, locs, a)
    {
      hide Informing, IsDuplicate;
      left := [];
      for k := 0 to |locs|
        invariant InformingAll(maps, entryOf, locs[k..], a) == InformingAll(old(maps), entryOf, locs, a)
        invariant left + Remaining(maps, entryOf, locs[k..], a) == Remaining(old(maps), entryOf, locs, a)
      {
        assert locs[k..][0] == locs[k] && locs[k..][1..] == locs[k + 1..];
        var kept := InformLocator(locs[k], a);
        if kept { left := left + [locs[k]]; }
      }
    }

    /** The loop that sorts the mappings of an interface */
    method SortMappings(entries: seq<Entry>, a: Mappings.Addr)
      requires NoRepeats(entries)
      modifies this`maps
      ensures maps == SortedAll(old(maps), entries, a)
    {
      hide MappingStore.Sorted;
      for k := 0 to |entries|
        invariant maps.Keys == old(maps).Keys
        invariant forall e :: e in maps ==>
                    maps[e] == if e in entries[..k] then MappingStore.Sorted(old(maps)[e], a) else old(maps)[e]
      {
        var e := entries[k];
        assert entries[..k + 1] == entries[..k] + [e];
        assert e !in entries[..k];
        if e in maps { maps := maps[e := MappingStore.Sorted(maps[e], a)]; }
      }
      assert entries[..|entries|] == entries;
      ghost var sorted := SortedAll(old(maps), entries, a);
      assert forall e :: e in maps ==> maps[e] == sorted[e];
      assert maps == sorted;
    }

    /** xtr_if_event with a new address, given the address the interface had */
    method AddressEvent(i: nat, v6: bool, new_: Address)
      requires i < |ifaces| && i < |attached| && NoRepeats(attached[i])
      modifies this
      ensures var f := if v6 then old(ifaces)[i].v6 else old(ifaces)[i].v4;
              var a := Mappings.Ip(v6, new_);
              && Model() == OnAddress(old(Model()), i, v6, new_, Remaining(old(maps), entryOf, f.locs, a))
              && maps == if f.cur == Some(new_) then old(maps) else AfterAll(old(maps), entryOf, f.locs, attached[i], a)
    {
      hide InformingAll, Remaining, MappingStore.Sorted;
      var x := ifaces[i];
      var f := if v6 then x.v6 else x.v4;
      var old_ := f.cur;
      if old_ == Some(new_) { return; }
      var left := InformLocators(f.locs, Mappings.Ip(v6, new_));
      f := f.(cur := Some(new_), locs := left);
      if f.prev.Some? {
        if f.prev.value == Some(new_) { f := f.(prev := None); }
      } else if old_.Some? {
        f := f.(prev := Some(old_));
      } else {
        f := f.(prev := Some(None));
      }
      SortMappings(attached[i], Mappings.Ip(v6, new_));
      ifaces := ifaces[i := if v6 then x.(v6 := f) else x.(v4 := f)];
      changed := Some(now);
      ProgramSmr(SMR_TIMEOUT);
    }

    /** The loop of xtr_if_event that gives the locators of one family the status of the interface */
    method StateLocators(locs: seq<Locator>, up: bool)
      modifies this`maps
      ensures maps == StatingAll(old(maps), entryOf, locs, up)
    {
      hide StateSet;
      for k := 0 to |locs|
        invariant StatingAll(maps, entryOf, locs[k..], up) == StatingAll(old(maps), entryOf, locs, up)
      {
        var l := locs[k];
        assert locs[k..][0] == l && locs[k..][1..] == locs[k + 1..];
        if l in entryOf && entryOf[l] in maps {
          maps := maps[entryOf[l] := StateSet(maps[entryOf[l]], l, up)];
        }
      }
    }

    /** xtr_if_event with a new status */
    method StatusEvent(i: nat)
      requires i < |ifaces|
      modifies this
      ensures var x := old(ifaces)[i];
              && Model() == OnStatus(old(Model()), i)
              && maps == AfterStatus(old(maps), entryOf, x.v4.locs, x.v6.locs, !x.up)
    {
      hide StatingAll;
      var x := ifaces[i];
      StateLocators(x.v4.locs, !x.up);
      StateLocators(x.v6.locs, !x.up);
      if x.statusChanged { x := x.(statusChanged := false); } else { x := x.(statusChanged := true); }
      ifaces := ifaces[i := x.(up := !x.up)];
      changed := Some(now);
      ProgramSmr(SMR_TIMEOUT);
    }

    /**
      get_map_local_entry_to_smr. The two slots for the lists to scan keep what an earlier interface
      left in them; that adds nothing, so the result is exactly the entries touched, each once.
     */
    method EntriesToSmr() returns (chosen: seq<Entry>)
      modifies this`ifaces
      ensures ifaces == ResetAll(old(ifaces))
      ensures NoRepeats(chosen)
      ensures forall e :: e in chosen <==> Picked(old(ifaces), |old(ifaces)|, entryOf, e)
    {
      hide HasEntry;
      chosen := [];
      var locators := new Option<seq<Locator>>[2](_ => None);
      ghost var xs := ifaces;
      for i := 0 to |ifaces|
        invariant |ifaces| == |xs|
        invariant forall j :: 0 <= j < |xs| ==> ifaces[j] == if j < i then Reset(xs[j]) else xs[j]
        invariant NoRepeats(chosen)
        invariant forall e :: e in chosen <==> Picked(xs, i, entryOf, e)
        invariant Within(locators[0], entryOf, chosen) && Within(locators[1], entryOf, chosen)
      {
        var x := ifaces[i];
        if x.statusChanged {
          locators[0], locators[1] := Some(x.v4.locs), Some(x.v6.locs);
        } else {
          if x.v4.prev.Some? { locators[0] := Some(x.v4.locs); }
          if x.v6.prev.Some? { locators[1] := Some(x.v6.locs); }
        }
        ifaces := ifaces[i := Reset(x)];
        chosen := ScanBoth(locators, entryOf, chosen);
        PickedNext(xs, i, entryOf);
      }
    }

    /** send_all_smr_cb, as far as the interfaces are concerned */
    method SmrRound() returns (chosen: seq<Entry>)
      requires due == Some(now)
      modifies this
      ensures Model() == Round(old(Model())) && NoRepeats(chosen) && maps == old(maps)
      ensures forall e :: e in chosen <==> Picked(old(ifaces), |old(ifaces)|, entryOf, e)
    {
      due, changed := None, None;
      chosen := EntriesToSmr();
    }
  }

  lemma PickedNext(xs: seq<Iface>, i: nat, entryOf: map<Locator, Entry>)
    requires i < |xs|
    ensures forall e :: Picked(xs, i + 1, entryOf, e) <==> Picked(xs, i, entryOf, e) || Touches(xs[i], entryOf, e)
  {}
}
