/**
  The loops over the tables in lispd/lib/nonces_table.c, pointers_table.c and timers_utils.c, each
  proved to make exactly the change that the specification of the registry states outright.
 */
module RegistryTables {
  import opened Options
  import opened RegistrySpec
  import opened Seqs

  lemma PurgeMoreLists(r: Registry, a: set<Timer>, b: set<Timer>)
    ensures Purge(Purge(r, a), b).lists == Purge(r, a + b).lists
  {}

  lemma PurgeMoreTable(r: Registry, a: set<Timer>, b: set<Timer>)
    requires TableOk(r.table, r.lists)
    ensures Purge(Purge(r, a), b).table == Purge(r, a + b).table
  {
    var x, y := Purge(Purge(r, a), b), Purge(r, a + b);
    forall n | n in r.table
      ensures n in x.table <==> n in y.table
    {
      assert r.table[n] in r.lists;
    }
  }

  /** Purging is by set: in whatever order and portions the timers are stopped. */
  lemma PurgeMore(r: Registry, a: set<Timer>, b: set<Timer>)
    requires TableOk(r.table, r.lists)
    ensures Purge(Purge(r, a), b) == Purge(r, a + b)
  {
    PurgeMoreLists(r, a, b);
    PurgeMoreTable(r, a, b);
    hide TableOk, Belongs;
    assert r.timers - a - b == r.timers - (a + b) && r.alarms - a - b == r.alarms - (a + b);
  }

  lemma PurgeLeaves(r: Registry, ts: set<Timer>, t: Timer)
    requires t in r.timers && t !in ts
    ensures t in Purge(r, ts).timers
  {}

  /** What the stop functions do to one timer, step by step. */
  lemma PurgeOne(r: Registry, t: Timer)
    requires ListsOk(r.lists, r.timers) && TableOk(r.table, r.lists) && t in r.timers
    ensures r.timers[t].nonces.None? ==>
              Purge(r, {t}) == r.(timers := r.timers - {t}, alarms := r.alarms - {t})
    ensures r.timers[t].nonces.Some? ==>
              var l := r.timers[t].nonces.value;
              l in r.lists
              && Purge(r, {t}) == Registry(r.timers - {t}, Reset(r, l).lists - {l}, Reset(r, l).table,
                                           r.index, r.alarms - {t})
  {
    var p := Purge(r, {t});
    assert forall l :: Belongs(r.lists, l, {t}) <==> r.timers[t].nonces == Some(l);
    assert forall n :: n in r.table ==> r.table[n] in r.lists;
    hide ListsOk, TableOk;
    if r.timers[t].nonces.Some? {
      var l := r.timers[t].nonces.value;
      assert p.lists == Reset(r, l).lists - {l};
      assert p.table == Reset(r, l).table;
    } else {
      assert p.lists == r.lists;
      assert p.table == r.table;
    }
  }

  lemma PurgeNothing(r: Registry)
    ensures Purge(r, {}) == r
  {
    var x := Purge(r, {});
    assert forall n :: n in x.table <==> n in r.table;
    assert x.table == r.table;
    assert x.lists == r.lists;
    assert x.timers == r.timers && x.alarms == r.alarms;
  }

  /** The nonces a reset leaves in the table after working through a prefix of the list. */
  function TableLess(table: map<Nonce, ListId>, gone: seq<Nonce>): map<Nonce, ListId> {
    map n | n in table && n !in gone :: table[n]
  }

  /** glist_remove_obj on a list without comparison function: the first cell that holds the object */
  method RemoveFirst(s: seq<Timer>, t: Timer) returns (r: seq<Timer>)
    ensures r == Remove(s, t)
  {
    var i := 0;
    while i < |s| && s[i] != t
      invariant i <= |s| && t !in s[..i]
    {
      i := i + 1;
    }
    if i < |s| {
      FirstIndex(s, t, i);
      r := s[..i] + s[i + 1..];
    } else {
      assert s[..i] == s;
      r := s;
    }
  }

  /** The loop that moves the timers of one kind to another list, at its front */
  method Split(timers: map<Timer, TimerRec>, all: seq<Timer>, kind: Kind)
      returns (kept: seq<Timer>, taken: seq<Timer>)
    ensures kept == Others(timers, all, kind)
    ensures forall t :: t in taken <==> t in all && IsKind(timers, t, kind)
    ensures NoRepeats(all) ==> NoRepeats(taken)
  {
    kept, taken := [], [];
    for i := 0 to |all|
      invariant kept == Others(timers, all[..i], kind)
      invariant forall t :: t in taken <==> t in all[..i] && IsKind(timers, t, kind)
      invariant NoRepeats(all) ==> NoRepeats(taken)
    {
      var t := all[i];
      assert all[..i + 1] == all[..i] + [t];
      OthersSnoc(timers, all[..i], t, kind);
      if IsKind(timers, t, kind) {
        assert NoRepeats(all) ==> t !in all[..i];
        NoRepeatsCons(t, taken);
        taken := [t] + taken;
      } else {
        kept := kept + [t];
      }
    }
    assert all[..|all|] == all;
  }

  lemma {:induction false} OthersSnoc(timers: map<Timer, TimerRec>, s: seq<Timer>, t: Timer, kind: Kind)
    ensures Others(timers, s + [t], kind) == Others(timers, s, kind) + if IsKind(timers, t, kind) then [] else [t]
  {
    if s != [] {
      assert (s + [t])[1..] == s[1..] + [t];
      OthersSnoc(timers, s[1..], t, kind);
    } else {
      assert s + [t] == [t] && [t][1..] == [];
    }
  }

  /**
    The loop of htable_nonces_reset_nonces_lst: a nonce found in the table leaves both the list
    and the table, one not found there would stay in the list.
   */
  method ResetLoop(table: map<Nonce, ListId>, nonces: seq<Nonce>)
      returns (table': map<Nonce, ListId>, left: seq<Nonce>)
    requires NoRepeats(nonces) && forall n :: n in nonces ==> n in table
    ensures left == [] && table' == TableLess(table, nonces)
  {
    table', left := table, nonces;
    ghost var j := 0;
    var i := 0;
    while i < |left|
      invariant i == 0 && j <= |nonces| && left == nonces[j..]
      invariant table' == TableLess(table, nonces[..j])
      decreases |left| - i
    {
      var n := left[i];
      StillInTable(table, nonces, j);
      TableLessStep(table, nonces, j);
      if n in table' {
        left := left[..i] + left[i + 1..];
        table' := table' - {n};
        j := j + 1;
      } else {
        i := i + 1;
      }
    }
    assert nonces[..j] == nonces;
  }

  lemma StillInTable(table: map<Nonce, ListId>, nonces: seq<Nonce>, j: nat)
    requires NoRepeats(nonces) && j < |nonces| && forall n :: n in nonces ==> n in table
    ensures nonces[j] in TableLess(table, nonces[..j])
  {
    var n := nonces[j];
    assert n in nonces && n !in nonces[..j];
  }

  lemma TableLessStep(table: map<Nonce, ListId>, nonces: seq<Nonce>, j: nat)
    requires j < |nonces|
    ensures TableLess(table, nonces[..j + 1]) == TableLess(table, nonces[..j]) - {nonces[j]}
  {
    assert nonces[..j + 1] == nonces[..j] + [nonces[j]];
  }

  class Tables {
    var timers: map<Timer, TimerRec>
    var lists: map<ListId, NonceList>
    var table: map<Nonce, ListId>
    var index: map<Obj, seq<Timer>>
    var alarms: map<Timer, nat>

    constructor ()
      ensures State() == Empty()
    {
      timers, lists, table, index, alarms := map[], map[], map[], map[], map[];
    }

    function State(): Registry
      reads this
    {
      Registry(timers, lists, table, index, alarms)
    }

    ghost predicate Linked()
      reads this
    {
      ListsOk(lists, timers) && TableOk(table, lists)
    }

    /** htable_nonces_lookup */
    method Lookup(n: Nonce) returns (l: Option<ListId>)
      requires Inv(State())
      ensures l.Some? <==> exists k :: k in lists && n in lists[k].nonces
      ensures l.Some? ==> l.value in lists && n in lists[l.value].nonces && lists[l.value].timer in timers
    {
      l := if n in table then Some(table[n]) else None;
      if n in table {
        var k := table[n];
        assert k in lists && n in lists[k].nonces;
      }
      forall k | k in lists && n in lists[k].nonces
        ensures n in table
      {}
    }

    /** htable_nonces_insert */
    method Insert(n: Nonce, l: ListId)
      requires Inv(State()) && l in lists && n !in table
      modifies this
      ensures State() == AddNonce(old(State()), n, l) && Inv(State())
    {
      AddNonceKeepsInv(State(), n, l);
      lists := lists[l := lists[l].(nonces := lists[l].nonces + [n])];
      table := table[n := l];
    }

    /** lmtimer_create or lmtimer_with_nonce_new, then htable_ptrs_timers_add */
    method NewTimer(t: Timer, rec: TimerRec)
      requires Inv(State()) && Fresh(State(), t, rec)
      modifies this
      ensures State() == Create(old(State()), t, rec) && Inv(State())
    {
      hide Inv, Fresh;
      CreateKeepsInv(State(), t, rec);
      timers := timers[t := rec];
      if rec.nonces.Some? {
        lists := lists[rec.nonces.value := NonceList([], t)];
      }
      if rec.obj !in index {
        index := index[rec.obj := []];
      }
      index := index[rec.obj := [t] + index[rec.obj]];
    }

    /** lmtimer_start, as the tables see it */
    method StartTimer(t: Timer, due: nat)
      modifies this`alarms
      ensures State() == Arm(old(State()), t, due)
    {
      alarms := alarms[t := due];
    }

    /** htable_nonces_reset_nonces_lst */
    method ResetNonces(l: ListId)
      requires Linked() && l in lists
      modifies this`lists, this`table
      ensures State() == Reset(old(State()), l)
    {
      var left;
      table, left := ResetLoop(table, lists[l].nonces);
      lists := lists[l := lists[l].(nonces := left)];
      assert forall n :: n in old(table) ==> (n in old(lists)[l].nonces <==> old(table)[n] == l);
      assert table == Reset(old(State()), l).table;
    }

    /** lmtimer_stop with the release of the nonce list, as every stop function does it */
    method FreeTimer(t: Timer)
      requires Linked() && t in timers
      modifies this`timers, this`lists, this`table, this`alarms
      ensures State() == Purge(old(State()), {t}) && Linked()
    {
      ghost var before := State();
      PurgeTables(before, {t});
      PurgeOne(before, t);
      if timers[t].nonces.Some? {
        var l := timers[t].nonces.value;
        ResetNonces(l);
        hide ListsOk, TableOk, Purge, Reset;
        lists := lists - {l};
      }
      hide ListsOk, TableOk, Purge, Reset;
      timers, alarms := timers - {t}, alarms - {t};
    }

    /** htable_ptrs_timers_rm_timer */
    method RemoveFromIndex(o: Obj, t: Timer)
      modifies this`index
      ensures index == if o in old(index) then old(index)[o := Remove(old(index)[o], t)] else old(index)
    {
      if o in index {
        var rest := RemoveFirst(index[o], t);
        index := index[o := rest];
      }
    }

    /** stop_timer_from_obj, whatever object the caller names */
    method StopTimerFromObj(o: Obj, t: Timer)
      requires Linked() && t in timers
      modifies this
      ensures State() == StopOne(old(State()), o, t)
      ensures old(Inv(State())) ==> (Inv(State()) <==> old(timers[t].obj) == o)
    {
      if Inv(State()) { StopOneKeepsInvIff(State(), o, t); }
      hide Inv;
      RemoveFromIndex(o, t);
      FreeTimer(t);
    }

    /** Stops every timer of a list, none of them twice */
    method FreeTimers(ts: seq<Timer>)
      requires Linked() && NoRepeats(ts) && Elements(ts) <= timers.Keys
      modifies this`timers, this`lists, this`table, this`alarms
      ensures State() == Purge(old(State()), Elements(ts)) && Linked()
    {
      hide ListsOk, TableOk, Purge;
      ghost var before := State();
      PurgeNothing(before);
      assert Elements(ts[..0]) == {};
      for i := 0 to |ts|
        invariant Linked()
        invariant State() == Purge(before, Elements(ts[..i]))
      {
        assert ts[i] in Elements(ts);
        assert ts[i] !in ts[..i];
        PurgeLeaves(before, Elements(ts[..i]), ts[i]);
        FreeTimer(ts[i]);
        PurgeMore(before, Elements(ts[..i]), {ts[i]});
        assert ts[..i + 1] == ts[..i] + [ts[i]];
        assert Elements(ts[..i + 1]) == Elements(ts[..i]) + {ts[i]};
      }
      assert ts[..|ts|] == ts;
    }

    /** stop_timers_from_obj */
    method StopTimersFromObj(o: Obj) returns (found: bool)
      requires Inv(State())
      modifies this
      ensures found == (o in old(index))
      ensures State() == StopAll(old(State()), o) && Inv(State())
    {
      StopAllKeepsInv(State(), o);
      ghost var before := State();
      if o !in index {
        PurgeNothing(before);
        assert Elements(TimersOf(before, o)) == {};
        assert index - {o} == index;
        return false;
      }
      var ts := index[o];
      assert forall t :: t in Elements(ts) ==> t in index[o] && t in timers;
      index := index - {o};
      FreeTimers(ts);
      return true;
    }

    /** htable_ptrs_timers_rm_timers_of_type: takes the timers of one kind out of the object's list, if it has one */
    method TakeOfType(o: Obj, kind: Kind) returns (taken: seq<Timer>)
      modifies this`index
      ensures index == if o in old(index) then old(index)[o := Others(timers, old(index)[o], kind)] else old(index)
      ensures forall t :: t in taken <==> o in old(index) && t in old(index)[o] && IsKind(timers, t, kind)
      ensures (o in old(index) ==> NoRepeats(old(index)[o])) ==> NoRepeats(taken)
    {
      if o !in index { return []; }
      var kept;
      kept, taken := Split(timers, index[o], kind);
      index := index[o := kept];
    }

    /** htable_ptrs_timers_get_timers_of_type: nothing for an object that has no list */
    method TimersOfType(o: Obj, kind: Kind) returns (ts: Option<seq<Timer>>)
      requires Inv(State())
      ensures ts.Some? <==> o in index
      ensures ts.Some? ==> && NoRepeats(ts.value) && NoRepeats(Only(timers, index[o], kind))
                           && (forall t :: t in ts.value <==> t in Only(timers, index[o], kind))
                           && (forall t :: t in ts.value <==> t in timers && timers[t].obj == o && timers[t].kind == kind)
    {
      if o !in index { return None; }
      var kept, only := Split(timers, index[o], kind);
      ts := Some(only);
      hide TableOk, ListsOk;
    }

    /** stop_timers_of_type_from_obj */
    method StopTimersOfType(o: Obj, kind: Kind)
      requires Inv(State())
      modifies this
      ensures State() == StopKind(old(State()), o, kind) && Inv(State())
    {
      StopKindKeepsInv(State(), o, kind);
      ghost var before := State();
      var taken := TakeOfType(o, kind);
      forall t
        ensures t in taken <==> t in OfKind(before, o, kind)
      {
        if t in before.timers && before.timers[t].obj == o { assert t in before.index[o]; }
      }
      assert Elements(taken) == OfKind(before, o, kind);
      FreeTimers(taken);
    }
  }
}
