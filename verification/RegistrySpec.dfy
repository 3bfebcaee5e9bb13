/**
  The registry of soft state: which timers exist, the nonces each outstanding request has used,
  the table from nonces to requests and the index from objects to their timers
  (lispd/lib/nonces_table.c, pointers_table.c, timers_utils.c). The wheel appears here as what
  the rest of the daemon sees of it: the tick on which each running timer fires.
 */
module RegistrySpec {
  import opened Options
  import opened Seqs

  type Timer = int
  type Obj = int
  type ListId = int
  type Nonce = int

  datatype Kind = Expiry | MapRegister | RequestRetry | Probing | Smr | SmrRetry | SiteExpiry

  /** obj is the object named by the callback argument, part the locator or server it names too. */
  datatype TimerRec = TimerRec(kind: Kind, obj: Obj, part: int, nonces: Option<ListId>)

  datatype NonceList = NonceList(nonces: seq<Nonce>, timer: Timer)

  datatype Registry = Registry(
    timers: map<Timer, TimerRec>,
    lists: map<ListId, NonceList>,
    table: map<Nonce, ListId>,
    index: map<Obj, seq<Timer>>,
    alarms: map<Timer, nat>
  )

  /** Every key of the nonce table leads to a list that contains it, and every listed nonce is a key. */
  ghost predicate TableOk(table: map<Nonce, ListId>, lists: map<ListId, NonceList>) {
    && (forall n :: n in table ==> table[n] in lists && n in lists[table[n]].nonces)
    && (forall l, n :: l in lists && n in lists[l].nonces ==> n in table && table[n] == l)
    && (forall l :: l in lists ==> NoRepeats(lists[l].nonces))
  }

  /** A list and its timer point at each other. */
  ghost predicate ListsOk(lists: map<ListId, NonceList>, timers: map<Timer, TimerRec>) {
    && (forall l :: l in lists ==> lists[l].timer in timers && timers[lists[l].timer].nonces == Some(l))
    && (forall t :: t in timers && timers[t].nonces.Some?
          ==> timers[t].nonces.value in lists && lists[timers[t].nonces.value].timer == t)
  }

  /** Every timer is listed exactly once, under the object of its callback argument. */
  ghost predicate IndexOk(index: map<Obj, seq<Timer>>, timers: map<Timer, TimerRec>) {
    && (forall t :: t in timers ==> timers[t].obj in index && t in index[timers[t].obj])
    && (forall o, t :: o in index && t in index[o] ==> t in timers && timers[t].obj == o)
    && (forall o :: o in index ==> NoRepeats(index[o]))
  }

  ghost predicate Inv(r: Registry) {
    && TableOk(r.table, r.lists)
    && ListsOk(r.lists, r.timers)
    && IndexOk(r.index, r.timers)
    && r.alarms.Keys <= r.timers.Keys
  }

  function Empty(): (r: Registry)
    ensures Inv(r)
  {
    Registry(map[], map[], map[], map[], map[])
  }

  function Listed(index: map<Obj, seq<Timer>>, o: Obj): seq<Timer> {
    if o in index then index[o] else []
  }

  function TimersOf(r: Registry, o: Obj): seq<Timer> {
    Listed(r.index, o)
  }

  /** lmtimer_create or lmtimer_with_nonce_new, and htable_ptrs_timers_add, which adds in front. */
  function Create(r: Registry, t: Timer, rec: TimerRec): Registry {
    r.(timers := r.timers[t := rec],
       lists := if rec.nonces.Some? then r.lists[rec.nonces.value := NonceList([], t)] else r.lists,
       index := r.index[rec.obj := [t] + TimersOf(r, rec.obj)])
  }

  ghost predicate Fresh(r: Registry, t: Timer, rec: TimerRec) {
    t !in r.timers && (rec.nonces.Some? ==> rec.nonces.value !in r.lists)
  }

  lemma CreateKeepsInv(r: Registry, t: Timer, rec: TimerRec)
    requires Inv(r) && Fresh(r, t, rec)
    ensures Inv(Create(r, t, rec))
  {
    CreateIndex(r.index, r.timers, t, rec);
    CreateLists(r.lists, r.timers, r.table, t, rec);
    hide TableOk, IndexOk, ListsOk;
  }

  lemma CreateLists(lists: map<ListId, NonceList>, timers: map<Timer, TimerRec>, table: map<Nonce, ListId>,
                    t: Timer, rec: TimerRec)
    requires TableOk(table, lists) && ListsOk(lists, timers)
    requires t !in timers && (rec.nonces.Some? ==> rec.nonces.value !in lists)
    ensures var lists' := if rec.nonces.Some? then lists[rec.nonces.value := NonceList([], t)] else lists;
            TableOk(table, lists') && ListsOk(lists', timers[t := rec])
  {}

  lemma CreateIndex(index: map<Obj, seq<Timer>>, timers: map<Timer, TimerRec>, t: Timer, rec: TimerRec)
    requires IndexOk(index, timers) && t !in timers
    ensures IndexOk(index[rec.obj := [t] + Listed(index, rec.obj)], timers[t := rec])
  {
    var ts := Listed(index, rec.obj);
    assert t !in ts;
    NoRepeatsCons(t, ts);
  }

  /** htable_nonces_insert: the list's comparison never yields 2, so the nonce goes last. */
  function AddNonce(r: Registry, n: Nonce, l: ListId): Registry
    requires l in r.lists
  {
    r.(lists := r.lists[l := r.lists[l].(nonces := r.lists[l].nonces + [n])],
       table := r.table[n := l])
  }

  lemma AddNonceKeepsInv(r: Registry, n: Nonce, l: ListId)
    requires Inv(r) && l in r.lists && n !in r.table
    ensures Inv(AddNonce(r, n, l))
  {
    var r' := AddNonce(r, n, l);
    assert TableOk(r'.table, r'.lists) by {
      assert n !in r.lists[l].nonces;
      hide IndexOk, ListsOk;
    }
    assert ListsOk(r'.lists, r'.timers) by { hide TableOk, IndexOk; }
    hide TableOk, IndexOk, ListsOk;
  }

  /** htable_nonces_reset_nonces_lst: the list is emptied and its nonces leave the table. */
  function Reset(r: Registry, l: ListId): Registry
    requires l in r.lists
  {
    r.(lists := r.lists[l := r.lists[l].(nonces := [])],
       table := map n | n in r.table && r.table[n] != l :: r.table[n])
  }

  lemma ResetKeepsInv(r: Registry, l: ListId)
    requires Inv(r) && l in r.lists
    ensures Inv(Reset(r, l))
  {
    var r' := Reset(r, l);
    assert TableOk(r'.table, r'.lists) by { hide IndexOk, ListsOk; }
    assert ListsOk(r'.lists, r'.timers) by { hide TableOk, IndexOk; }
    hide TableOk, IndexOk, ListsOk;
  }

  function Arm(r: Registry, t: Timer, due: nat): Registry {
    r.(alarms := r.alarms[t := due])
  }

  /** The wheel unlinks a timer before it calls the timer's callback. */
  function Disarm(r: Registry, t: Timer): Registry {
    r.(alarms := r.alarms - {t})
  }

  /** Issuing and forgetting nonces concerns neither timers nor alarms. */
  lemma NoncesOnly(r: Registry, n: Nonce, l: ListId)
    requires l in r.lists
    ensures var a := AddNonce(r, n, l); a.timers == r.timers && a.alarms == r.alarms
    ensures var b := Reset(r, l); b.timers == r.timers && b.alarms == r.alarms
  {}

  // ---------- stopping ----------

  /** Whether a list belongs to one of the given timers. */
  predicate Belongs(lists: map<ListId, NonceList>, l: ListId, ts: set<Timer>) {
    l in lists && lists[l].timer in ts
  }

  /**
    The registry without the given timers, in every structure but the index: the timers, their
    alarms, their nonce lists and the nonces of those lists are gone; everything else is as it was.
   */
  function Purge(r: Registry, ts: set<Timer>): Registry {
    r.(timers := r.timers - ts,
       alarms := r.alarms - ts,
       lists := map l | l in r.lists && !Belongs(r.lists, l, ts) :: r.lists[l],
       table := map n | n in r.table && !Belongs(r.lists, r.table[n], ts) :: r.table[n])
  }

  predicate IsKind(timers: map<Timer, TimerRec>, t: Timer, kind: Kind) {
    t in timers && timers[t].kind == kind
  }

  /** The timers of a list that are not of the given kind. */
  function Others(timers: map<Timer, TimerRec>, ts: seq<Timer>, kind: Kind): (r: seq<Timer>)
    ensures forall t :: t in r <==> t in ts && !IsKind(timers, t, kind)
    ensures NoRepeats(ts) ==> NoRepeats(r)
  {
    if ts == [] then []
    else
      assert ts == [ts[0]] + ts[1..];
      var rest := Others(timers, ts[1..], kind);
      if IsKind(timers, ts[0], kind) then rest else NoRepeatsCons(ts[0], rest); [ts[0]] + rest
  }

  /** The timers of a list that are of the given kind. */
  function Only(timers: map<Timer, TimerRec>, ts: seq<Timer>, kind: Kind): (r: seq<Timer>)
    ensures forall t :: t in r <==> t in ts && IsKind(timers, t, kind)
    ensures NoRepeats(ts) ==> NoRepeats(r)
  {
    if ts == [] then []
    else
      assert ts == [ts[0]] + ts[1..];
      var rest := Only(timers, ts[1..], kind);
      if !IsKind(timers, ts[0], kind) then rest else NoRepeatsCons(ts[0], rest); [ts[0]] + rest
  }

  /** stop_timer_from_obj */
  function StopOne(r: Registry, o: Obj, t: Timer): Registry {
    Purge(r, {t}).(index := if o in r.index then r.index[o := Remove(r.index[o], t)] else r.index)
  }

  /** stop_timers_from_obj */
  function StopAll(r: Registry, o: Obj): Registry {
    Purge(r, Elements(TimersOf(r, o))).(index := r.index - {o})
  }

  function OfKind(r: Registry, o: Obj, kind: Kind): set<Timer> {
    set t | t in r.timers && r.timers[t].obj == o && r.timers[t].kind == kind
  }

  /** stop_timers_of_type_from_obj: the object keeps the list of its other timers, even if empty. */
  function StopKind(r: Registry, o: Obj, kind: Kind): Registry {
    Purge(r, OfKind(r, o, kind)).(index :=
      if o in r.index then r.index[o := Others(r.timers, r.index[o], kind)] else r.index)
  }

  lemma PurgeTables(r: Registry, ts: set<Timer>)
    requires TableOk(r.table, r.lists) && ListsOk(r.lists, r.timers)
    ensures var r' := Purge(r, ts); TableOk(r'.table, r'.lists) && ListsOk(r'.lists, r'.timers)
  {
    var r' := Purge(r, ts);
    assert TableOk(r'.table, r'.lists) by { hide ListsOk; }
    assert ListsOk(r'.lists, r'.timers) by { hide TableOk; }
  }

  /**
    Stopping one timer keeps the registry consistent exactly if the caller names the object under
    which the timer is indexed; otherwise a freed timer stays in the index.
   */
  lemma StopOneKeepsInvIff(r: Registry, o: Obj, t: Timer)
    requires Inv(r) && t in r.timers
    ensures Inv(StopOne(r, o, t)) <==> r.timers[t].obj == o
  {
    hide TableOk, ListsOk, IndexOk, Remove, Belongs;
    PurgeTables(r, {t});
    StopOneIndexIff(r.index, r.timers, o, t);
  }

  lemma StopOneIndexIff(index: map<Obj, seq<Timer>>, timers: map<Timer, TimerRec>, o: Obj, t: Timer)
    requires IndexOk(index, timers) && t in timers
    ensures IndexOk(if o in index then index[o := Remove(index[o], t)] else index, timers - {t}) <==> timers[t].obj == o
  {
    hide Without;
    var index' := if o in index then index[o := Remove(index[o], t)] else index;
    if timers[t].obj != o { assert t in index'[timers[t].obj] && t !in timers - {t}; }
  }

  lemma StopAllKeepsInv(r: Registry, o: Obj)
    requires Inv(r)
    ensures Inv(StopAll(r, o))
  {
    PurgeTables(r, Elements(TimersOf(r, o)));
    StopAllIndex(r.index, r.timers, o);
    hide TableOk, ListsOk, IndexOk;
  }

  lemma StopKindIndex(index: map<Obj, seq<Timer>>, timers: map<Timer, TimerRec>, o: Obj, kind: Kind)
    requires IndexOk(index, timers)
    ensures IndexOk(if o in index then index[o := Others(timers, index[o], kind)] else index,
                    timers - set t | t in timers && timers[t].obj == o && timers[t].kind == kind)
  {}

  lemma StopAllIndex(index: map<Obj, seq<Timer>>, timers: map<Timer, TimerRec>, o: Obj)
    requires IndexOk(index, timers)
    ensures IndexOk(index - {o}, timers - Elements(Listed(index, o)))
  {
    var timers' := timers - Elements(Listed(index, o));
    forall p, t | p in index - {o} && t in index[p]
      ensures t in timers' && timers'[t].obj == p
    {
      assert t in timers && timers[t].obj == p;
      assert t !in Listed(index, o);
    }
  }

  lemma StopKindKeepsInv(r: Registry, o: Obj, kind: Kind)
    requires Inv(r)
    ensures Inv(StopKind(r, o, kind))
  {
    PurgeTables(r, OfKind(r, o, kind));
    StopKindIndex(r.index, r.timers, o, kind);
    hide TableOk, ListsOk, IndexOk, Others;
  }

  // ---------- exactness, stated of every timer and every nonce ----------

  /** The timer to which a nonce of the table belongs. */
  function TimerOfNonce(r: Registry, n: Nonce): (t: Timer)
    requires Inv(r) && n in r.table
    ensures t in r.timers && r.timers[t].nonces == Some(r.table[n]) && n in r.lists[r.table[n]].nonces
  {
    var l := r.table[n];
    assert l in r.lists && n in r.lists[l].nonces;
    r.lists[l].timer
  }

  /**
    Whatever is stopped, a nonce survives exactly if its timer does, and then still leads to the
    same list; and a surviving timer keeps its record, its alarm and its nonces.
   */
  lemma PurgeExact(r: Registry, ts: set<Timer>)
    requires Inv(r)
    ensures var r' := Purge(r, ts);
            && (forall n :: n in r.table ==> (n in r'.table <==> TimerOfNonce(r, n) !in ts))
            && (forall n :: n in r'.table ==> n in r.table && r'.table[n] == r.table[n])
            && (forall t :: t in r'.timers <==> t in r.timers && t !in ts)
            && (forall t :: t in r'.timers ==> r'.timers[t] == r.timers[t])
            && (forall t :: t in r'.alarms <==> t in r.alarms && t !in ts)
            && (forall l :: l in r'.lists <==> l in r.lists && r.lists[l].timer !in ts)
            && (forall l :: l in r'.lists ==> r'.lists[l] == r.lists[l])
  {}

  /** The timers stopped with an object are all its timers and no others. */
  lemma StopAllTargets(r: Registry, o: Obj, t: Timer)
    requires Inv(r) && t in r.timers
    ensures t in TimersOf(r, o) <==> r.timers[t].obj == o
  {}

  // ---------- without fresh nonces ----------

  /**
    If nonce_new repeated an outstanding nonce, stopping one request would take the other request's
    nonce out of the table: the reply to it is then refused although its list still holds it.
   */
  lemma RepeatedNonceExample(r: Registry, n: Nonce, l: ListId, k: ListId)
    requires Inv(r) && l in r.lists && k in r.lists && l != k && n in r.lists[l].nonces
    ensures !Inv(AddNonce(r, n, k))
    ensures var r' := AddNonce(r, n, k); n in r'.lists[l].nonces && r'.table[n] == k
  {
    var r' := AddNonce(r, n, k);
    assert l in r'.lists && n in r'.lists[l].nonces && r'.table[n] == k;
    hide ListsOk, IndexOk;
  }
}
