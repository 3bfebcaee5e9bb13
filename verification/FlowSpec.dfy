/**
  The table of flows (lispd/lib/ttable.c) as one sequence in order of recency, the most recently
  used flow first, and what holds of it over every run. Times are seconds of the monotonic clock.
 */
module FlowSpec {
  import opened Options
  import opened Seqs

  const MAX_SIZE := 10000
  const OLD_ENTRIES := 1000
  const TIMEOUT := 3.0
  const NEGATIVE_TIMEOUT := 0.1

  /** What pkt_tuple_cmp compares of a packet tuple. */
  datatype Tuple = Tuple(src: int, dst: int, srcPort: int, dstPort: int)

  /** ttable_node_t; used is history: when the flow was inserted or last found. */
  datatype Node = Node(tpl: Tuple, value: int, temporal: bool, ts: real, used: real)

  predicate Distinct(s: seq<Node>) {
    forall i, j :: 0 <= i < j < |s| ==> s[i].tpl != s[j].tpl
  }

  predicate Present(s: seq<Node>, t: Tuple) {
    exists i :: 0 <= i < |s| && s[i].tpl == t
  }

  /** The position of a flow. */
  function Index(s: seq<Node>, t: Tuple): (k: nat)
    ensures k <= |s|
    ensures k < |s| ==> s[k].tpl == t
    ensures forall i :: 0 <= i < k ==> s[i].tpl != t
  {
    if s == [] || s[0].tpl == t then 0 else 1 + Index(s[1..], t)
  }

  predicate Expired(n: Node, now: real) {
    now - n.ts > TIMEOUT
  }

  function Limit(n: Node): real {
    if n.temporal then NEGATIVE_TIMEOUT else TIMEOUT
  }

  /** The flows that are not expired, in their order. */
  function Unexpired(s: seq<Node>, now: real): (r: seq<Node>)
    ensures |r| <= |s|
  {
    if s == [] then []
    else (if Expired(s[0], now) then [] else [s[0]]) + Unexpired(s[1..], now)
  }

  /** Making room: expired flows go, and if they are too few, the least recently used after them. */
  function MakeRoom(s: seq<Node>, now: real): seq<Node> {
    if |s| < MAX_SIZE then s
    else
      var u := Unexpired(s, now);
      var removed := |s| - |u|;
      if removed < OLD_ENTRIES then u[..|u| - (OLD_ENTRIES - removed)] else u
  }

  /** ttable_insert */
  function Insert(s: seq<Node>, t: Tuple, value: int, temporal: bool, now: real): seq<Node> {
    [Node(t, value, temporal, now, now)] + MakeRoom(s, now)
  }

  /** ttable_remove */
  function Remove(s: seq<Node>, t: Tuple): seq<Node> {
    var k := Index(s, t);
    if k == |s| then s else Drop(s, k)
  }

  /** ttable_lookup */
  function Lookup(s: seq<Node>, t: Tuple, now: real): (r: (seq<Node>, Option<int>)) {
    var k := Index(s, t);
    if k == |s| then (s, None)
    else if now - s[k].ts > Limit(s[k]) then (Drop(s, k), None)
    else ([s[k].(used := now)] + Drop(s, k), Some(s[k].value))
  }

  /** The flows without those of the given tuples. */
  function Less(s: seq<Node>, gone: set<Tuple>): (r: seq<Node>)
    ensures |r| <= |s|
  {
    if s == [] then []
    else (if s[0].tpl in gone then [] else [s[0]]) + Less(s[1..], gone)
  }

  lemma {:induction false} LessNone(s: seq<Node>)
    ensures Less(s, {}) == s
  {
    if s != [] { LessNone(s[1..]); }
  }

  lemma {:induction false} LessAbsent(s: seq<Node>, t: Tuple)
    requires forall i :: 0 <= i < |s| ==> s[i].tpl != t
    ensures Less(s, {t}) == s
  {
    if s != [] { LessAbsent(s[1..], t); }
  }

  lemma {:induction false} DropIsLess(s: seq<Node>, k: nat)
    requires Distinct(s) && k < |s|
    ensures Drop(s, k) == Less(s, {s[k].tpl})
  {
    if k == 0 {
      LessAbsent(s[1..], s[0].tpl);
      assert Drop(s, 0) == s[1..];
    } else {
      DropIsLess(s[1..], k - 1);
      assert Drop(s, k) == [s[0]] + Drop(s[1..], k - 1);
    }
  }

  // ---------- making room ----------

  lemma {:induction false} UnexpiredMember(s: seq<Node>, now: real, n: Node)
    ensures n in Unexpired(s, now) <==> n in s && !Expired(n, now)
  {
    if s != [] { UnexpiredMember(s[1..], now, n); }
  }

  /** Every element of r stands in s, in the same order, at the positions given. */
  ghost predicate Sub(r: seq<Node>, s: seq<Node>, at: seq<nat>) {
    && |at| == |r|
    && (forall i :: 0 <= i < |r| ==> at[i] < |s| && r[i] == s[at[i]])
    && (forall i, j :: 0 <= i < j < |r| ==> at[i] < at[j])
  }

  /** The positions of the flows that are not expired. */
  function Kept(s: seq<Node>, now: real): seq<nat> {
    if s == [] then []
    else
      var rest := Shift(Kept(s[1..], now));
      if Expired(s[0], now) then rest else [0] + rest
  }

  function Shift(at: seq<nat>): (r: seq<nat>)
    ensures |r| == |at| && forall i :: 0 <= i < |at| ==> r[i] == at[i] + 1
  {
    seq(|at|, i requires 0 <= i < |at| => at[i] + 1)
  }

  lemma SubShift(r: seq<Node>, s: seq<Node>, at: seq<nat>)
    requires s != [] && Sub(r, s[1..], at)
    ensures Sub(r, s, Shift(at))
  {}

  lemma SubCons(r: seq<Node>, s: seq<Node>, at: seq<nat>)
    requires s != [] && Sub(r, s[1..], at)
    ensures Sub([s[0]] + r, s, [0] + Shift(at))
  {
    var r', at' := [s[0]] + r, [0] + Shift(at);
    assert forall i :: 0 < i < |r'| ==> r'[i] == r[i - 1] && at'[i] == at[i - 1] + 1;
  }

  lemma {:induction false} UnexpiredSub(s: seq<Node>, now: real)
    ensures Sub(Unexpired(s, now), s, Kept(s, now))
  {
    hide Sub;
    if s == [] {
      assert Sub([], [], []) by { SubNothing(); }
    } else {
      var r, at := Unexpired(s[1..], now), Kept(s[1..], now);
      UnexpiredSub(s[1..], now);
      SubShift(r, s, at);
      SubCons(r, s, at);
      assert [] + r == r;
    }
  }

  lemma SubNothing()
    ensures Sub([], [], [])
  {}

  /** The flows are in order of their last use. */
  predicate ByUse(s: seq<Node>) {
    forall i, j :: 0 <= i < j < |s| ==> s[i].used >= s[j].used
  }

  /** How many flows were inserted more than three seconds ago. */
  function Overdue(s: seq<Node>, now: real): nat {
    if s == [] then 0 else (if now - s[0].ts > 3.0 then 1 else 0) + Overdue(s[1..], now)
  }

  lemma {:induction false} OverdueGo(s: seq<Node>, now: real)
    ensures |Unexpired(s, now)| == |s| - Overdue(s, now)
  {
    if s != [] { OverdueGo(s[1..], now); }
  }

  /**
    A table of ten thousand flows loses those inserted more than three seconds ago, or a thousand if
    they are fewer; what stays was inserted later. A smaller table loses nothing.
   */
  lemma RoomMade(s: seq<Node>, now: real)
    ensures |s| < 10000 ==> MakeRoom(s, now) == s
    ensures |s| >= 10000 ==>
              |MakeRoom(s, now)| == |s| - if Overdue(s, now) < 1000 then 1000 else Overdue(s, now)
    ensures |s| >= 10000 ==> forall n :: n in MakeRoom(s, now) ==> n in s && now - n.ts <= 3.0
    ensures |s| <= 10000 ==> |MakeRoom(s, now)| < 10000
  {
    hide Unexpired, Overdue;
    OverdueGo(s, now);
    forall n | n in MakeRoom(s, now) && |s| >= 10000
      ensures n in s && now - n.ts <= 3.0
    {
      UnexpiredMember(s, now, n);
    }
  }

  /**
    Of what an eviction removes, a flow that is not expired was used no later than any flow that
    stays, and it goes only if the expired flows were fewer than a thousand.
   */
  lemma VictimsAreOlder(s: seq<Node>, now: real, victim: Node, survivor: Node)
    requires ByUse(s) && victim in s && victim !in MakeRoom(s, now) && now - victim.ts <= 3.0
    requires survivor in MakeRoom(s, now)
    ensures survivor in s && now - survivor.ts <= 3.0
    ensures victim.used <= survivor.used
    ensures Overdue(s, now) < 1000
  {
    hide Unexpired, Kept, Sub, Overdue;
    var u, m := Unexpired(s, now), MakeRoom(s, now);
    OverdueGo(s, now);
    UnexpiredMember(s, now, victim);
    assert |s| >= MAX_SIZE;
    assert m == u[..|m|];
    assert survivor in u;
    UnexpiredMember(s, now, survivor);
    UnexpiredSub(s, now);
    OlderOutside(u, s, Kept(s, now), |m|, victim, survivor);
  }

  lemma OlderOutside(u: seq<Node>, s: seq<Node>, at: seq<nat>, n: nat, victim: Node, survivor: Node)
    requires Sub(u, s, at) && ByUse(s) && n <= |u|
    requires victim in u && victim !in u[..n] && survivor in u[..n]
    ensures victim.used <= survivor.used
  {
    var j :| 0 <= j < |u| && u[j] == victim;
    var i :| 0 <= i < n && u[..n][i] == survivor;
    assert forall k :: 0 <= k < n ==> u[k] == u[..n][k] && u[..n][k] in u[..n];
    assert u[i] == survivor && i < j;
  }

  // ---------- runs ----------

  /** The table, the clock, and as history the last insertion for each tuple. */
  datatype Table = Table(s: seq<Node>, now: real, last: map<Tuple, Node>)

  datatype Event = Add(t: Tuple, v: int, temporal: bool) | Find(t: Tuple) | Delete(t: Tuple) | Wait(d: real)

  /** A flow is added only when a lookup has not found it. */
  predicate Enabled(x: Table, e: Event) {
    match e
    case Add(t, _, _) => !Present(x.s, t)
    case Wait(d) => d >= 0.0
    case _ => true
  }

  function Step(x: Table, e: Event): Table
    requires Enabled(x, e)
  {
    match e
    case Add(t, v, temporal) =>
      x.(s := Insert(x.s, t, v, temporal, x.now), last := x.last[t := Node(t, v, temporal, x.now, x.now)])
    case Find(t) => x.(s := Lookup(x.s, t, x.now).0)
    case Delete(t) => x.(s := Remove(x.s, t))
    case Wait(d) => x.(now := x.now + d)
  }

  /** A stored flow is the last one inserted for its tuple, and was used between then and now. */
  predicate NodeOk(n: Node, last: map<Tuple, Node>, now: real) {
    && n.tpl in last && last[n.tpl].(used := n.used) == n && n.ts <= n.used <= now
  }

  ghost predicate Good(x: Table) {
    && Distinct(x.s) && ByUse(x.s) && |x.s| <= MAX_SIZE
    && (forall i :: 0 <= i < |x.s| ==> NodeOk(x.s[i], x.last, x.now))
  }

  lemma SubGood(r: seq<Node>, s: seq<Node>, at: seq<nat>)
    requires Sub(r, s, at)
    ensures Distinct(s) ==> Distinct(r)
    ensures ByUse(s) ==> ByUse(r)
  {}

  lemma DropSub(s: seq<Node>, k: nat)
    requires k < |s|
    ensures Sub(Drop(s, k), s, Others(|s|, k))
  {}

  /** All positions but one. */
  function Others(n: nat, k: nat): seq<nat>
    requires k < n
  {
    seq(n - 1, i requires 0 <= i => if i < k then i else i + 1)
  }

  lemma RoomSub(s: seq<Node>, now: real) returns (at: seq<nat>)
    ensures Sub(MakeRoom(s, now), s, at)
  {
    if |s| >= MAX_SIZE {
      UnexpiredSub(s, now);
      at := Kept(s, now)[..|MakeRoom(s, now)|];
    } else {
      at := seq(|s|, i requires 0 <= i => i);
    }
  }

  lemma StepGood(x: Table, e: Event)
    requires Good(x) && Enabled(x, e)
    ensures Good(Step(x, e))
  {
    match e
    case Add(t, v, temporal) => AddGood(x, t, v, temporal);
    case Find(t) =>
      var k := Index(x.s, t);
      if k < |x.s| { FindGood(x, k); }
    case Delete(t) =>
      var k := Index(x.s, t);
      if k < |x.s| {
        DropSub(x.s, k);
        SubGood(Drop(x.s, k), x.s, Others(|x.s|, k));
      }
    case Wait(d) =>
  }

  lemma AddGood(x: Table, t: Tuple, v: int, temporal: bool)
    requires Good(x) && !Present(x.s, t)
    ensures Good(Step(x, Add(t, v, temporal)))
  {
    hide MakeRoom, Sub, Distinct, ByUse;
    var m := MakeRoom(x.s, x.now);
    var at := RoomSub(x.s, x.now);
    SubGood(m, x.s, at);
    RoomMade(x.s, x.now);
    var n := Node(t, v, temporal, x.now, x.now);
    forall i | 0 <= i < |m|
      ensures m[i].tpl != t && NodeOk(m[i], x.last[t := n], x.now)
    {
      RoomAt(m, x.s, at, i);
    }
    FrontGood(n, m, x.last[t := n], x.now);
  }

  lemma RoomAt(m: seq<Node>, s: seq<Node>, at: seq<nat>, i: nat)
    requires Sub(m, s, at) && i < |m|
    ensures at[i] < |s| && m[i] == s[at[i]]
  {}

  lemma FrontGood(n: Node, m: seq<Node>, last: map<Tuple, Node>, now: real)
    requires Distinct(m) && ByUse(m) && |m| < MAX_SIZE
    requires forall i :: 0 <= i < |m| ==> m[i].tpl != n.tpl && NodeOk(m[i], last, now)
    requires NodeOk(n, last, now) && n.used == now
    ensures Good(Table([n] + m, now, last))
  {}

  lemma FindGood(x: Table, k: nat)
    requires Good(x) && k < |x.s|
    ensures Good(x.(s := Drop(x.s, k))) && Good(x.(s := [x.s[k].(used := x.now)] + Drop(x.s, k)))
  {
    hide Sub, ByUse;
    var r := Drop(x.s, k);
    DropSub(x.s, k);
    SubGood(r, x.s, Others(|x.s|, k));
    forall i | 0 <= i < |r|
      ensures r[i].tpl != x.s[k].tpl && NodeOk(r[i], x.last, x.now)
    {
      assert r[i] == x.s[if i < k then i else i + 1];
    }
    FrontGood(x.s[k].(used := x.now), r, x.last, x.now);
  }

  predicate RunOf(x: Table, es: seq<Event>, y: Table)
    decreases |es|
  {
    if es == [] then y == x else Enabled(x, es[0]) && RunOf(Step(x, es[0]), es[1..], y)
  }

  ghost predicate Reachable(x: Table) {
    exists now, es :: RunOf(Table([], now, map[]), es, x)
  }

  lemma {:induction false} RunGood(x: Table, es: seq<Event>, y: Table)
    requires Good(x) && RunOf(x, es, y)
    ensures Good(y)
    decreases |es|
  {
    hide Good, Step;
    if es != [] {
      StepGood(x, es[0]);
      RunGood(Step(x, es[0]), es[1..], y);
    }
  }

  /** How long the last insertion of a tuple is good for: three seconds, or a tenth of one if it was temporal. */
  ghost predicate InTime(x: Table, t: Tuple)
    requires t in x.last
  {
    x.now - x.last[t].ts <= if x.last[t].temporal then 0.1 else 3.0
  }

  /**
    Over every run: the table never exceeds ten thousand flows, and they are in order of use. A
    lookup answers if and only if the flow is there and in time, and then with the value last
    inserted; the flow is first afterwards. A flow that is not in time is gone. Every other flow is
    there as before, in the same order.
   */
  lemma LookupLaw(x: Table, t: Tuple)
    requires Reachable(x)
    ensures |x.s| <= 10000 && Distinct(x.s) && ByUse(x.s) && (Present(x.s, t) ==> t in x.last)
    ensures var (after, found) := Lookup(x.s, t, x.now);
            && (found.Some? <==> Present(x.s, t) && InTime(x, t))
            && (found.Some? ==> found.value == x.last[t].value && after != [] && after[0] == x.last[t].(used := x.now))
            && (found.None? ==> !Present(after, t))
            && Less(after, {t}) == Less(x.s, {t})
  {
    hide Less, Drop;
    var now, es :| RunOf(Table([], now, map[]), es, x);
    RunGood(Table([], now, map[]), es, x);
    var k := Index(x.s, t);
    if k < |x.s| {
      assert NodeOk(x.s[k], x.last, x.now);
      DropIsLess(x.s, k);
      LessAgain(x.s, t);
      LessFront(x.s[k].(used := x.now), Less(x.s, {t}), t);
    } else {
      assert !Present(x.s, t);
    }
  }

  /** A removed flow is gone, and every other is there as before, in the same order. */
  lemma RemoveLaw(s: seq<Node>, t: Tuple)
    requires Distinct(s)
    ensures !Present(Remove(s, t), t) && Remove(s, t) == Less(s, {t})
  {
    hide Less, Drop;
    var k := Index(s, t);
    LessAgain(s, t);
    if k < |s| { DropIsLess(s, k); } else { LessAbsent(s, t); }
  }

  lemma {:induction false} LessAgain(s: seq<Node>, t: Tuple)
    ensures !Present(Less(s, {t}), t) && Less(Less(s, {t}), {t}) == Less(s, {t})
  {
    if s != [] {
      LessAgain(s[1..], t);
      if s[0].tpl != t {
        assert Less(s, {t}) == [s[0]] + Less(s[1..], {t});
        LessKeeps(s[0], Less(s[1..], {t}), t);
      } else {
        assert Less(s, {t}) == Less(s[1..], {t});
      }
    }
  }

  lemma LessKeeps(n: Node, s: seq<Node>, t: Tuple)
    requires n.tpl != t && !Present(s, t)
    ensures !Present([n] + s, t) && Less([n] + s, {t}) == [n] + Less(s, {t})
  {
    assert ([n] + s)[1..] == s;
  }

  lemma LessFront(n: Node, s: seq<Node>, t: Tuple)
    requires n.tpl == t
    ensures Less([n] + s, {t}) == Less(s, {t})
  {
    assert ([n] + s)[1..] == s;
  }
}
