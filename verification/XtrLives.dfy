/**
  The life of a solicited request over every run: when its requests go out,
  which nonces are outstanding, and how it ends, whatever else happens meanwhile.
 */
module XtrLives {
  import opened RegistrySpec
  import opened XtrSpec
  import opened XtrInvariant
  import opened XtrRuns
  import opened XtrTheorems
  import opened XtrTimers
  import XtrMisses

  // ---------- the firings of one timer ----------

  /** One firing: the tick, and the nonce drawn for it. */
  datatype Firing = Firing(tick: nat, n: Nonce)

  /** The firings of a timer in a run, in order. */
  ghost function Fires(x: Xtr, es: seq<Event>, y: Xtr, t: Timer): seq<Firing>
    requires Good(x) && RunOf(x, es, y)
    decreases |es|
  {
    if es == [] then []
    else
      StepGood(x, es[0]);
      (if es[0].Fire? && es[0].t == t then [Firing(x.now, es[0].n)] else []) + Fires(Step(x, es[0]), es[1..], y, t)
  }

  function NoncesIn(fs: seq<Firing>): (ns: seq<Nonce>)
    ensures |ns| == |fs| && forall i :: 0 <= i < |fs| ==> ns[i] == fs[i].n
  {
    seq(|fs|, i requires 0 <= i < |fs| => fs[i].n)
  }

  /** Whenever the timer has something to send, the send succeeds. */
  ghost predicate AllSent(es: seq<Event>, t: Timer) {
    forall i :: 0 <= i < |es| && es[i].Fire? && es[i].t == t ==> es[i].sent
  }

  /** A reply of either kind bears one of the nonces. */
  ghost predicate Answers(e: Event, ns: seq<Nonce>) {
    (e.Reply? || e.Probed?) && e.n in ns
  }

  ghost predicate AnsweredIn(es: seq<Event>, ns: seq<Nonce>) {
    exists i :: 0 <= i < |es| && Answers(es[i], ns)
  }

  // ---------- a solicited request ----------

  /** A solicited request for entry m that began at s and has sent with these nonces. */
  ghost predicate Asking(x: Xtr, t: Timer, m: Obj, s: nat, ns: seq<Nonce>) {
    && IsKind(x.reg.timers, t, SmrRetry) && x.reg.timers[t].obj == m && Anchored(x, m) && m != x.cfg.petrs
    && HasList(x.reg, t) && NoncesOf(x.reg, t) == ns && 1 <= |ns| <= 3
    && t in x.reg.alarms && x.reg.alarms[t] == s + 3 * |ns| && s + 3 * (|ns| - 1) <= x.now
  }

  /** The timer is gone and none of the nonces is outstanding. */
  ghost predicate Over(x: Xtr, t: Timer, ns: seq<Nonce>) {
    t !in x.reg.timers && t < x.heap && forall n :: n in ns ==> n in x.used && n !in x.reg.table
  }

  lemma OverStep(x: Xtr, e: Event, t: Timer, ns: seq<Nonce>)
    requires Good(x) && Enabled(x, e) && Over(x, t, ns)
    ensures Over(Step(x, e), t, ns)
  {
    hide Good, Enabled, Step, Lost, EntKeep, Inv;
    StepKeep(x, e);
    StepNoRevival(x, e);
    EntFacts(x, Step(x, e));
  }

  lemma GoneStep(x: Xtr, e: Event, m: Obj)
    requires Good(x) && Enabled(x, e) && m < x.heap && m !in x.entries
    ensures m < Step(x, e).heap && m !in Step(x, e).entries
  {
    hide Good, Enabled, Step, RegKeep, Lost, EntKeep, Inv;
    StepKeep(x, e);
    EntFacts(x, Step(x, e));
  }

  /** A timer that is gone takes its nonces with it. */
  lemma TimerGone(x: Xtr, y: Xtr, e: Event, t: Timer)
    requires Good(x) && Enabled(x, e) && y == Step(x, e) && HasList(x.reg, t) && t !in y.reg.timers
    ensures Over(y, t, NoncesOf(x.reg, t))
  {
    hide XtrMisses.MissesOk, Enabled, Step, Lost, EntKeep, Allocated, TimersOk, CacheOk, BoundsOk, ClockOk, IndexOk;
    StepGood(x, e);
    StepKeep(x, e);
    EntFacts(x, y);
    TimerFacts(x);
    TimerFacts(y);
    var l := x.reg.timers[t].nonces.value;
    forall n | n in NoncesOf(x.reg, t)
      ensures n in y.used && n !in y.reg.table
    {
      assert l in x.reg.lists && x.reg.lists[l].timer == t;
      assert n in x.reg.lists[l].nonces && n in x.reg.table && x.reg.table[n] == l;
      assert n in x.used;
      OwnerLives(y.reg);
      assert n in y.reg.table ==> SameOwner(x.reg, y.reg, n);
    }
  }

  lemma OwnerLives(r: Registry)
    requires TableOk(r.table, r.lists) && ListsOk(r.lists, r.timers)
    ensures forall n :: n in r.table ==> r.table[n] in r.lists && r.lists[r.table[n]].timer in r.timers
  {
    forall n | n in r.table
      ensures r.table[n] in r.lists && r.lists[r.table[n]].timer in r.timers
    {
      var l := r.table[n];
      assert l in r.lists;
    }
  }

  /** A step that is not about the timer: it goes on as it is, or its entry is gone. */
  lemma AskingOther(x: Xtr, e: Event, t: Timer, m: Obj, s: nat, ns: seq<Nonce>)
    requires Good(x) && Enabled(x, e) && Asking(x, t, m, s, ns) && (BaseFacts(x); t !in Touched(x, e))
    ensures var y := Step(x, e);
            if t in y.reg.timers then Asking(y, t, m, s, ns) else Over(y, t, ns) && m !in y.entries
  {
    hide Base, XtrMisses.MissesOk, Enabled, Step, Inv, Touched, Reprogrammed;
    var y := Step(x, e);
    BaseFacts(x);
    StepGood(x, e);
    StepKeep(x, e);
    if t !in y.reg.timers {
      TimerGone(x, y, e, t);
    } else {
      BaseFacts(y);
    }
  }

  lemma TouchedBy(x: Xtr, e: Event, t: Timer)
    requires Good(x) && Enabled(x, e) && (BaseFacts(x); t in Touched(x, e)) && !(e.Fire? && e.t == t)
    ensures (e.Reply? || e.Probed?) && HasList(x.reg, t) && e.n in NoncesOf(x.reg, t)
  {
    hide Allocated, TimersOk, CacheOk, BoundsOk, ClockOk, IndexOk, XtrMisses.MissesOk, SafeReply, OwnEntry;
    BaseFacts(x);
    var l := x.reg.table[e.n];
    assert l in x.reg.lists && e.n in x.reg.lists[l].nonces && x.reg.lists[l].timer == t;
  }

  /** A reply that bears a nonce of a solicited request changes nothing, or the request is over. */
  lemma AskingAnswered(x: Xtr, e: Event, t: Timer, m: Obj, s: nat, ns: seq<Nonce>)
    requires Good(x) && Enabled(x, e) && Asking(x, t, m, s, ns)
    requires (BaseFacts(x); t in Touched(x, e)) && !(e.Fire? && e.t == t)
    ensures var y := Step(x, e); if t in y.reg.timers then Asking(y, t, m, s, ns) else Over(y, t, ns)
    ensures Answers(e, ns)
  {
    hide Base, XtrMisses.MissesOk, Inv, SafeReply, OwnEntry, AddMappings, UpdateMapping, StopOne, ProbeAnswered, Asking, Over;
    BaseFacts(x);
    TouchedBy(x, e, t);
    AskingFacts(x, t, m, s, ns);
    var y := Step(x, e);
    if e.Reply? { ReplyStops(x, e, t); } else { ProbedStops(x, e, t); }
    if t !in y.reg.timers { TimerGone(x, y, e, t); }
  }

  lemma AskingFacts(x: Xtr, t: Timer, m: Obj, s: nat, ns: seq<Nonce>)
    requires Asking(x, t, m, s, ns)
    ensures HasList(x.reg, t) && NoncesOf(x.reg, t) == ns && x.reg.timers[t].obj == m && Anchored(x, m)
    ensures IsKind(x.reg.timers, t, SmrRetry)
  {}

  /** A Map-Reply with a nonce of a timer of an anchored entry changes nothing, or the timer is gone. */
  lemma ReplyStops(x: Xtr, e: Event, t: Timer)
    requires Good(x) && e.Reply? && Enabled(x, e) && t in x.reg.timers && Anchored(x, x.reg.timers[t].obj)
    requires e.n in x.reg.table && (BaseFacts(x); TimerOfNonce(x.reg, e.n) == t)
    ensures var y := Step(x, e); y == x || t !in y.reg.timers
  {
    hide Base, XtrMisses.MissesOk, Inv, SafeReply, AddMappings, UpdateMapping, Keep;
    BaseFacts(x);
    var m := x.reg.timers[t].obj;
    if !x.entries[m].active {
      RemovedTimer(x, m, t);
      var y := RemoveEntry(x, m, Answered(x.now));
      RemoveEntryBase(x, m, Answered(x.now));
      KeepAddAll(y, e.recs);
      StaysGone(x, y, AddMappings(y, e.recs), t);
    }
  }

  lemma RemovedTimer(x: Xtr, m: Obj, t: Timer)
    requires Base(x) && Anchored(x, m) && t in x.reg.timers && x.reg.timers[t].obj == m && !x.entries[m].active
    ensures var y := RemoveEntry(x, m, Answered(x.now)); t !in y.reg.timers && y.heap == x.heap && t < x.heap
  {
    hide Allocated, BoundsOk, ClockOk, TableOk, ListsOk;
    TimerFacts(x);
  }

  lemma StaysGone(x: Xtr, y: Xtr, z: Xtr, t: Timer)
    requires t !in y.reg.timers && t < y.heap && Keep(y, z, {}, {})
    ensures t !in z.reg.timers
  {
    hide Lost, EntKeep;
  }

  lemma ProbedStops(x: Xtr, e: Event, t: Timer)
    requires Good(x) && e.Probed? && Enabled(x, e) && e.n in x.reg.table && (BaseFacts(x); TimerOfNonce(x.reg, e.n) == t)
    ensures var y := Step(x, e); y == x || t !in y.reg.timers
  {
    hide Base, XtrMisses.MissesOk, Inv, OwnEntry, ProbeAnswered;
  }

  /** The request's own firing: another request while fewer than three are out, else the entry is gone. */
  lemma AskingFires(x: Xtr, t: Timer, n: Nonce, m: Obj, s: nat, ns: seq<Nonce>)
    requires Good(x) && Enabled(x, Fire(t, n, true)) && Asking(x, t, m, s, ns)
    ensures x.now == s + 3 * |ns|
    ensures var y := Step(x, Fire(t, n, true));
            && (|ns| < 3 ==> Asking(y, t, m, s, ns + [n]))
            && (|ns| == 3 ==> Over(y, t, ns) && m !in y.entries && m < y.heap)
  {
    hide Base, XtrMisses.MissesOk, AddNonce, Inv, TimersOf, Over;
    FireReady(x, t);
    BaseFacts(x);
    TimerFacts(x);
    var e := Fire(t, n, true);
    var z, y := Expired(x, t), Step(x, e);
    StepGood(x, e);
    if |ns| < 3 {
      SentNonce(z, t, n);
      NoncesOnly(z.reg, n, z.reg.timers[t].nonces.value);
    } else {
      OwnTimerGone(z, m, t);
      TimerGone(x, y, e, t);
    }
  }

  lemma SentNonce(x: Xtr, t: Timer, n: Nonce)
    requires HasList(x.reg, t)
    ensures HasList(IssueNonce(x, t, n).reg, t) && NoncesOf(IssueNonce(x, t, n).reg, t) == NoncesOf(x.reg, t) + [n]
  {}

  lemma OwnTimerGone(x: Xtr, m: Obj, t: Timer)
    requires Base(x) && Anchored(x, m) && m != x.cfg.petrs && t in x.reg.timers && x.reg.timers[t].obj == m
    ensures forall ending :: var y := RemoveEntry(x, m, ending); t !in y.reg.timers && m !in y.entries && y.heap == x.heap
  {
    hide Allocated, TimersOk, CacheOk, BoundsOk, ClockOk, TableOk, ListsOk;
  }

  /** Where a solicited request stands that has sent with these nonces. */
  ghost predicate AskedTo(x: Xtr, t: Timer, m: Obj, s: nat, ns: seq<Nonce>, answered: bool) {
    1 <= |ns| <= 3
    && if t in x.reg.timers then Asking(x, t, m, s, ns)
       else Over(x, t, ns) && (answered || (m !in x.entries && m < x.heap))
  }

  /** The firing after the third request sends none. */
  function FirstThree(ns: seq<Nonce>): seq<Nonce> {
    if |ns| <= 3 then ns else ns[..3]
  }

  lemma AskedStep(x: Xtr, e: Event, t: Timer, m: Obj, s: nat, ns: seq<Nonce>, a: bool) returns (ns': seq<Nonce>)
    requires Good(x) && Enabled(x, e) && AskedTo(x, t, m, s, ns, a) && (e.Fire? && e.t == t ==> e.sent)
    ensures AskedTo(Step(x, e), t, m, s, ns', a || Answers(e, ns))
    ensures if e.Fire? && e.t == t
            then x.now == s + 3 * |ns| && ns' == FirstThree(ns + [e.n]) && (|ns| == 3 ==> t !in Step(x, e).reg.timers)
                 && t in x.reg.timers && (|ns| == 3 ==> m !in Step(x, e).entries && m < Step(x, e).heap)
            else ns' == ns
    ensures t !in x.reg.timers ==> t !in Step(x, e).reg.timers
  {
    hide Base, XtrMisses.MissesOk, Step, Inv, Touched, Asking, Over, SafeReply, OwnEntry;
    BaseFacts(x);
    ns' := ns;
    if t in x.reg.timers {
      if e.Fire? && e.t == t {
        AskingFires(x, t, e.n, m, s, ns);
        ns' := FirstThree(ns + [e.n]);
        if |ns| < 3 { AskingHere(Step(x, e), t, m, s, ns'); } else { assert ns' == ns; OverHere(Step(x, e), t, ns); }
      } else if t in Touched(x, e) {
        AskingAnswered(x, e, t, m, s, ns);
      } else {
        AskingOther(x, e, t, m, s, ns);
        AskingFacts(x, t, m, s, ns);
        if m !in Step(x, e).entries { EntryBelow(x, e, m, t); }
      }
    } else {
      NotFiring(x, e, t);
      OverStep(x, e, t, ns);
      OverHere(Step(x, e), t, ns);
      if m !in x.entries && m < x.heap { GoneStep(x, e, m); }
    }
  }

  lemma AskingHere(x: Xtr, t: Timer, m: Obj, s: nat, ns: seq<Nonce>)
    requires Asking(x, t, m, s, ns)
    ensures t in x.reg.timers && 1 <= |ns| <= 3
  {}

  lemma OverHere(x: Xtr, t: Timer, ns: seq<Nonce>)
    requires Over(x, t, ns)
    ensures t !in x.reg.timers
  {}

  lemma NotFiring(x: Xtr, e: Event, t: Timer)
    requires Good(x) && Enabled(x, e) && t !in x.reg.timers
    ensures !(e.Fire? && e.t == t)
  {
    hide XtrMisses.MissesOk, Allocated, TimersOk, CacheOk, BoundsOk, ClockOk, TableOk, ListsOk, IndexOk, SafeReply, OwnEntry;
  }

  lemma EntryBelow(x: Xtr, e: Event, m: Obj, t: Timer)
    requires Good(x) && Enabled(x, e) && t in x.reg.timers && x.reg.timers[t].obj == m
    ensures m < x.heap <= Step(x, e).heap
  {
    hide Base, XtrMisses.MissesOk, Enabled, Step, RegKeep, Lost, EntKeep, Inv, TableOk, ListsOk;
    TimerFacts(x);
    StepKeep(x, e);
    EntFacts(x, Step(x, e));
  }

  /** What a run does to a solicited request. */
  lemma {:induction false} AskedRun(x: Xtr, es: seq<Event>, y: Xtr, t: Timer, m: Obj, s: nat, ns: seq<Nonce>, a: bool)
    requires Good(x) && RunOf(x, es, y) && AllSent(es, t) && AskedTo(x, t, m, s, ns, a)
    ensures var fs := Fires(x, es, y, t);
            && (t !in x.reg.timers ==> fs == [] && t !in y.reg.timers)
            && |ns| + |fs| <= 4 && (forall i :: 0 <= i < |fs| ==> fs[i].tick == s + 3 * (|ns| + i))
            && var sent := FirstThree(ns + NoncesIn(fs));
               && AskedTo(y, t, m, s, sent, a || AnsweredIn(es, sent))
               && (|ns| + |fs| == 4 ==> t !in y.reg.timers && m !in y.entries)
    decreases |es|
  {
    hide Good, Enabled, Step, Asking, Over, FirstThree;
    if es == [] {
      NothingSent(ns);
    } else {
      var e := es[0];
      StepGood(x, e);
      assert e.Fire? && e.t == t ==> e.sent;
      var ns' := AskedStep(x, e, t, m, s, ns, a);
      var x' := Step(x, e);
      assert AllSent(es[1..], t) by { SentLater(es, t); }
      AskedRun(x', es[1..], y, t, m, s, ns', a || Answers(e, ns));
      var fs, gs := Fires(x', es[1..], y, t), Fires(x, es, y, t);
      if e.Fire? && e.t == t {
        FiredFirst(fs, Firing(x.now, e.n), ns, s);
        if |ns| == 3 { EntryStays(x', es[1..], y, m); }
      } else {
        assert gs == fs;
      }
      var sent := FirstThree(ns + NoncesIn(gs));
      assert sent == FirstThree(ns' + NoncesIn(fs));
      SentBefore(ns, NoncesIn(gs));
      AnsweredLater(es, ns, sent);
      AskedMore(y, t, m, s, sent, a || Answers(e, ns) || AnsweredIn(es[1..], sent), a || AnsweredIn(es, sent));
    }
  }

  lemma NothingSent(ns: seq<Nonce>)
    requires |ns| <= 3
    ensures FirstThree(ns + NoncesIn([])) == ns
  {
    assert ns + NoncesIn([]) == ns;
  }

  lemma SentBefore(ns: seq<Nonce>, more: seq<Nonce>)
    requires |ns| <= 3
    ensures forall n :: n in ns ==> n in FirstThree(ns + more)
  {
    forall n | n in ns
      ensures n in FirstThree(ns + more)
    {
      var i :| 0 <= i < |ns| && ns[i] == n;
      assert FirstThree(ns + more)[i] == n;
    }
  }

  lemma SentLater(es: seq<Event>, t: Timer)
    requires es != [] && AllSent(es, t)
    ensures AllSent(es[1..], t)
  {
    assert forall i :: 0 <= i < |es[1..]| ==> es[1..][i] == es[i + 1];
  }

  /** A firing at its time in front of the others. */
  lemma FiredFirst(fs: seq<Firing>, f: Firing, ns: seq<Nonce>, s: nat)
    requires 1 <= |ns| <= 3 && f.tick == s + 3 * |ns| && (|ns| == 3 ==> fs == [])
    requires |FirstThree(ns + [f.n])| + |fs| <= 4
    requires forall i :: 0 <= i < |fs| ==> fs[i].tick == s + 3 * (|FirstThree(ns + [f.n])| + i)
    ensures |FirstThree(ns + [f.n])| == if |ns| < 3 then |ns| + 1 else 3
    ensures var gs := [f] + fs;
            && |ns| + |gs| <= 4 && (forall i :: 0 <= i < |gs| ==> gs[i].tick == s + 3 * (|ns| + i))
            && FirstThree(ns + NoncesIn(gs)) == FirstThree(FirstThree(ns + [f.n]) + NoncesIn(fs))
  {
    var gs := [f] + fs;
    assert NoncesIn(gs) == [f.n] + NoncesIn(fs);
    assert ns + NoncesIn(gs) == (ns + [f.n]) + NoncesIn(fs);
    if |ns| == 3 {
      assert NoncesIn(fs) == [];
      assert ns + [f.n] + [] == ns + [f.n];
      assert FirstThree(ns + [f.n]) + [] == FirstThree(ns + [f.n]);
    }
  }

  lemma AnsweredLater(es: seq<Event>, ns: seq<Nonce>, sent: seq<Nonce>)
    requires es != [] && forall n :: n in ns ==> n in sent
    ensures Answers(es[0], ns) || AnsweredIn(es[1..], sent) ==> AnsweredIn(es, sent)
  {
    if AnsweredIn(es[1..], sent) {
      var i :| 0 <= i < |es[1..]| && Answers(es[1..][i], sent);
      assert Answers(es[i + 1], sent);
    }
    if Answers(es[0], ns) { assert Answers(es[0], sent); }
  }

  lemma AskedMore(x: Xtr, t: Timer, m: Obj, s: nat, ns: seq<Nonce>, a: bool, b: bool)
    requires AskedTo(x, t, m, s, ns, a) && (a ==> b)
    ensures AskedTo(x, t, m, s, ns, b)
  {}

  lemma {:induction false} EntryStays(x: Xtr, es: seq<Event>, y: Xtr, m: Obj)
    requires Good(x) && RunOf(x, es, y) && m !in x.entries && m < x.heap
    ensures m !in y.entries && m < y.heap
    decreases |es|
  {
    hide Good, Enabled, Step;
    if es != [] {
      StepGood(x, es[0]);
      GoneStep(x, es[0], m);
      EntryStays(Step(x, es[0]), es[1..], y, m);
    }
  }

  /** Of a request begun at s, the tick and nonce of each Map-Request sent: the first at once, then one at each of two firings. */
  function Requests(s: nat, n: Nonce, fs: seq<Firing>): seq<Firing> {
    [Firing(s, n)] + if |fs| <= 2 then fs else fs[..2]
  }

  /**
    An entry is solicited at tick s, and the sends of that request succeed. Over every continuation:
    its Map-Requests go out at s, s + 3 and s + 6 and at no other tick, so while it waits there have
    been exactly as many as that makes by now, and exactly their nonces are outstanding. When it no
    longer waits none of them is. It waits until a reply bears one of its nonces or the entry is
    gone; and at s + 9 at the latest the entry is gone, unless a reply has come.
   */
  lemma SolicitedSchedule(x: Xtr, m: Obj, n: Nonce, es: seq<Event>, y: Xtr)
    requires Good(x) && Enabled(x, Solicited(m, n, true))
    requires (StepGood(x, Solicited(m, n, true)); RunOf(Step(x, Solicited(m, n, true)), es, y)) && AllSent(es, x.heap)
    ensures var s, t := x.now, x.heap;
            var sends := (StepGood(x, Solicited(m, n, true)); Requests(s, n, Fires(Step(x, Solicited(m, n, true)), es, y, t)));
            && |sends| <= 3 && (forall i :: 0 <= i < |sends| ==> sends[i].tick == s + 3 * i)
            && (t in y.reg.timers ==>
                  && HasList(y.reg, t) && NoncesOf(y.reg, t) == NoncesIn(sends) && y.reg.timers[t].obj == m && m in y.entries
                  && (!y.ticking ==> |sends| == 1 + (y.now - s) / 3 && y.now < s + 9))
            && (t !in y.reg.timers ==>
                  && (forall k :: k in NoncesIn(sends) ==> k !in y.reg.table)
                  && (m !in y.entries || AnsweredIn(es, NoncesIn(sends))))
            && (m !in y.entries ==> forall u :: u in y.reg.timers ==> y.reg.timers[u].obj != m)
            && (!y.ticking && y.now >= s + 9 ==> t !in y.reg.timers)
  {
    hide Base, XtrMisses.MissesOk, RunOf, Step, Over;
    var e := Solicited(m, n, true);
    StepGood(x, e);
    var z, t := Step(x, e), x.heap;
    SolicitedBegins(x, m, n);
    AskedRun(z, es, y, t, m, x.now, [n], false);
    RunGood(z, es, y);
    var fs := Fires(z, es, y, t);
    var sends := Requests(x.now, n, fs);
    assert NoncesIn(sends) == FirstThree([n] + NoncesIn(fs)) by { RequestNonces(x.now, n, fs); }
    if t in y.reg.timers {
      if !y.ticking { NotLate(y, t); }
    } else {
      OverNonces(y, t, NoncesIn(sends));
    }
    BaseFacts(y);
  }

  lemma RequestNonces(s: nat, n: Nonce, fs: seq<Firing>)
    requires |fs| <= 3
    ensures NoncesIn(Requests(s, n, fs)) == FirstThree([n] + NoncesIn(fs))
  {}

  lemma NotLate(x: Xtr, t: Timer)
    requires Good(x) && t in x.reg.alarms && !x.ticking
    ensures x.now < x.reg.alarms[t]
  {
    hide XtrMisses.MissesOk, Inv, Allocated, TimersOk, CacheOk, BoundsOk;
  }

  lemma OverNonces(x: Xtr, t: Timer, ns: seq<Nonce>)
    requires Over(x, t, ns)
    ensures forall k :: k in ns ==> k !in x.reg.table
  {}

  lemma SolicitedBegins(x: Xtr, m: Obj, n: Nonce)
    requires Good(x) && Enabled(x, Solicited(m, n, true))
    ensures AskedTo(Step(x, Solicited(m, n, true)), x.heap, m, x.now, [n], false)
  {
    hide XtrMisses.MissesOk, Inv, Allocated, TimersOk, BoundsOk, ClockOk;
    BaseFacts(x);
    var y := NewTimer(x, SmrRetry, m, 0);
    assert [] + [n] == [n];
  }
}
