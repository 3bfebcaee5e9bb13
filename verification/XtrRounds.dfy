/**
  The life of a probe timer over every run: the rounds of probes, which nonces are outstanding, and
  how it ends, whatever else happens meanwhile.
 */
module XtrRounds {
  import opened RegistrySpec
  import opened XtrSpec
  import opened XtrInvariant
  import opened XtrRuns
  import opened XtrTheorems
  import opened XtrTimers
  import opened XtrLives
  import XtrMisses
  import XtrProbing
  import WheelSpec
  import Bits

  /** The number of probes in a round: one more than the retries. */
  function Probes(cfg: Config): nat {
    if cfg.probeRetries + 1 > 0 then cfg.probeRetries + 1 else 0
  }

  /** The ticks from a probe to the next firing, and from the end of a round to the next probe. */
  function Retry(cfg: Config): nat {
    WheelSpec.FiringDelay(cfg.probeRetryInterval, true)
  }

  function Pause(cfg: Config): nat {
    WheelSpec.FiringDelay(cfg.probeInterval, true)
  }

  /**
    The tick of firing i of a probe timer whose first is at first. A round is the probes, one retry
    interval apart, and the firing that finds the last one unanswered; the next round begins one
    probe interval later.
   */
  function FiringTick(cfg: Config, first: nat, i: nat): int {
    var l := Probes(cfg);
    first + (i / (l + 1)) * (l * Retry(cfg) + Pause(cfg)) + (i % (l + 1)) * Retry(cfg)
  }

  lemma NextFiring(cfg: Config, first: nat, i: nat)
    ensures var l := Probes(cfg);
            FiringTick(cfg, first, i + 1) ==
              FiringTick(cfg, first, i) + if i % (l + 1) < l then Retry(cfg) else Pause(cfg)
    ensures (i + 1) % (Probes(cfg) + 1) == if i % (Probes(cfg) + 1) < Probes(cfg) then i % (Probes(cfg) + 1) + 1 else 0
    ensures FiringTick(cfg, first, 0) == first && 0 % (Probes(cfg) + 1) == 0
  {
    var l := Probes(cfg);
    Places(i, l + 1);
    if i % (l + 1) < l {
      assert (i % (l + 1) + 1) * Retry(cfg) == (i % (l + 1)) * Retry(cfg) + Retry(cfg);
    } else {
      OneMore(i / (l + 1), l * Retry(cfg) + Pause(cfg));
    }
  }

  lemma OneMore(q: nat, w: nat)
    ensures (q + 1) * w == q * w + w
  {}

  lemma Places(i: nat, n: nat)
    requires n > 0
    ensures i % n < n - 1 ==> (i + 1) / n == i / n && (i + 1) % n == i % n + 1
    ensures i % n == n - 1 ==> (i + 1) / n == i / n + 1 && (i + 1) % n == 0
    ensures 0 / n == 0 && 0 % n == 0
  {
    var q, r := i / n, i % n;
    assert i == n * q + r;
    if r < n - 1 {
      Bits.DivUnique(i + 1, n, q, r + 1);
    } else {
      OneMore(q, n);
      assert n * (q + 1) == (q + 1) * n && n * q == q * n;
      Bits.DivUnique(i + 1, n, q + 1, 0);
    }
  }

  /** How many firings of its round, of l probes and a last firing, are before firing k. */
  function Phase(k: nat, l: nat): nat {
    k % (l + 1)
  }

  lemma PhaseFacts(k: nat, l: nat)
    ensures Phase(k, l) <= k && Phase(k, l) <= l && Phase(0, l) == 0
    ensures Phase(k + 1, l) == if Phase(k, l) < l then Phase(k, l) + 1 else 0
  {
    Places(k, l + 1);
  }

  /** The nonces outstanding: those of the probes of the current round. */
  ghost function Current(cfg: Config, log: seq<Nonce>): seq<Nonce> {
    PhaseFacts(|log|, Probes(cfg));
    log[|log| - Phase(|log|, Probes(cfg))..]
  }

  /** The probe timer of a locator of an entry for eid that has fired with these nonces. */
  ghost predicate Watching(x: Xtr, t: Timer, m: Obj, eid: Eid, id: int, first: nat, log: seq<Nonce>) {
    && IsKind(x.reg.timers, t, Probing) && x.reg.timers[t].obj == m && x.reg.timers[t].part == id
    && Anchored(x, m) && x.entries[m].eid == eid && HasList(x.reg, t) && NoncesOf(x.reg, t) == Current(x.cfg, log)
    && t in x.reg.alarms && x.reg.alarms[t] == FiringTick(x.cfg, first, |log|)
  }

  /** A Map-Reply whose first record is for the prefix: the entry is updated and probed anew. */
  ghost predicate Renews(e: Event, eid: Eid) {
    e.Reply? && e.recs != [] && e.recs[0].eid == eid
  }

  /** A step that is not about the timer: it goes on as it is, or its entry is gone or probed anew. */
  lemma WatchingOther(x: Xtr, e: Event, t: Timer, m: Obj, eid: Eid, id: int, first: nat, log: seq<Nonce>)
    requires Good(x) && Enabled(x, e) && Watching(x, t, m, eid, id, first, log) && (BaseFacts(x); t !in Touched(x, e))
    ensures var y := Step(x, e);
            if t in y.reg.timers then Watching(y, t, m, eid, id, first, log)
            else Over(y, t, Current(x.cfg, log)) && (m !in y.entries || Renews(e, eid))
  {
    hide Base, XtrMisses.MissesOk, Enabled, Step, Inv, Touched, Current, FiringTick;
    var y := Step(x, e);
    BaseFacts(x);
    StepGood(x, e);
    StepKeep(x, e);
    if t !in y.reg.timers {
      TimerGone(x, y, e, t);
      TargetEid(x);
    } else {
      BaseFacts(y);
    }
  }

  lemma TargetEid(x: Xtr)
    requires Base(x)
    ensures forall e, m :: m in Target(x, e) ==> m in x.entries && x.entries[m].eid == e
  {
    hide Inv, Allocated, TimersOk, BoundsOk, ClockOk;
  }

  /** A reply that bears an outstanding nonce of the timer changes nothing, or the timer is gone. */
  lemma WatchingAnswered(x: Xtr, e: Event, t: Timer, m: Obj, eid: Eid, id: int, first: nat, log: seq<Nonce>)
    requires Good(x) && Enabled(x, e) && Watching(x, t, m, eid, id, first, log)
    requires (BaseFacts(x); t in Touched(x, e)) && !(e.Fire? && e.t == t)
    ensures var y := Step(x, e);
            if t in y.reg.timers then Watching(y, t, m, eid, id, first, log) else Over(y, t, Current(x.cfg, log))
    ensures Answers(e, log)
  {
    hide Base, XtrMisses.MissesOk, Inv, SafeReply, OwnEntry, AddMappings, UpdateMapping, StopOne, ProbeAnswered, Over, FiringTick;
    BaseFacts(x);
    TouchedBy(x, e, t);
    var y := Step(x, e);
    if e.Reply? { ReplyStops(x, e, t); } else { ProbedStops(x, e, t); }
    if t !in y.reg.timers { TimerGone(x, y, e, t); }
  }

  /** The timer's own firing comes at its tick, and the next one when it should. */
  lemma WatchingFires(x: Xtr, t: Timer, n: Nonce, m: Obj, eid: Eid, id: int, first: nat, log: seq<Nonce>)
    requires Good(x) && Enabled(x, Fire(t, n, true)) && Watching(x, t, m, eid, id, first, log)
    ensures x.now == FiringTick(x.cfg, first, |log|)
    ensures Watching(Step(x, Fire(t, n, true)), t, m, eid, id, first, log + [n])
  {
    hide Base, XtrMisses.MissesOk, Inv, FiringTick, AddNonce, Reset, SetUp, IsUp, WheelSpec.FiringDelay;
    FireReady(x, t);
    NextFiring(x.cfg, first, |log|);
    CurrentNext(x.cfg, log, n);
    var z := Expired(x, t);
    SentNonce(z, t, n);
    NoncesOnly(z.reg, n, z.reg.timers[t].nonces.value);
    ForgottenNonces(z, t);
  }

  lemma ForgottenNonces(x: Xtr, t: Timer)
    requires HasList(x.reg, t)
    ensures HasList(ForgetNonces(x, t).reg, t) && NoncesOf(ForgetNonces(x, t).reg, t) == []
    ensures forall es :: ForgetNonces(x.(entries := es), t).reg == ForgetNonces(x, t).reg
  {}

  lemma NoneYet(cfg: Config)
    ensures Current(cfg, []) == []
  {
    PhaseFacts(0, Probes(cfg));
  }

  lemma CurrentNext(cfg: Config, log: seq<Nonce>, n: Nonce)
    ensures var l := Probes(cfg);
            && |Current(cfg, log)| == Phase(|log|, l)
            && Current(cfg, log + [n]) == if Phase(|log|, l) < l then Current(cfg, log) + [n] else []
  {
    hide Probes, Phase;
    PhaseFacts(|log|, Probes(cfg));
    CutNext(log, n, Phase(|log|, Probes(cfg)));
    assert |log + [n]| == |log| + 1;
  }

  lemma CutNext(log: seq<Nonce>, n: Nonce, r: nat)
    requires r <= |log|
    ensures (log + [n])[|log| - r..] == log[|log| - r..] + [n] && (log + [n])[|log| + 1..] == []
  {}

  /** A reply that bears one of the timer's nonces, or that updates its entry. */
  ghost predicate Interrupts(e: Event, ns: seq<Nonce>, eid: Eid) {
    Answers(e, ns) || Renews(e, eid)
  }

  ghost predicate InterruptedIn(es: seq<Event>, ns: seq<Nonce>, eid: Eid) {
    exists i :: 0 <= i < |es| && Interrupts(es[i], ns, eid)
  }

  /** The timer goes on as it should, or it is gone and something has ended it. */
  ghost predicate WatchedTo(x: Xtr, t: Timer, m: Obj, eid: Eid, id: int, first: nat, log: seq<Nonce>, ended: bool) {
    if t in x.reg.timers then Watching(x, t, m, eid, id, first, log)
    else Over(x, t, Current(x.cfg, log)) && (ended || (m !in x.entries && m < x.heap))
  }

  lemma WatchedStep(x: Xtr, e: Event, t: Timer, m: Obj, eid: Eid, id: int, first: nat, log: seq<Nonce>, a: bool)
    requires Good(x) && Enabled(x, e) && WatchedTo(x, t, m, eid, id, first, log, a) && (e.Fire? && e.t == t ==> e.sent)
    ensures var mine := e.Fire? && e.t == t;
            && WatchedTo(Step(x, e), t, m, eid, id, first, if mine then log + [e.n] else log, a || Interrupts(e, log, eid))
            && (mine ==> t in x.reg.timers && x.now == FiringTick(x.cfg, first, |log|))
    ensures t !in x.reg.timers ==> t !in Step(x, e).reg.timers
    ensures Step(x, e).cfg == x.cfg
  {
    hide Base, XtrMisses.MissesOk, Step, Inv, Touched, Over, SafeReply, OwnEntry, Current, FiringTick;
    BaseFacts(x);
    XtrProbing.StepConfig(x, e);
    if t in x.reg.timers {
      if e.Fire? && e.t == t {
        WatchingFires(x, t, e.n, m, eid, id, first, log);
      } else if t in Touched(x, e) {
        WatchingAnswered(x, e, t, m, eid, id, first, log);
      } else {
        WatchingOther(x, e, t, m, eid, id, first, log);
        if m !in Step(x, e).entries { EntryBelow(x, e, m, t); }
      }
    } else {
      NotFiring(x, e, t);
      OverStep(x, e, t, Current(x.cfg, log));
      OverHere(Step(x, e), t, Current(x.cfg, log));
      if m !in x.entries && m < x.heap { GoneStep(x, e, m); }
    }
  }

  /** The firings, the first of which is firing number k. */
  ghost predicate OnTime(cfg: Config, first: nat, k: nat, fs: seq<Firing>) {
    forall i :: 0 <= i < |fs| ==> fs[i].tick == FiringTick(cfg, first, k + i)
  }

  /** What a run does to a probe timer. */
  lemma {:induction false} WatchedRun(x: Xtr, es: seq<Event>, y: Xtr, t: Timer, m: Obj, eid: Eid, id: int, first: nat,
                                      log: seq<Nonce>, a: bool)
    requires Good(x) && RunOf(x, es, y) && AllSent(es, t) && WatchedTo(x, t, m, eid, id, first, log, a)
    ensures var fs := Fires(x, es, y, t);
            var all := log + NoncesIn(fs);
            && y.cfg == x.cfg && (t !in x.reg.timers ==> fs == [])
            && OnTime(x.cfg, first, |log|, fs)
            && WatchedTo(y, t, m, eid, id, first, all, a || InterruptedIn(es, all, eid))
    decreases |es|
  {
    hide Good, Enabled, Step, WatchedTo, OnTime, FiringTick, NoncesIn;
    if es == [] {
      assert log + NoncesIn([]) == log;
      NoFirings(x.cfg, first, |log|);
      WatchedMore(y, t, m, eid, id, first, log, a, a || InterruptedIn(es, log, eid));
    } else {
      var e := es[0];
      var mine := e.Fire? && e.t == t;
      StepGood(x, e);
      assert mine ==> e.sent;
      WatchedStep(x, e, t, m, eid, id, first, log, a);
      var x', log' := Step(x, e), if mine then log + [e.n] else log;
      assert AllSent(es[1..], t) by { SentLater(es, t); }
      WatchedRun(x', es[1..], y, t, m, eid, id, first, log', a || Interrupts(e, log, eid));
      var fs, gs := Fires(x', es[1..], y, t), Fires(x, es, y, t);
      if mine { MoreFirings(x.cfg, first, log, Firing(x.now, e.n), fs); } else { assert gs == fs; }
      var all := log + NoncesIn(gs);
      assert all == log' + NoncesIn(fs);
      InterruptedLater(es, log, all, eid);
      WatchedMore(y, t, m, eid, id, first, all, a || Interrupts(e, log, eid) || InterruptedIn(es[1..], all, eid),
                  a || InterruptedIn(es, all, eid));
    }
  }

  lemma NoFirings(cfg: Config, first: nat, k: nat)
    ensures OnTime(cfg, first, k, [])
  {}

  lemma MoreFirings(cfg: Config, first: nat, log: seq<Nonce>, f: Firing, fs: seq<Firing>)
    requires f.tick == FiringTick(cfg, first, |log|) && OnTime(cfg, first, |log| + 1, fs)
    ensures var gs := [f] + fs; log + NoncesIn(gs) == (log + [f.n]) + NoncesIn(fs) && OnTime(cfg, first, |log|, gs)
  {
    hide FiringTick;
    var gs := [f] + fs;
    forall i | 0 <= i < |gs|
      ensures gs[i].tick == FiringTick(cfg, first, |log| + i)
    {
      if i > 0 {
        assert gs[i] == fs[i - 1];
        assert |log| + i == |log| + 1 + (i - 1);
      }
    }
  }

  lemma InterruptedLater(es: seq<Event>, ns: seq<Nonce>, all: seq<Nonce>, eid: Eid)
    requires es != [] && ns <= all
    ensures Interrupts(es[0], ns, eid) || InterruptedIn(es[1..], all, eid) ==> InterruptedIn(es, all, eid)
  {
    if InterruptedIn(es[1..], all, eid) {
      var i :| 0 <= i < |es[1..]| && Interrupts(es[1..][i], all, eid);
      assert Interrupts(es[i + 1], all, eid);
    }
    if Interrupts(es[0], ns, eid) { assert Interrupts(es[0], all, eid); }
  }

  lemma WatchedMore(x: Xtr, t: Timer, m: Obj, eid: Eid, id: int, first: nat, log: seq<Nonce>, a: bool, b: bool)
    requires WatchedTo(x, t, m, eid, id, first, log, a) && (a ==> b)
    ensures WatchedTo(x, t, m, eid, id, first, log, b)
  {}

  /**
    A probe timer of a cached entry that has sent nothing yet, due at first, and whose sends succeed.
    Over every continuation it fires at exactly the ticks FiringTick gives, none missing up to now:
    a round of probes one retry interval apart, the firing that finds them unanswered, and the next
    round one probe interval later. The nonces outstanding are those of the current round, so the
    number of them says which firing comes next. It ends only with its entry, by a reply that bears
    one of its nonces, or by one that updates the entry; then none of its nonces is outstanding.
   */
  lemma ProbeSchedule(x: Xtr, t: Timer, es: seq<Event>, y: Xtr)
    requires Good(x) && RunOf(x, es, y) && AllSent(es, t)
    requires IsKind(x.reg.timers, t, Probing) && Anchored(x, x.reg.timers[t].obj)
    requires HasList(x.reg, t) && NoncesOf(x.reg, t) == [] && t in x.reg.alarms
    ensures var first, m, id := x.reg.alarms[t], x.reg.timers[t].obj, x.reg.timers[t].part;
            var fs := Fires(x, es, y, t);
            && (forall i :: 0 <= i < |fs| ==> fs[i].tick == FiringTick(x.cfg, first, i))
            && (t in y.reg.timers ==>
                  && IsKind(y.reg.timers, t, Probing) && y.reg.timers[t].obj == m && y.reg.timers[t].part == id
                  && HasList(y.reg, t) && NoncesOf(y.reg, t) == Current(x.cfg, NoncesIn(fs))
                  && t in y.reg.alarms && y.reg.alarms[t] == FiringTick(x.cfg, first, |fs|)
                  && (!y.ticking ==> y.now < FiringTick(x.cfg, first, |fs|)))
            && (t !in y.reg.timers ==>
                  && (forall k :: k in Current(x.cfg, NoncesIn(fs)) ==> k !in y.reg.table)
                  && (m !in y.entries || InterruptedIn(es, NoncesIn(fs), x.entries[m].eid)))
  {
    hide Base, XtrMisses.MissesOk, RunOf, Over, FiringTick, Current;
    var m := x.reg.timers[t].obj;
    var first, eid, id := x.reg.alarms[t], x.entries[m].eid, x.reg.timers[t].part;
    NextFiring(x.cfg, first, 0);
    NoneYet(x.cfg);
    WatchedRun(x, es, y, t, m, eid, id, first, [], false);
    RunGood(x, es, y);
    var fs := Fires(x, es, y, t);
    assert [] + NoncesIn(fs) == NoncesIn(fs);
    if t in y.reg.timers {
      if !y.ticking { NotLate(y, t); }
    } else {
      OverNonces(y, t, Current(y.cfg, NoncesIn(fs)));
    }
  }


  /**
    What a firing leaves behind of its timer: one nonce more and one retry interval while probes are
    left, none and one probe interval after the round. A send that fails leaves the timer as it is,
    not running, and so does a locator going down whose entry the cache does not know.
   */
  lemma ProbeNext(x: Xtr, t: Timer, n: Nonce, sent: bool)
    requires Good(x) && Enabled(x, Fire(t, n, sent)) && IsKind(x.reg.timers, t, Probing)
    ensures HasList(x.reg, t) && x.reg.timers[t].obj in x.entries
    ensures var y, m := Step(x, Fire(t, n, sent)), x.reg.timers[t].obj;
            var left := |NoncesOf(x.reg, t)| < x.cfg.probeRetries + 1;
            var lost := x.entries[m].eid !in x.cache && m != x.cfg.petrs;
            var falls := exists i :: 0 <= i < |x.entries[m].locs| && x.entries[m].locs[i].id == x.reg.timers[t].part
                                       && x.entries[m].locs[i].up;
            && HasList(y.reg, t)
            && if left && sent then
                 NoncesOf(y.reg, t) == NoncesOf(x.reg, t) + [n] && t in y.reg.alarms && y.reg.alarms[t] == x.now + Retry(x.cfg)
               else if left || (lost && falls) then
                 NoncesOf(y.reg, t) == NoncesOf(x.reg, t) && t !in y.reg.alarms
               else
                 NoncesOf(y.reg, t) == [] && t in y.reg.alarms && y.reg.alarms[t] == x.now + Pause(x.cfg)
  {
    hide Base, XtrMisses.MissesOk, Inv, AddNonce, Reset, SetUp, WheelSpec.FiringDelay;
    FireReady(x, t);
    var z := Expired(x, t);
    SentNonce(z, t, n);
    NoncesOnly(z.reg, n, z.reg.timers[t].nonces.value);
    ForgottenNonces(z, t);
  }
}
