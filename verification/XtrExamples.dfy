/** Runs of the router in which a law fails that one might expect of it. */
module XtrExamples {
  import opened Options
  import opened RegistrySpec
  import opened XtrSpec
  import opened XtrInvariant
  import opened XtrRuns
  import opened XtrTheorems
  import XtrMismatch
  import XtrMisses
  import XtrProbing
  import Seqs

  // ---------- time passing ----------

  /** While no timer is due, ticks change nothing but the clock. */
  lemma {:induction false} Idle(x: Xtr, k: nat) returns (es: seq<Event>)
    requires Good(x) && !x.ticking && forall t :: t in x.reg.alarms ==> x.reg.alarms[t] > x.now + k
    ensures Good(x.(now := x.now + k)) && RunOf(x, es, x.(now := x.now + k))
    ensures forall i :: 0 <= i < |es| ==> es[i] == BeginTick || es[i] == EndTick
    decreases k
  {
    hide Base, XtrMisses.MissesOk, RunOf;
    if k == 0 {
      es := [];
      assert x.(now := x.now) == x;
      RunNone(x);
    } else {
      var y := Step(x, BeginTick);
      StepGood(x, BeginTick);
      RunOne(x, BeginTick);
      StepGood(y, EndTick);
      RunOne(y, EndTick);
      var z := Step(y, EndTick);
      RunThen(x, [BeginTick], y, [EndTick], z);
      assert z == x.(now := x.now + 1);
      var rest := Idle(z, k - 1);
      es := [BeginTick] + [EndTick] + rest;
      RunThen(x, [BeginTick] + [EndTick], z, rest, x.(now := x.now + k));
    }
  }

  lemma RunNone(x: Xtr)
    requires Good(x)
    ensures RunOf(x, [], x)
  {
    hide Good;
  }

  // ---------- a cache miss ----------

  const HOME := Eid(1, 0)
  const FAR := Eid(2, 32)

  /** Without probing. */
  const QUIET := Config(3, 0, 1, 5, 0)

  /** The configurations of the examples. */
  predicate Plain(c: Config) {
    c.requestRetries == 3 && c.petrs == 0
  }

  /** The state after one miss, its first request sent with nonce 1. */
  function Missing(c: Config): Xtr {
    Xtr(c,
        Registry(map[4097 := TimerRec(RequestRetry, 4096, 0, Some(4098))], map[4098 := NonceList([1], 4097)],
                 map[1 := 4098], map[4096 := [4097]], map[4097 := 2]),
        map[FAR := 4096], map[0 := Entry(HOME, true, 0, []), 4096 := Entry(FAR, false, 0, [])], 0, false, 4099, {1},
        map[4096 := Miss(0, 4097, [0], [1], false, Open)])
  }

  lemma NoProbing(x: Xtr, m: Obj)
    requires x.cfg.probeInterval == 0 && m in x.entries
    ensures ProgramProbing(x, m) == x
  {}

  /** Without proxies there is nothing to probe at the start. */
  lemma BareStart(c: Config)
    requires Plain(c)
    ensures Start(c, HOME, []) == Bare(c, HOME, [])
  {
    NothingStopped(Empty());
  }

  lemma NothingStopped(r: Registry)
    requires r == Empty()
    ensures StopKind(r, 0, Probing) == r
  {}

  lemma MissingReached(c: Config)
    requires Plain(c)
    ensures Good(Missing(c)) && RunFrom(c, HOME, [], [Missed(FAR, 1, true)], Missing(c))
  {
    hide Base, XtrMisses.MissesOk, RunOf;
    var x, e := Start(c, HOME, []), Missed(FAR, 1, true);
    StartGood(c, HOME, []);
    BareStart(c);
    MissingIs(c);
    StepGood(x, e);
    RunOne(x, e);
  }

  /** The miss before its first request is sent. */
  function Unsent(c: Config): Xtr {
    Missing(c).(reg := Registry(map[4097 := TimerRec(RequestRetry, 4096, 0, Some(4098))], map[4098 := NonceList([], 4097)],
                                map[], map[4096 := [4097]], map[]),
                used := {}, misses := map[4096 := Miss(0, 4097, [], [], false, Open)])
  }

  lemma UnsentIs(c: Config)
    requires Plain(c)
    ensures HasList(Unsent(c).reg, 4097)
    ensures CacheMiss(Bare(c, HOME, []), FAR, 1, true) == RetryCallback(Unsent(c), 4097, 3, MRQ_TIMEOUT, 1, true)
  {
    hide RetryCallback;
    var x := Bare(c, HOME, []);
    var y := x.(entries := x.entries[4096 := Entry(FAR, false, 0, [])], cache := x.cache[FAR := 4096], heap := 4097);
    assert y.entries == Unsent(c).entries && y.cache == Unsent(c).cache;
    var z := NewTimer(y, RequestRetry, 4096, 0);
    FirstCreated(4097, TimerRec(RequestRetry, 4096, 0, Some(4098)));
    assert z.reg == Unsent(c).reg;
    assert z.misses[4096 := Miss(0, 4097, [], [], false, Open)] == Unsent(c).misses;
  }

  /** The registry that holds one timer. */
  lemma FirstCreated(t: Timer, rec: TimerRec)
    ensures Create(Empty(), t, rec) ==
            Registry(map[t := rec], if rec.nonces.Some? then map[rec.nonces.value := NonceList([], t)] else map[], map[],
                     map[rec.obj := [t]], map[])
  {
    assert [t] + [] == [t];
  }

  lemma MissingIs(c: Config)
    requires Plain(c)
    ensures CacheMiss(Bare(c, HOME, []), FAR, 1, true) == Missing(c)
  {
    UnsentIs(c);
    hide CacheMiss;
    var y := RetryCallback(Unsent(c), 4097, 3, MRQ_TIMEOUT, 1, true);
    assert [] + [1] == [1];
    assert [] + [0] == [0];
    assert y.reg.lists == Missing(c).reg.lists;
    assert y.misses == Missing(c).misses;
  }

  // ---------- replies of the wrong kind ----------

  /** A probe reply about the proxies that bears the nonce of the miss leaves the registry inconsistent. */
  lemma ForeignReplyExample(addr: int)
    ensures Good(Missing(QUIET)) && Reachable(Missing(QUIET))
    ensures !Inv(ProbeReply(Missing(QUIET), 1, Some(Record(HOME, 0, [])), addr).0.reg)
  {
    hide Base, XtrMisses.MissesOk, RunFrom, ProbeReply;
    MissingReached(QUIET);
    XtrMismatch.ProbeReplyInvIff(Missing(QUIET), 1, Record(HOME, 0, []), addr);
  }

  /**
    A probe reply about the missed prefix itself that bears the nonce of the miss: however many
    ticks pass then, the placeholder is still in the cache and no timer is left.
   */
  lemma SilencedRun(addr: int, k: nat) returns (es: seq<Event>, y: Xtr)
    ensures Good(Missing(QUIET)) && Reachable(Missing(QUIET)) && Enabled(Missing(QUIET), Probed(1, Some(Record(FAR, 0, [])), addr))
    ensures RunOf(Missing(QUIET), [Probed(1, Some(Record(FAR, 0, [])), addr)] + es, y)
    ensures y.now == k && FAR in y.cache && y.cache[FAR] in y.entries && !y.entries[y.cache[FAR]].active
    ensures y.reg.timers == map[]
  {
    hide Base, XtrMisses.MissesOk, RunFrom, RunOf, Step, Enabled, Missing;
    MissingReached(QUIET);
    var x, e := Missing(QUIET), Probed(1, Some(Record(FAR, 0, [])), addr);
    SilencedAt(addr);
    var z := Step(x, e);
    RunOne(x, e);
    es := Idle(z, k);
    y := z.(now := z.now + k);
    RunThen(x, [e], z, es, y);
  }

  lemma SilencedAt(addr: int)
    requires Good(Missing(QUIET))
    ensures var x, e := Missing(QUIET), Probed(1, Some(Record(FAR, 0, [])), addr);
            && Enabled(x, e) && Good(Step(x, e))
            && var z := Step(x, e);
               && z.now == 0 && !z.ticking && z.reg.timers == map[] && z.reg.alarms == map[]
               && FAR in z.cache && z.cache[FAR] in z.entries && !z.entries[z.cache[FAR]].active
  {
    hide Base, XtrMisses.MissesOk;
    var x, e := Missing(QUIET), Probed(1, Some(Record(FAR, 0, [])), addr);
    StepGood(x, e);
    assert Step(x, e).reg.timers == map[] && Step(x, e).reg.alarms == map[];
  }

  // ---------- a refresh

  /** The state after the reply to the miss: a mapping with a time to live of one minute. */
  function Filled(): Xtr {
    Xtr(QUIET,
        Registry(map[4100 := TimerRec(Expiry, 4099, 0, None)], map[], map[], map[4099 := [4100]], map[4100 := 60]),
        map[FAR := 4099], map[0 := Entry(HOME, true, 0, []), 4099 := Entry(FAR, true, 1, [])], 0, false, 4102, {1},
        ANSWERED)
  }

  /** The history of the miss once it has been answered. */
  const ANSWERED := map[4096 := Miss(0, 4097, [0], [1], false, Answered(0))]

  const MINUTE := Record(FAR, 1, [])

  /** The state when the placeholder is gone. */
  function Cleared(c: Config): Xtr {
    Xtr(c, Registry(map[], map[], map[], map[], map[]), map[], map[0 := Entry(HOME, true, 0, [])], 0, false, 4099, {1},
        ANSWERED)
  }

  lemma RemovedIs(c: Config)
    ensures RemoveEntry(Missing(c), 4096, Answered(0)) == Cleared(c)
  {
    var x, y := Missing(c), RemoveEntry(Missing(c), 4096, Answered(0));
    assert TimersOf(x.reg, 4096) == [4097];
    assert y.reg.timers == map[] && y.reg.alarms == map[] && y.reg.index == map[];
    assert 4098 in x.reg.lists && Belongs(x.reg.lists, 4098, {4097});
    assert y.reg.lists == map[];
    assert y.reg.table == map[];
    assert y.cache == map[];
    assert y.entries == Cleared(c).entries;
  }

  /** A reply with one record to the miss. */
  lemma MissAnswered(c: Config, rec: Record)
    requires Plain(c)
    ensures Good(Missing(c)) && Enabled(Missing(c), Reply(1, [rec], true))
    ensures Step(Missing(c), Reply(1, [rec], true)) == AddMapping(Cleared(c), rec)
    ensures Good(AddMapping(Cleared(c), rec))
    ensures RunFrom(c, HOME, [], [Missed(FAR, 1, true)] + [Reply(1, [rec], true)], AddMapping(Cleared(c), rec))
  {
    hide Base, XtrMisses.MissesOk, RunOf, AddMapping, Step, Enabled, Missing, Cleared, Start;
    var e := Reply(1, [rec], true);
    MissingReached(c);
    StartGood(c, HOME, []);
    AnswerStep(c, rec);
    RunOne(Missing(c), e);
    RunThen(Start(c, HOME, []), [Missed(FAR, 1, true)], Missing(c), [e], AddMapping(Cleared(c), rec));
  }

  lemma AnswerStep(c: Config, rec: Record)
    requires Good(Missing(c))
    ensures var e := Reply(1, [rec], true);
            Enabled(Missing(c), e) && Step(Missing(c), e) == AddMapping(Cleared(c), rec) && Good(Step(Missing(c), e))
  {
    hide Base, XtrMisses.MissesOk, AddMapping;
    RemovedIs(c);
    assert AddMappings(Cleared(c), [rec]) == AddMapping(Cleared(c), rec) by { assert [rec][1..] == []; }
    StepGood(Missing(c), Reply(1, [rec], true));
  }

  lemma AddedIs()
    ensures AddMapping(Cleared(QUIET), MINUTE) == Filled()
  {
    hide ProgramProbing, Create;
    var x, y := Cleared(QUIET), AddMapping(Cleared(QUIET), MINUTE);
    assert MakeLocs([], 4100) == [];
    FirstCreated(4100, TimerRec(Expiry, 4099, 0, None));
    var z := x.(entries := Filled().entries, cache := Filled().cache, heap := 4100);
    assert x.entries[4099 := Entry(FAR, true, 1, [])] == z.entries && x.cache[FAR := 4099] == z.cache;
    assert StartExpiry(z, 4099) == Filled();
    NoProbing(Filled(), 4099);
  }

  /** The state at tick 30 when a solicited request with nonce 2 has been sent for the mapping. */
  function Asked(): Xtr {
    Filled().(reg := Registry(map[4100 := TimerRec(Expiry, 4099, 0, None), 4102 := TimerRec(SmrRetry, 4099, 0, Some(4103))],
                              map[4103 := NonceList([2], 4102)], map[2 := 4103], map[4099 := [4102, 4100]],
                              map[4100 := 60, 4102 := 33]),
              now := 30, heap := 4104, used := {1, 2})
  }

  /** The same before the request is sent. */
  function Unasked(): Xtr {
    Asked().(reg := Asked().reg.(lists := map[4103 := NonceList([], 4102)], table := map[], alarms := map[4100 := 60]),
             used := {1})
  }

  lemma UnaskedIs()
    ensures NewTimer(Filled().(now := 30), SmrRetry, 4099, 0) == Unasked()
  {
    var y := NewTimer(Filled().(now := 30), SmrRetry, 4099, 0);
    assert [4102] + [4100] == [4102, 4100];
    assert y.reg == Unasked().reg;
  }

  lemma AskedIs()
    ensures SolicitedRequest(Filled().(now := 30), 4099, 2, true) == Asked()
  {
    UnaskedIs();
    hide NewTimer;
    assert HasList(Unasked().reg, 4102);
    var y := RetryCallback(Unasked(), 4102, MAX_SMR_RETRANSMIT, SMR_TIMEOUT, 2, true);
    assert [] + [2] == [2];
    assert y.reg.lists == Asked().reg.lists;
    assert y.reg.alarms == Asked().reg.alarms;
    assert y.used == Asked().used;
  }

  /** The state when the reply has refreshed the mapping: its second expiry is due on tick 90. */
  function Refreshed(): Xtr {
    Asked().(reg := Registry(map[4100 := TimerRec(Expiry, 4099, 0, None), 4104 := TimerRec(Expiry, 4099, 0, None)],
                             map[], map[], map[4099 := [4104, 4100]], map[4100 := 60, 4104 := 90]),
             heap := 4106)
  }

  lemma RefreshedIs()
    ensures Inv(Asked().reg) && Good(Asked()) ==>
              (BaseFacts(Asked()); MapReply(Asked(), 2, [MINUTE], true).0 == Refreshed())
  {
    if Inv(Asked().reg) && Good(Asked()) {
      BaseFacts(Asked());
      hide Base, XtrMisses.MissesOk, Inv;
      UpdatedIs();
      var x, y := Asked(), UpdateMapping(Asked(), MINUTE);
      StoppedIs();
      assert TimerOfNonce(x.reg, 2) == 4102;
    }
  }

  /** The state between the update and the stop of the timer. */
  function Updated(): Xtr {
    var r := Asked().reg;
    Asked().(reg := r.(timers := r.timers[4104 := TimerRec(Expiry, 4099, 0, None)], index := map[4099 := [4104, 4102, 4100]],
                       alarms := r.alarms[4104 := 90]),
             heap := 4106)
  }

  lemma UpdatedIs()
    ensures FAR in Asked().cache && UpdateMapping(Asked(), MINUTE) == Updated()
  {
    hide ProgramProbing;
    assert MakeLocs([], 4104) == [];
    var z := Asked();
    assert z.entries[4099 := z.entries[4099].(locs := [])] == z.entries;
    ExpiryAdded();
    hide StartExpiry;
    NoProbing(Updated(), 4099);
  }

  lemma ExpiryAdded()
    ensures StartExpiry(Asked(), 4099) == Updated()
  {
    assert [4104] + [4102, 4100] == [4104, 4102, 4100];
    assert StartExpiry(Asked(), 4099).reg == Updated().reg;
  }

  lemma StoppedIs()
    ensures Updated().(reg := StopOne(Updated().reg, 4099, 4102)) == Refreshed()
  {
    hide Seqs.Remove;
    var r := Updated().reg;
    var s := StopOne(r, 4099, 4102);
    MiddleRemoved();
    assert s.index == Refreshed().reg.index;
    StoppedTables();
  }

  lemma MiddleRemoved()
    ensures Seqs.Remove([4104, 4102, 4100], 4102) == [4104, 4100]
  {
    Seqs.FirstIndex([4104, 4102, 4100], 4102, 1);
  }

  lemma StoppedTables()
    ensures var r, s := Purge(Updated().reg, {4102}), Refreshed().reg;
            r.timers == s.timers && r.alarms == s.alarms && r.lists == s.lists && r.table == s.table
  {
    StoppedTimers();
    var r := Updated().reg;
    assert Belongs(r.lists, 4103, {4102});
    hide Belongs;
    assert Purge(r, {4102}).lists == map[];
    assert Purge(r, {4102}).table == map[];
  }

  lemma StoppedTimers()
    ensures Updated().reg.timers - {4102} == Refreshed().reg.timers
    ensures Updated().reg.alarms - {4102} == Refreshed().reg.alarms
  {}

  /**
    A mapping with a time to live of one minute, learned at the start and refreshed at tick 30, is
    gone at tick 60: between the refresh and then nothing happened but ticks.
   */
  lemma RefreshRun() returns (before: seq<Event>, x: Xtr, after: seq<Event>, y: Xtr)
    ensures RunFrom(QUIET, HOME, [], before + [Reply(2, [MINUTE], true)], x)
    ensures x.now == 30 && FAR in x.cache && x.cache[FAR] in x.entries && x.entries[x.cache[FAR]].ttl == 1
    ensures Good(x) && RunOf(x, after, y)
    ensures forall i :: 0 <= i < |after| ==> after[i] == BeginTick || after[i] == EndTick || after[i].Fire?
    ensures y.now == 60 && !y.ticking && FAR !in y.cache
  {
    hide Base, XtrMisses.MissesOk, RunOf, MapReply, SolicitedRequest, AddMapping;
    var s := Start(QUIET, HOME, []);
    StartGood(QUIET, HOME, []);
    MissAnswered(QUIET, MINUTE);
    AddedIs();
    var first := [Missed(FAR, 1, true)] + [Reply(1, [MINUTE], true)];
    var idle := Idle(Filled(), 30);
    var at30 := Filled().(now := 30);
    RunThen(s, first, Filled(), idle, at30);
    AskedReached();
    var ask := Solicited(4099, 2, true);
    RunOne(at30, ask);
    RunThen(s, first + idle, at30, [ask], Asked());
    before := first + idle + [ask];
    RefreshedReached();
    var fresh_ := Reply(2, [MINUTE], true);
    RunOne(Asked(), fresh_);
    RunThen(s, before, Asked(), [fresh_], Refreshed());
    x := Refreshed();
    after, y := ExpiryRun();
  }

  lemma AskedReached()
    requires Good(Filled().(now := 30))
    ensures var at30, ask := Filled().(now := 30), Solicited(4099, 2, true);
            Enabled(at30, ask) && Step(at30, ask) == Asked() && Good(Asked())
  {
    hide Base, XtrMisses.MissesOk, SolicitedRequest;
    var at30, ask := Filled().(now := 30), Solicited(4099, 2, true);
    assert at30.cache[FAR] == 4099;
    AskedIs();
    StepGood(at30, ask);
  }

  lemma RefreshedReached()
    requires Good(Asked())
    ensures var e := Reply(2, [MINUTE], true);
            Enabled(Asked(), e) && Step(Asked(), e) == Refreshed() && Good(Refreshed())
  {
    hide Base, XtrMisses.MissesOk, MapReply;
    BaseFacts(Asked());
    RefreshedIs();
    StepGood(Asked(), Reply(2, [MINUTE], true));
  }

  /** From the refresh on: 29 ticks, and then the first expiry timer. */
  lemma ExpiryRun() returns (es: seq<Event>, y: Xtr)
    requires Good(Refreshed())
    ensures RunOf(Refreshed(), es, y)
    ensures forall i :: 0 <= i < |es| ==> es[i] == BeginTick || es[i] == EndTick || es[i].Fire?
    ensures y.now == 60 && !y.ticking && FAR !in y.cache
  {
    hide Base, XtrMisses.MissesOk, RunOf;
    var x := Refreshed();
    var idle := Idle(x, 29);
    var a := x.(now := 59);
    var b := Step(a, BeginTick);
    StepGood(a, BeginTick);
    RunOne(a, BeginTick);
    RunThen(x, idle, a, [BeginTick], b);
    var fire := Fire(4100, 3, true);
    var c := ExpiredAway(b);
    StepGood(b, fire);
    RunOne(b, fire);
    RunThen(x, idle + [BeginTick], b, [fire], c);
    y := Step(c, EndTick);
    RunOne(c, EndTick);
    es := idle + [BeginTick] + [fire] + [EndTick];
    RunThen(x, idle + [BeginTick] + [fire], c, [EndTick], y);
  }

  lemma ExpiredAway(x: Xtr) returns (y: Xtr)
    requires Good(x) && x == Refreshed().(now := 60, ticking := true)
    ensures Enabled(x, Fire(4100, 3, true)) && y == Step(x, Fire(4100, 3, true))
    ensures y.reg.alarms == map[] && FAR !in y.cache && y.now == 60 && y.ticking
  {
    hide Base, XtrMisses.MissesOk;
    y := Step(x, Fire(4100, 3, true));
    assert TimersOf(x.reg, 4099) == [4104, 4100];
    assert Seqs.Elements([4104, 4100]) == {4104, 4100};
    assert y.reg.alarms == map[];
  }

  // ---------- a probe reply from another address ----------

  /** With probing every tick. */
  const PROBING := Config(3, 1, 1, 5, 0)
  const PROXIES := [(10, true), (20, true)]
  const LOCATORS := [Loc(1, 10, true), Loc(2, 20, true)]

  /** The router when it starts to probe its two proxies. */
  function Watching(): Xtr {
    Xtr(PROBING,
        Registry(map[4098 := TimerRec(Probing, 0, 1, Some(4099)), 4100 := TimerRec(Probing, 0, 2, Some(4101))],
                 map[4099 := NonceList([], 4098), 4101 := NonceList([], 4100)], map[], map[0 := [4100, 4098]],
                 map[4098 := 1, 4100 := 1]),
        map[], map[0 := Entry(HOME, true, 0, LOCATORS)], 0, false, 4102, {}, map[])
  }

  /** The router when it probes only the first of them. */
  function HalfWatching(): Xtr {
    Watching().(reg := Registry(map[4098 := TimerRec(Probing, 0, 1, Some(4099))], map[4099 := NonceList([], 4098)],
                                map[], map[0 := [4098]], map[4098 := 1]),
                heap := 4100)
  }

  lemma WatchingIs()
    ensures Start(PROBING, HOME, PROXIES) == Watching()
  {
    hide ProbeLocator;
    var x := Bare(PROBING, HOME, PROXIES);
    assert MakeLocs(PROXIES, 1) == LOCATORS;
    NothingStopped(x.reg);
    HalfIs();
    SecondIs();
    assert LOCATORS[1..][0] == LOCATORS[1] && LOCATORS[1..][1..] == [];
    assert x.(reg := StopKind(x.reg, 0, Probing)) == x;
    assert ProbeLocators(x, 0, LOCATORS) == ProbeLocators(HalfWatching(), 0, LOCATORS[1..]);
    assert ProbeLocators(HalfWatching(), 0, LOCATORS[1..]) == ProbeLocators(Watching(), 0, []);
  }

  lemma HalfIs()
    ensures ProbeLocator(Bare(PROBING, HOME, PROXIES), 0, 1) == HalfWatching()
  {
    assert MakeLocs(PROXIES, 1) == LOCATORS;
    var y := ProbeLocator(Bare(PROBING, HOME, PROXIES), 0, 1);
    assert [4098] + [] == [4098];
    assert y.reg == HalfWatching().reg;
  }

  lemma SecondIs()
    ensures ProbeLocator(HalfWatching(), 0, 2) == Watching()
  {
    var y := ProbeLocator(HalfWatching(), 0, 2);
    assert [4100] + [4098] == [4100, 4098];
    assert y.reg == Watching().reg;
  }

  /** The router in its first tick, when the first n proxies have been asked. */
  function Asking(n: nat): Xtr
    requires n <= 2
  {
    var r := Watching().reg;
    var r1 := r.(lists := r.lists[4099 := NonceList([1], 4098)], table := map[1 := 4099], alarms := map[4098 := 6, 4100 := 1]);
    var r2 := r1.(lists := r1.lists[4101 := NonceList([2], 4100)], table := map[1 := 4099, 2 := 4101],
                  alarms := map[4098 := 6, 4100 := 6]);
    Watching().(reg := if n == 0 then r else if n == 1 then r1 else r2, now := 1, ticking := true,
                used := if n == 0 then {} else if n == 1 then {1} else {1, 2})
  }

  lemma FirstAsked()
    ensures HasList(Expired(Asking(0), 4098).reg, 4098)
    ensures ProbeCallback(Expired(Asking(0), 4098), 4098, 1, true) == Asking(1)
  {
    var y := ProbeCallback(Expired(Asking(0), 4098), 4098, 1, true);
    assert [] + [1] == [1];
    assert y.reg.lists == Asking(1).reg.lists;
    assert y.reg.alarms == Asking(1).reg.alarms;
  }

  lemma SecondAsked()
    ensures HasList(Expired(Asking(1), 4100).reg, 4100)
    ensures ProbeCallback(Expired(Asking(1), 4100), 4100, 2, true) == Asking(2)
  {
    var y := ProbeCallback(Expired(Asking(1), 4100), 4100, 2, true);
    assert [] + [2] == [2];
    assert y.reg.lists == Asking(2).reg.lists;
    assert y.reg.alarms == Asking(2).reg.alarms;
    assert y.used == Asking(2).used;
  }

  lemma AskingStep(n: nat, t: Timer)
    requires n < 2 && t == (if n == 0 then 4098 else 4100) && Good(Asking(n)) && XtrProbing.PairsOk(Asking(n))
    ensures Enabled(Asking(n), Fire(t, n + 1, true)) && Step(Asking(n), Fire(t, n + 1, true)) == Asking(n + 1)
    ensures Good(Asking(n + 1)) && XtrProbing.PairsOk(Asking(n + 1))
  {
    hide Base, XtrMisses.MissesOk, ProbeCallback, XtrProbing.PairsOk;
    var e := Fire(t, n + 1, true);
    if n == 0 { FirstAsked(); } else { SecondAsked(); }
    FireReady(Asking(n), t);
    assert Expired(Asking(n), t).reg.timers[t].kind == Probing;
    StepGood(Asking(n), e);
    XtrProbing.StepPairsIff(Asking(n), e);
  }

  /** The router after its first tick. */
  function Waiting(): Xtr {
    Asking(2).(ticking := false)
  }

  lemma WaitingReached() returns (es: seq<Event>)
    ensures RunFrom(PROBING, HOME, PROXIES, es, Waiting()) && Good(Waiting()) && XtrProbing.PairsOk(Waiting())
  {
    hide Base, XtrMisses.MissesOk, RunOf, XtrProbing.PairsOk, Watching, Asking, Waiting, Enabled, Step, Start;
    var s := Watching();
    WatchingIs();
    StartGood(PROBING, HOME, PROXIES);
    XtrProbing.StartPairs(PROBING, HOME, PROXIES);
    TickBegins();
    var f, g := Fire(4098, 1, true), Fire(4100, 2, true);
    AskingStep(0, 4098);
    AskingStep(1, 4100);
    TickOver();
    RunOne(s, BeginTick);
    RunOne(Asking(0), f);
    RunOne(Asking(1), g);
    RunOne(Asking(2), EndTick);
    RunThen(s, [BeginTick], Asking(0), [f], Asking(1));
    RunThen(s, [BeginTick] + [f], Asking(1), [g], Asking(2));
    es := [BeginTick] + [f] + [g] + [EndTick];
    RunThen(s, [BeginTick] + [f] + [g], Asking(2), [EndTick], Waiting());
  }

  lemma TickBegins()
    requires Good(Watching()) && XtrProbing.PairsOk(Watching())
    ensures Enabled(Watching(), BeginTick) && Step(Watching(), BeginTick) == Asking(0)
    ensures Good(Asking(0)) && XtrProbing.PairsOk(Asking(0))
  {
    hide Base, XtrMisses.MissesOk, XtrProbing.PairsOk;
    StepGood(Watching(), BeginTick);
    XtrProbing.StepPairsIff(Watching(), BeginTick);
  }

  lemma TickOver()
    requires Good(Asking(2)) && XtrProbing.PairsOk(Asking(2))
    ensures Enabled(Asking(2), EndTick) && Step(Asking(2), EndTick) == Waiting()
    ensures Good(Waiting()) && XtrProbing.PairsOk(Waiting())
  {
    hide Base, XtrMisses.MissesOk, XtrProbing.PairsOk;
    StepGood(Asking(2), EndTick);
    XtrProbing.StepPairsIff(Asking(2), EndTick);
  }

  /**
    Two proxies are probed in the first tick; then a reply to the probe of the first comes from the
    address of the second. Before it each locator has its probe timer, afterwards no longer.
   */
  lemma OtherAddressRun() returns (es: seq<Event>)
    ensures RunFrom(PROBING, HOME, PROXIES, es, Waiting()) && Good(Waiting()) && XtrProbing.PairsOk(Waiting())
    ensures var e := Probed(1, Some(Record(HOME, 0, [])), 20);
            Enabled(Waiting(), e) && !XtrProbing.PairsOk(Step(Waiting(), e))
  {
    hide Base, XtrMisses.MissesOk, RunFrom, XtrProbing.PairsOk, ProbeReply;
    es := WaitingReached();
    SecondFound();
    BaseFacts(Waiting());
    assert TimerOfNonce(Waiting().reg, 1) == 4098;
    XtrProbing.ProbeReplyPairsIff(Waiting(), 1, Record(HOME, 0, []), 20);
  }

  lemma SecondFound()
    ensures FindByAddr(LOCATORS, 20) == Some(2)
  {
    assert LOCATORS[1..][0] == LOCATORS[1];
  }

  // ---------- a Map-Reply with the nonce of a probe ----------

  const WATCHED := Record(FAR, 1, [(10, true)])

  /** The state after a reply with one locator to the miss, which is then probed every tick. */
  function Learned(): Xtr {
    Xtr(PROBING,
        Registry(map[4101 := TimerRec(Expiry, 4099, 0, None), 4103 := TimerRec(Probing, 4099, 4100, Some(4104))],
                 map[4104 := NonceList([], 4103)], map[], map[4099 := [4103, 4101]], map[4101 := 60, 4103 := 1]),
        map[FAR := 4099],
        map[0 := Entry(HOME, true, 0, []), 4099 := Entry(FAR, true, 1, [Loc(4100, 10, true)])], 0, false, 4105, {1},
        ANSWERED)
  }

  /** The same before the locator is probed. */
  function Unwatched(): Xtr {
    Learned().(reg := Registry(map[4101 := TimerRec(Expiry, 4099, 0, None)], map[], map[], map[4099 := [4101]], map[4101 := 60]),
               heap := 4103)
  }

  lemma UnwatchedIs()
    ensures AddMapping(Cleared(PROBING), WATCHED) == ProgramProbing(Unwatched(), 4099)
  {
    hide ProgramProbing, Create;
    var x := Cleared(PROBING);
    assert MakeLocs(WATCHED.addrs, 4100) == [Loc(4100, 10, true)];
    FirstCreated(4101, TimerRec(Expiry, 4099, 0, None));
    var z := x.(entries := Learned().entries, cache := Learned().cache, heap := 4101);
    assert x.entries[4099 := Entry(FAR, true, 1, [Loc(4100, 10, true)])] == z.entries && x.cache[FAR := 4099] == z.cache;
    assert StartExpiry(z, 4099) == Unwatched();
  }

  lemma LearnedIs()
    ensures AddMapping(Cleared(PROBING), WATCHED) == Learned()
  {
    UnwatchedIs();
    hide AddMapping;
    var x, locs := Unwatched(), [Loc(4100, 10, true)];
    assert StopKind(x.reg, 4099, Probing) == x.reg by { ExpiryKept(); }
    var y := ProbeLocator(x, 4099, 4100);
    assert [4103] + [4101] == [4103, 4101];
    assert y.reg == Learned().reg;
    assert locs[1..] == [];
    assert ProbeLocators(x, 4099, locs) == ProbeLocators(y, 4099, []);
  }

  lemma ExpiryKept()
    ensures StopKind(Unwatched().reg, 4099, Probing) == Unwatched().reg
  {
    var r := Unwatched().reg;
    assert OfKind(r, 4099, Probing) == {};
    assert Others(r.timers, [4101], Probing) == [4101] by { assert [4101] + [] == [4101]; }
    assert r.index[4099 := [4101]] == r.index;
    assert Purge(r, {}) == r;
  }

  /** The router in its first tick, before and after the probe is sent. */
  function Probes(sent: bool): Xtr {
    Learned().(now := 1, ticking := true, used := if sent then {1, 2} else {1}, reg := if sent then ProbedReg() else Learned().reg)
  }

  function ProbedReg(): Registry {
    Learned().reg.(lists := map[4104 := NonceList([2], 4103)], table := map[2 := 4104], alarms := map[4101 := 60, 4103 := 6])
  }

  lemma ProbeSent()
    ensures HasList(Expired(Probes(false), 4103).reg, 4103)
    ensures ProbeCallback(Expired(Probes(false), 4103), 4103, 2, true) == Probes(true)
  {
    var y := ProbeCallback(Expired(Probes(false), 4103), 4103, 2, true);
    assert [] + [2] == [2];
    assert y.reg.lists == Probes(true).reg.lists;
    assert y.reg.table == Probes(true).reg.table;
    assert y.reg.alarms == Probes(true).reg.alarms;
    assert y.used == Probes(true).used;
  }

  /** The router after that tick. */
  function Pending(): Xtr {
    Probes(true).(ticking := false)
  }

  lemma PendingReached() returns (es: seq<Event>)
    requires Good(Learned())
    ensures RunOf(Learned(), es, Pending()) && Good(Pending())
  {
    hide Base, XtrMisses.MissesOk, RunOf, ProbeCallback;
    var x, a, b, fire := Learned(), Probes(false), Probes(true), Fire(4103, 2, true);
    StepGood(x, BeginTick);
    RunOne(x, BeginTick);
    assert Step(x, BeginTick) == a;
    FireReady(a, 4103);
    ProbeSent();
    StepGood(a, fire);
    assert Step(a, fire) == b;
    RunOne(a, fire);
    StepGood(b, EndTick);
    RunOne(b, EndTick);
    RunThen(x, [BeginTick], a, [fire], b);
    es := [BeginTick] + [fire] + [EndTick];
    RunThen(x, [BeginTick] + [fire], b, [EndTick], Pending());
  }

  /**
    A locator is learned and probed in the next tick; then a plain Map-Reply for the same prefix
    bears the nonce of the probe: its own update frees the timer that it stops in the end.
   */
  lemma StoppedTwiceRun() returns (es: seq<Event>)
    ensures RunFrom(PROBING, HOME, [], es, Pending()) && Good(Pending()) && 2 in Pending().reg.table
    ensures (BaseFacts(Pending());
             && !SafeReply(Pending(), 2, [WATCHED]) && TimerOfNonce(Pending().reg, 2) in Pending().reg.timers
             && TimerOfNonce(Pending().reg, 2) !in UpdateMapping(Pending(), WATCHED).reg.timers)
  {
    hide Base, XtrMisses.MissesOk, RunOf, AddMapping, UpdateMapping;
    StartGood(PROBING, HOME, []);
    MissAnswered(PROBING, WATCHED);
    LearnedIs();
    var first := [Missed(FAR, 1, true)] + [Reply(1, [WATCHED], true)];
    var rest := PendingReached();
    es := first + rest;
    RunThen(Start(PROBING, HOME, []), first, Learned(), rest, Pending());
    BaseFacts(Pending());
    assert TimerOfNonce(Pending().reg, 2) == 4103;
    XtrMismatch.StoppedTwiceIff(Pending(), 2, [WATCHED]);
  }
}
