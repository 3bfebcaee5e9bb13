/**
  Whole runs of the Map-Server on the timer wheel: a Map-Register is a script of wheel commands, a
  tick of the wheel is a tick of the Map-Server, and any sequence of both keeps the two in step.
 */
module MapServerDaemon {
  import opened Options
  import opened Prefixes
  import opened RegistrySpec
  import opened MapServerSpec
  import opened MapServerRuns
  import opened MapServerWheel
  import WheelScripts
  import W = WheelSpec
  import WheelRuns

  /** Addresses below WHEEL_SIZE are the list heads of the wheel. */
  ghost predicate Roomy(ms: Ms) {
    ms.heap >= W.WHEEL_SIZE
  }

  ghost predicate Leads(w: W.Wheel, cs: seq<W.Command>, ms: Ms) {
    W.Inv(w) && W.LegalScript(cs, w.live) && Seen(W.DoAll(w, cs), ms)
  }

  lemma Then(w: W.Wheel, cs: seq<W.Command>, ds: seq<W.Command>, ms: Ms, ms': Ms)
    requires Leads(w, cs, ms) && Leads(W.DoAll(w, cs), ds, ms')
    ensures Leads(w, cs + ds, ms')
  {
    hide W.Inv, W.DoAll, W.LegalScript, Seen;
    WheelScripts.DoAllConcat(w, cs, ds);
  }

  lemma Nothing(w: W.Wheel, ms: Ms)
    requires Seen(w, ms)
    ensures Leads(w, [], ms)
  {
    hide W.Inv;
  }

  // ---------- one record ----------

  lemma StartLeads(w: W.Wheel, ms: Ms, ms': Ms, t: Timer)
    requires Seen(w, ms) && t in ms.reg.timers && ms'.reg.timers.Keys == ms.reg.timers.Keys
    requires ms'.reg.alarms == ms.reg.alarms[t := ms.now + W.FiringDelay(LEASE, ms.ticking)]
    requires ms'.now == ms.now && ms'.ticking == ms.ticking
    ensures Leads(w, [W.Start(t, LEASE)], ms')
  {
    hide W.Inv, W.StartTimer, WheelRuns.Alarms, W.FiringDelay;
    var c := W.Start(t, LEASE);
    assert W.Legal(c, w.live);
    WheelRuns.DoAllOne(w, c);
    WheelRuns.StartSetsAlarm(w, t, LEASE);
    W.DoKeepsClock(w, c);
  }

  lemma CreateLeads(w: W.Wheel, ms: Ms, ms': Ms, t: Timer)
    requires Seen(w, ms) && t !in ms.reg.timers && t >= W.WHEEL_SIZE
    requires ms'.reg.timers.Keys == ms.reg.timers.Keys + {t} && ms'.reg.alarms == ms.reg.alarms
    requires ms'.now == ms.now && ms'.ticking == ms.ticking
    ensures Leads(w, [W.Create(t)], ms')
  {
    hide W.Inv, W.CreateTimer, WheelRuns.Alarms;
    assert W.Legal(W.Create(t), w.live);
    WheelRuns.DoAllOne(w, W.Create(t));
    WheelScripts.CreatedSame(w, t);
  }

  lemma RenewLeads(w: W.Wheel, ms: Ms, statics: set<Prefix>, site: Prefix, proxy: bool, rec: Record)
      returns (cs: seq<W.Command>)
    requires Seen(w, ms) && Good(ms, statics) && site in ms.sites && rec.eid in ms.db && rec.eid !in statics
    ensures ms.db[rec.eid] in ms.rsites && Leads(w, cs, Register(ms, site, proxy, rec))
  {
    hide Good, Seen, Only, WheelRuns.Alarms, W.FiringDelay, SitesOk;
    LeaseExists(ms, statics, rec.eid);
    var o := ms.db[rec.eid];
    var t := ms.rsites[o].lease.value;
    OneTimer(ms, statics, o);
    cs := [W.Start(t, LEASE)];
    StartLeads(w, ms, Register(ms, site, proxy, rec), t);
  }

  lemma NewLeads(w: W.Wheel, ms: Ms, statics: set<Prefix>, site: Prefix, proxy: bool, rec: Record)
      returns (cs: seq<W.Command>)
    requires Seen(w, ms) && Good(ms, statics) && Roomy(ms) && site in ms.sites && rec.eid !in ms.db
    ensures Leads(w, cs, Register(ms, site, proxy, rec))
  {
    hide Good, Seen, W.FiringDelay, W.DoAll, W.LegalScript, Leads;
    var o, t := ms.heap, ms.heap + 1;
    var mid := ms.(reg := Create(ms.reg, t, TimerRec(SiteExpiry, o, 0, None)));
    NewUnused(ms, statics);
    CreateLeads(w, ms, mid, t);
    var c, d := [W.Create(t)], [W.Start(t, LEASE)];
    LeadsSeen(w, c, mid);
    StartLeads(W.DoAll(w, c), mid, Register(ms, site, proxy, rec), t);
    cs := c + d;
    Then(w, c, d, mid, Register(ms, site, proxy, rec));
  }

  lemma NewUnused(ms: Ms, statics: set<Prefix>)
    requires Good(ms, statics)
    ensures ms.heap + 1 !in ms.reg.timers
  {}

  lemma RegisterLeads(w: W.Wheel, ms: Ms, statics: set<Prefix>, site: Prefix, proxy: bool, rec: Record)
      returns (cs: seq<W.Command>)
    requires Seen(w, ms) && Good(ms, statics) && Roomy(ms) && site in ms.sites && rec.eid !in statics
    ensures rec.eid in ms.db ==> ms.db[rec.eid] in ms.rsites
    ensures Leads(w, cs, Register(ms, site, proxy, rec)) && Roomy(Register(ms, site, proxy, rec))
  {
    hide Good, Seen, Register, Leads;
    GoodLinked(ms, statics);
    RegisterRoom(ms, site, proxy, rec);
    if rec.eid in ms.db {
      cs := RenewLeads(w, ms, statics, site, proxy, rec);
    } else {
      cs := NewLeads(w, ms, statics, site, proxy, rec);
    }
  }

  lemma RegisterRoom(ms: Ms, site: Prefix, proxy: bool, rec: Record)
    requires site in ms.sites && (rec.eid in ms.db ==> ms.db[rec.eid] in ms.rsites)
    ensures Register(ms, site, proxy, rec).heap >= ms.heap
  {}

  // ---------- a message ----------

  lemma {:induction false} ProcessLeads(w: W.Wheel, ms: Ms, statics: set<Prefix>, msg: Message, recs: seq<Record>,
                                        key: Option<string>) returns (cs: seq<W.Command>)
    requires Seen(w, ms) && Good(ms, statics) && Roomy(ms) && RecordsOk(recs)
    requires (GoodLinked(ms, statics); forall r :: r in Process(ms, msg, recs, key).taken ==> r.eid !in statics)
    ensures Linked(ms) && Leads(w, cs, Process(ms, msg, recs, key).ms) && Roomy(Process(ms, msg, recs, key).ms)
    decreases |recs|
  {
    hide Good, Seen, Judge, Register, SitesOk, NetworkPrefix, ValidPrefix, Roomy, Leads;
    GoodLinked(ms, statics);
    if recs == [] {
      cs := [];
      Nothing(w, ms);
    } else {
      var rec := Normal(recs[0]);
      match Judge(ms.sites, msg.auth, key, rec.eid)
      case Refused =>
        cs := [];
        Nothing(w, ms);
      case Skipped(k) =>
        cs := ProcessLeads(w, ms, statics, msg, recs[1..], k);
      case Taken(k, site) =>
        JudgeSite(ms.sites, msg.auth, key, rec.eid);
        assert rec in Process(ms, msg, recs, key).taken;
        var c := RegisterLeads(w, ms, statics, site, msg.proxy, rec);
        RegisterGood(ms, statics, site, msg.proxy, rec);
        var next := Register(ms, site, msg.proxy, rec);
        GoodLinked(next, statics);
        assert forall r :: r in Process(next, msg, recs[1..], Some(k)).taken ==> r in Process(ms, msg, recs, key).taken;
        LeadsSeen(w, c, next);
        var ds := ProcessLeads(W.DoAll(w, c), next, statics, msg, recs[1..], Some(k));
        cs := c + ds;
        Then(w, c, ds, next, Process(ms, msg, recs, key).ms);
    }
  }

  lemma LeadsSeen(w: W.Wheel, cs: seq<W.Command>, ms: Ms)
    requires Leads(w, cs, ms)
    ensures W.Inv(w) && W.LegalScript(cs, w.live) && Seen(W.DoAll(w, cs), ms)
  {
    hide W.Inv, W.DoAll, W.LegalScript, Seen;
  }

  /** A Map-Register moves the leases as some script of wheel commands moves the wheel. */
  lemma RegisterIsScript(w: W.Wheel, ms: Ms, statics: set<Prefix>, msg: Message) returns (cs: seq<W.Command>)
    requires Seen(w, ms) && Good(ms, statics) && Roomy(ms) && Enabled(ms, statics, Arrive(msg))
    ensures W.LegalScript(cs, w.live) && Seen(W.DoAll(w, cs), Step(ms, statics, Arrive(msg)))
    ensures Roomy(Step(ms, statics, Arrive(msg)))
  {
    hide Good, Seen, W.DoAll, W.LegalScript, Process, TakesNoStatic, Roomy;
    TakesNone(ms, statics, msg);
    cs := ProcessLeads(w, ms, statics, msg, msg.recs, None);
  }

  // ---------- runs ----------

  /** What comes from outside: a message, which may depend on the state, or a tick. */
  datatype Input = Registers(choose: Ms -> Message) | OneTick

  ghost predicate Plays(input: Input, statics: set<Prefix>) {
    input.Registers? ==>
      forall ms {:trigger input.choose(ms)} :: Good(ms, statics) && !ms.ticking ==>
        Enabled(ms, statics, Arrive(input.choose(ms)))
  }

  /** One given message, in every state in which it can come. */
  ghost function Try(msg: Message, statics: set<Prefix>): Input {
    Registers((ms: Ms) => if Good(ms, statics) && Enabled(ms, statics, Arrive(msg)) then msg
                          else Message([], true, _ => false, false, false))
  }

  /** So every sequence of single messages and ticks is a sequence of inputs. */
  lemma TryPlays(msg: Message, statics: set<Prefix>)
    ensures Plays(Try(msg, statics), statics)
    ensures forall ms :: Good(ms, statics) && Enabled(ms, statics, Arrive(msg)) ==> Try(msg, statics).choose(ms) == msg
  {
    hide Good;
    var choose := Try(msg, statics).choose;
    forall ms | Good(ms, statics) && !ms.ticking
      ensures Enabled(ms, statics, Arrive(choose(ms)))
    {}
  }

  ghost predicate Ready(w: W.Wheel, ms: Ms, statics: set<Prefix>) {
    Seen(w, ms) && Good(ms, statics) && Roomy(ms) && !ms.ticking
  }

  datatype Move = Move(told: WheelRuns.Event, events: seq<Event>, to: Ms)

  ghost predicate Answers(ms: Ms, input: Input, es: seq<Event>) {
    match input
    case Registers(choose) => es == [Arrive(choose(ms))]
    case OneTick =>
      |es| >= 2 && es[0] == BeginTick && es[|es| - 1] == EndTick && forall i :: 0 < i < |es| - 1 ==> es[i].Fire?
  }

  ghost predicate OneMove(w: W.Wheel, ms: Ms, statics: set<Prefix>, input: Input, m: Move)
    requires Ready(w, ms, statics)
  {
    && WheelRuns.Enabled(w, m.told) && (m.told.TickEvent? <==> input.OneTick?)
    && Answers(ms, input, m.events) && RunOf(ms, statics, m.events, m.to)
    && Ready(WheelRuns.Step(w, m.told), m.to, statics)
  }

  /** Wheel and Map-Server, move by move: after every input they are in step again. */
  ghost predicate InStep(w: W.Wheel, ms: Ms, statics: set<Prefix>, inputs: seq<Input>, moves: seq<Move>, w': W.Wheel, ms': Ms)
    requires Ready(w, ms, statics)
    decreases |moves|
  {
    && |moves| == |inputs|
    && if moves == [] then w' == w && ms' == ms
       else OneMove(w, ms, statics, inputs[0], moves[0])
            && InStep(WheelRuns.Step(w, moves[0].told), moves[0].to, statics, inputs[1..], moves[1..], w', ms')
  }

  lemma SeenFacts(w: W.Wheel, ms: Ms)
    requires Seen(w, ms)
    ensures W.Inv(w) && w.draining == ms.ticking
  {}

  lemma FiresRoomy(ms: Ms, statics: set<Prefix>, es: seq<Event>, ms': Ms)
    requires Good(ms, statics) && RunOf(ms, statics, es, ms') && forall i :: 0 <= i < |es| ==> !es[i].Arrive?
    ensures ms'.heap == ms.heap
    decreases |es|
  {
    hide Good, Enabled;
    if es != [] {
      StepGood(ms, statics, es[0]);
      StepRoom(ms, statics, es[0]);
      FiresRoomy(Step(ms, statics, es[0]), statics, es[1..], ms');
    }
  }

  lemma StepRoom(ms: Ms, statics: set<Prefix>, e: Event)
    requires Good(ms, statics) && Enabled(ms, statics, e) && !e.Arrive?
    ensures Step(ms, statics, e).heap == ms.heap
  {
    hide Good;
  }

  lemma PlayRegister(w: W.Wheel, ms: Ms, statics: set<Prefix>, input: Input) returns (m: Move)
    requires Ready(w, ms, statics) && Plays(input, statics) && input.Registers?
    ensures OneMove(w, ms, statics, input, m)
  {
    hide Good, Seen, Roomy, W.DoAll, W.LegalScript, RunOf, Enabled, Step;
    SeenFacts(w, ms);
    var e := Arrive(input.choose(ms));
    var cs := RegisterIsScript(w, ms, statics, e.msg);
    StepGood(ms, statics, e);
    RunOne(ms, statics, e);
    m := Move(WheelRuns.Script(cs), [e], Step(ms, statics, e));
    W.DoAllKeepsClock(w, cs);
    SeenFacts(W.DoAll(w, cs), m.to);
  }

  lemma PlayTick(w: W.Wheel, ms: Ms, statics: set<Prefix>) returns (m: Move)
    requires Ready(w, ms, statics)
    ensures OneMove(w, ms, statics, OneTick, m)
  {
    hide Good, Seen, W.Tick, W.WellBehaved, W.NeverArmsFullTurn, RunOf;
    SeenFacts(w, ms);
    var cb, fires, ms' := TickIsRun(w, ms, statics);
    m := Move(WheelRuns.TickEvent(cb), [BeginTick] + fires + [EndTick], ms');
    FiresRoomy(ms, statics, m.events, ms');
  }

  lemma {:induction false} PlayAll(w: W.Wheel, ms: Ms, statics: set<Prefix>, inputs: seq<Input>)
      returns (moves: seq<Move>, w': W.Wheel, ms': Ms)
    requires Ready(w, ms, statics) && forall i :: 0 <= i < |inputs| ==> Plays(inputs[i], statics)
    ensures InStep(w, ms, statics, inputs, moves, w', ms') && Ready(w', ms', statics)
    decreases |inputs|
  {
    hide Ready, Plays, OneMove, WheelRuns.Step, WheelRuns.Enabled, Good, RunOf, W.Inv;
    if inputs == [] {
      moves, w', ms' := [], w, ms;
    } else {
      assert Plays(inputs[0], statics);
      var m;
      if inputs[0].OneTick? { m := PlayTick(w, ms, statics); } else { m := PlayRegister(w, ms, statics, inputs[0]); }
      MoveReady(w, ms, statics, inputs[0], m);
      var rest;
      rest, w', ms' := PlayAll(WheelRuns.Step(w, m.told), m.to, statics, inputs[1..]);
      moves := [m] + rest;
      assert moves[1..] == rest;
    }
  }

  lemma MoveReady(w: W.Wheel, ms: Ms, statics: set<Prefix>, input: Input, m: Move)
    requires Ready(w, ms, statics) && OneMove(w, ms, statics, input, m)
    ensures W.Inv(w) && !w.draining && Good(ms, statics) && WheelRuns.Enabled(w, m.told)
    ensures RunOf(ms, statics, m.events, m.to) && Ready(WheelRuns.Step(w, m.told), m.to, statics) && Good(m.to, statics)
  {
    hide Good, RunOf, WheelRuns.Step, WheelRuns.Enabled, Answers, WheelRuns.Alarms, W.Inv;
  }

  function Told(moves: seq<Move>): (r: seq<WheelRuns.Event>)
    ensures |r| == |moves| && forall i :: 0 <= i < |moves| ==> r[i] == moves[i].told
  {
    seq(|moves|, i requires 0 <= i < |moves| => moves[i].told)
  }

  function Events(moves: seq<Move>): seq<Event> {
    if moves == [] then [] else moves[0].events + Events(moves[1..])
  }

  lemma {:induction false} InStepRuns(w: W.Wheel, ms: Ms, statics: set<Prefix>, inputs: seq<Input>, moves: seq<Move>,
                                      w': W.Wheel, ms': Ms)
    requires Ready(w, ms, statics) && InStep(w, ms, statics, inputs, moves, w', ms')
    ensures W.Inv(w) && !w.draining && WheelRuns.RunOf(w, Told(moves), w')
    ensures Good(ms, statics) && RunOf(ms, statics, Events(moves), ms')
    decreases |moves|
  {
    hide Ready, OneMove, WheelRuns.Step, WheelRuns.Enabled, Good, W.Inv, Enabled, Step;
    ReadyFacts(w, ms, statics);
    if moves != [] {
      var m := moves[0];
      MoveReady(w, ms, statics, inputs[0], m);
      InStepRuns(WheelRuns.Step(w, m.told), m.to, statics, inputs[1..], moves[1..], w', ms');
      assert Told(moves)[1..] == Told(moves[1..]);
      RunThen(ms, statics, m.events, m.to, Events(moves[1..]), ms');
    }
  }

  lemma ReadyFacts(w: W.Wheel, ms: Ms, statics: set<Prefix>)
    requires Ready(w, ms, statics)
    ensures W.Inv(w) && !w.draining && Good(ms, statics) && Seen(w, ms)
  {
    hide W.Inv, Good, WheelRuns.Alarms;
  }

  lemma StartReady(ms: Ms, statics: set<Prefix>)
    requires Configured(ms, statics) && Roomy(ms)
    ensures Ready(W.Initial(), ms, statics)
  {
    hide Good, SitesOk, DbOk, W.Inv, WheelRuns.Alarms;
    ConfiguredGood(ms, statics);
    InitialAlarms();
  }

  lemma InitialAlarms()
    ensures W.Inv(W.Initial()) && WheelRuns.Alarms(W.Initial()) == map[]
  {}

  /**
    From any configuration, for every sequence of Map-Registers and ticks: the wheel has a run, and
    the Map-Server one of its own, in which each message is one script on the wheel and each tick of
    the wheel one whole tick of the Map-Server; after every single input both have the same timers,
    alarms and clock.
   */
  lemma DaemonRun(start: Ms, statics: set<Prefix>, inputs: seq<Input>) returns (moves: seq<Move>, w: W.Wheel, ms: Ms)
    requires Configured(start, statics) && Roomy(start)
    requires forall i :: 0 <= i < |inputs| ==> Plays(inputs[i], statics)
    ensures Ready(W.Initial(), start, statics) && InStep(W.Initial(), start, statics, inputs, moves, w, ms)
    ensures WheelRuns.RunOf(W.Initial(), Told(moves), w)
    ensures Good(start, statics) && RunOf(start, statics, Events(moves), ms) && Seen(w, ms)
  {
    hide Ready, InStep, Plays, WheelRuns.RunOf, RunOf, Seen, Good, Configured;
    StartReady(start, statics);
    moves, w, ms := PlayAll(W.Initial(), start, statics, inputs);
    InStepRuns(W.Initial(), start, statics, inputs, moves, w, ms);
    ReadyFacts(w, ms, statics);
  }
}
