/**
  Whole runs of the daemon: the timer wheel and the tunnel router on it. What comes from outside is a
  sequence of inputs, each a message or a tick, that may depend on the state the router is in; the
  wheel decides which timers fire and in which order.
 */
module XtrDaemon {
  import opened Options
  import opened RegistrySpec
  import opened XtrSpec
  import opened XtrInvariant
  import opened XtrRuns
  import opened XtrTheorems
  import opened XtrWheel
  import opened XtrScripts
  import XtrExpiry
  import XtrMisses
  import XtrProbing
  import W = WheelSpec
  import WheelRuns

  datatype Input = Message(choose: Xtr -> Event) | TickWith(env: Env)

  predicate IsMessage(e: Event) {
    e.Missed? || e.Solicited? || e.Reply? || e.Probed?
  }

  /** No interval with which a probe timer is armed is a whole turn of the wheel. */
  predicate Partial(cfg: Config) {
    cfg.probeInterval % W.WHEEL_SIZE != 0 && cfg.probeRetryInterval % W.WHEEL_SIZE != 0
  }

  /** A probe reply by which a locator is found, marked and probed anew. */
  predicate Confirms(x: Xtr, e: Event) {
    && e.Probed? && e.rec.Some? && ProbedEntry(x, e.rec.value.eid).Some?
    && ProbedEntry(x, e.rec.value.eid).value in x.entries
    && FindByAddr(x.entries[ProbedEntry(x, e.rec.value.eid).value].locs, e.addr).Some?
  }

  /** The message has no timer armed for a whole turn later: either none is, or there is no probing at all. */
  predicate NoTurn(x: Xtr, e: Event) {
    Partial(x.cfg) || (x.cfg.probeInterval == 0 && !Confirms(x, e))
  }

  ghost predicate Plays(input: Input, cfg: Config) {
    match input
    case Message(choose) =>
      forall x {:trigger choose(x)} :: Good(x) && !x.ticking && x.cfg == cfg ==>
        var e := choose(x); IsMessage(e) && Enabled(x, e) && NoTurn(x, e)
    case TickWith(env) => Draws(env)
  }

  /** One given event, in every state in which it can come. */
  ghost function Try(e: Event): Input {
    Message((x: Xtr) => if Good(x) && IsMessage(e) && Enabled(x, e) && NoTurn(x, e) then e else Probed(0, None, 0))
  }

  /** So every sequence of single messages and ticks is a sequence of inputs. */
  lemma TryPlays(e: Event, cfg: Config)
    requires Partial(cfg) || cfg.probeInterval == 0
    ensures Plays(Try(e), cfg)
    ensures forall x :: Good(x) && IsMessage(e) && Enabled(x, e) && NoTurn(x, e) ==> Try(e).choose(x) == e
  {
    hide Good;
    var choose := Try(e).choose;
    forall x | Good(x) && !x.ticking && x.cfg == cfg
      ensures var e := choose(x); IsMessage(e) && Enabled(x, e) && NoTurn(x, e)
    {}
  }

  // ---------- in step ----------

  ghost predicate Ready(w: W.Wheel, x: Xtr) {
    Seen(w, x) && Good(x) && Roomy(x) && NoWholeTurns(x) && !x.ticking
  }

  /** One input: what the wheel is told, the events of the router, and the state it is in then. */
  datatype Move = Move(told: WheelRuns.Event, events: seq<Event>, to: Xtr)

  /** The events of the router are those of the input. */
  ghost predicate Answers(x: Xtr, input: Input, es: seq<Event>)
    requires Good(x) && !x.ticking
  {
    match input
    case Message(choose) => es == [choose(x)]
    case TickWith(env) =>
      && |es| >= 2 && es[0] == BeginTick && es[|es| - 1] == EndTick
      && (StepGood(x, BeginTick); Follows(Step(x, BeginTick), es[1..|es| - 1], env))
  }

  ghost predicate OneMove(w: W.Wheel, x: Xtr, input: Input, m: Move)
    requires Ready(w, x)
  {
    && WheelRuns.Enabled(w, m.told) && (m.told.TickEvent? <==> input.TickWith?)
    && Answers(x, input, m.events) && RunOf(x, m.events, m.to) && Ready(WheelRuns.Step(w, m.told), m.to)
  }

  /** Wheel and router, move by move: after every input they are in step again. */
  ghost predicate InStep(w: W.Wheel, x: Xtr, inputs: seq<Input>, moves: seq<Move>, w': W.Wheel, x': Xtr)
    requires Ready(w, x)
    decreases |moves|
  {
    && |moves| == |inputs|
    && if moves == [] then w' == w && x' == x
       else OneMove(w, x, inputs[0], moves[0])
            && InStep(WheelRuns.Step(w, moves[0].told), moves[0].to, inputs[1..], moves[1..], w', x')
  }

  // ---------- no whole turns ----------

  ghost predicate NoNewProbes(x: Xtr, y: Xtr) {
    y.cfg == x.cfg && forall t :: IsKind(y.reg.timers, t, Probing) ==> IsKind(x.reg.timers, t, Probing)
  }

  lemma TurnsKept(x: Xtr, y: Xtr)
    requires NoWholeTurns(x) && NoNewProbes(x, y)
    ensures NoWholeTurns(y)
  {}

  lemma NoNewTrans(x: Xtr, y: Xtr, z: Xtr)
    requires NoNewProbes(x, y) && NoNewProbes(y, z)
    ensures NoNewProbes(x, z)
  {}

  lemma NewTimerNone(x: Xtr, kind: Kind, obj: Obj, part: int)
    requires kind != Probing
    ensures NoNewProbes(x, NewTimer(x, kind, obj, part))
  {}

  lemma RetryNone(x: Xtr, t: Timer, limit: int, timeout: int, n: Nonce, sent: bool)
    requires HasList(x.reg, t) && x.reg.timers[t].obj in x.entries
    ensures NoNewProbes(x, RetryCallback(x, t, limit, timeout, n, sent))
  {
    hide AddNonce, TimersOf, Belongs;
    NoncesOnly(x.reg, n, x.reg.timers[t].nonces.value);
  }

  lemma RemoveNone(x: Xtr, m: Obj, ending: Ending)
    requires m in x.entries
    ensures NoNewProbes(x, RemoveEntry(x, m, ending))
  {
    hide TimersOf, Belongs;
  }

  /** Without probing, a refresh makes an expiry timer and nothing else. */
  lemma RefreshNone(x: Xtr, m: Obj)
    requires m in x.entries && x.cfg.probeInterval == 0
    ensures m in StartExpiry(x, m).entries && NoNewProbes(x, ProgramProbing(StartExpiry(x, m), m))
  {}

  lemma {:induction false} AddMappingsNone(x: Xtr, recs: seq<Record>)
    requires x.cfg.probeInterval == 0
    ensures NoNewProbes(x, AddMappings(x, recs))
    decreases |recs|
  {
    hide AddMapping, NoNewProbes;
    if recs == [] {
      SameNone(x, x);
    } else {
      AddMappingNone(x, recs[0]);
      NoNewConfig(x, AddMapping(x, recs[0]));
      AddMappingsNone(AddMapping(x, recs[0]), recs[1..]);
      NoNewTrans(x, AddMapping(x, recs[0]), AddMappings(x, recs));
    }
  }

  lemma SameNone(x: Xtr, y: Xtr)
    requires y.cfg == x.cfg && y.reg.timers == x.reg.timers
    ensures NoNewProbes(x, y)
  {}

  lemma NoNewConfig(x: Xtr, y: Xtr)
    requires NoNewProbes(x, y)
    ensures y.cfg == x.cfg
  {}

  lemma AddMappingNone(x: Xtr, rec: Record)
    requires x.cfg.probeInterval == 0
    ensures NoNewProbes(x, AddMapping(x, rec))
  {
    hide StartExpiry, ProgramProbing, NoNewProbes;
    var m := x.heap;
    var e := Entry(rec.eid, true, rec.ttl, MakeLocs(rec.addrs, m + 1));
    var y := x.(entries := x.entries[m := e], cache := if rec.eid in x.cache then x.cache else x.cache[rec.eid := m],
                heap := x.heap + 1 + |rec.addrs|);
    RefreshNone(y, m);
    SameNone(x, y);
    NoNewTrans(x, y, AddMapping(x, rec));
  }

  lemma UpdateNone(x: Xtr, rec: Record)
    requires x.cfg.probeInterval == 0 && forall e :: e in x.cache ==> x.cache[e] in x.entries
    ensures NoNewProbes(x, UpdateMapping(x, rec))
  {
    hide StartExpiry, ProgramProbing, NoNewProbes;
    SameNone(x, x);
    if rec.eid in x.cache {
      var m := x.cache[rec.eid];
      var y := x.(entries := x.entries[m := x.entries[m].(locs := MakeLocs(rec.addrs, x.heap))], heap := x.heap + |rec.addrs|);
      RefreshNone(y, m);
      SameNone(x, y);
      NoNewTrans(x, y, UpdateMapping(x, rec));
    }
  }

  lemma StopOneNone(x: Xtr, o: Obj, t: Timer)
    ensures NoNewProbes(x, x.(reg := StopOne(x.reg, o, t)))
  {}

  lemma ReplyNone(x: Xtr, n: Nonce, recs: seq<Record>, complete: bool)
    requires Base(x) && x.cfg.probeInterval == 0
    ensures (BaseFacts(x); NoNewProbes(x, MapReply(x, n, recs, complete).0))
  {
    hide Base, Inv, AddMappings, UpdateMapping, RemoveEntry, StopOne, NoNewProbes;
    BaseFacts(x);
    SameNone(x, x);
    if n in x.reg.table {
      var t := TimerOfNonce(x.reg, n);
      var m := x.reg.timers[t].obj;
      if !x.entries[m].active {
        var y := RemoveEntry(x, m, Answered(x.now));
        RemoveNone(x, m, Answered(x.now));
        NoNewConfig(x, y);
        AddMappingsNone(y, recs);
        NoNewTrans(x, y, AddMappings(y, recs));
      } else if recs != [] {
        var y := UpdateMapping(x, recs[0]);
        UpdateNone(x, recs[0]);
        StopOneNone(y, m, t);
        NoNewTrans(x, y, y.(reg := StopOne(y.reg, m, t)));
      }
    }
  }

  lemma ProbedNone(x: Xtr, n: Nonce, rec: Option<Record>, addr: int)
    requires Base(x) && !Confirms(x, Probed(n, rec, addr))
    ensures (BaseFacts(x); NoNewProbes(x, ProbeReply(x, n, rec, addr).0))
  {
    hide Base, Inv, StopOne, FindByAddr, NoNewProbes, Silence;
    BaseFacts(x);
    SameNone(x, x);
    if n in x.reg.table && rec.Some? && ProbedEntry(x, rec.value.eid).Some? {
      var t, m := TimerOfNonce(x.reg, n), ProbedEntry(x, rec.value.eid).value;
      var y := x.(reg := StopOne(x.reg, m, t));
      StopOneNone(x, m, t);
      SameNone(y, ProbeReply(x, n, rec, addr).0);
      NoNewTrans(x, y, ProbeReply(x, n, rec, addr).0);
    }
  }

  lemma MissNone(x: Xtr, eid: Eid, n: Nonce, sent: bool)
    ensures NoNewProbes(x, CacheMiss(x, eid, n, sent))
  {
    hide RetryCallback, NoNewProbes, CacheMiss;
    var v := Placed(x, eid);
    PlacedTimer(x, eid, n, sent);
    PlacedNone(x, eid);
    RetryNone(v, x.heap + 1, x.cfg.requestRetries, MRQ_TIMEOUT, n, sent);
    NoNewTrans(x, v, CacheMiss(x, eid, n, sent));
  }

  lemma PlacedNone(x: Xtr, eid: Eid)
    ensures NoNewProbes(x, Placed(x, eid))
  {}

  lemma SolicitedNone(x: Xtr, m: Obj, n: Nonce, sent: bool)
    requires m in x.entries
    ensures NoNewProbes(x, SolicitedRequest(x, m, n, sent))
  {
    hide RetryCallback, NoNewProbes;
    var y := NewTimer(x, SmrRetry, m, 0);
    NewTimerNone(x, SmrRetry, m, 0);
    RetryNone(y, x.heap, MAX_SMR_RETRANSMIT, SMR_TIMEOUT, n, sent);
    NoNewTrans(x, y, SolicitedRequest(x, m, n, sent));
  }

  lemma MessageTurns(x: Xtr, e: Event)
    requires Good(x) && IsMessage(e) && Enabled(x, e) && NoTurn(x, e) && NoWholeTurns(x)
    ensures NoWholeTurns(Step(x, e))
  {
    hide Base, XtrMisses.MissesOk, SafeReply, OwnEntry, CacheMiss, SolicitedRequest, MapReply, ProbeReply, NoNewProbes,
      Confirms, NoWholeTurns;
    BaseFacts(x);
    var y := Step(x, e);
    if Partial(x.cfg) {
      XtrProbing.StepConfig(x, e);
      PartialTurns(y);
    } else {
      match e {
        case Missed(eid, n, sent) => MissNone(x, eid, n, sent);
        case Solicited(m, n, sent) => SolicitedNone(x, m, n, sent);
        case Reply(n, recs, complete) => ReplyNone(x, n, recs, complete);
        case Probed(n, rec, addr) => ProbedNone(x, n, rec, addr);
      }
      TurnsKept(x, y);
    }
  }

  lemma PartialTurns(x: Xtr)
    requires Partial(x.cfg)
    ensures NoWholeTurns(x)
  {}

  // ---------- the moves ----------

  lemma {:induction false} RunRoomy(x: Xtr, es: seq<Event>, y: Xtr)
    requires Good(x) && RunOf(x, es, y) && Roomy(x)
    ensures Roomy(y) && y.cfg == x.cfg
    decreases |es|
  {
    hide Good, Enabled, Step, XtrExpiry.StillCached, XtrExpiry.NewlyCached;
    if es != [] {
      StepGood(x, es[0]);
      XtrExpiry.StepKeeps(x, es[0]);
      XtrProbing.StepConfig(x, es[0]);
      RunRoomy(Step(x, es[0]), es[1..], y);
    }
  }

  lemma ScriptStep(w: W.Wheel, cs: seq<W.Command>)
    requires W.Inv(w) && !w.draining && W.LegalScript(cs, w.live)
    ensures WheelRuns.Enabled(w, WheelRuns.Script(cs)) && WheelRuns.Step(w, WheelRuns.Script(cs)) == W.DoAll(w, cs)
  {}

  lemma TickStep(w: W.Wheel, cb: W.Callback)
    requires W.Inv(w) && !w.draining && W.WellBehaved(cb) && W.NeverArmsFullTurn(cb)
    ensures WheelRuns.Enabled(w, WheelRuns.TickEvent(cb)) && WheelRuns.Step(w, WheelRuns.TickEvent(cb)) == W.Tick(w, cb)
  {}

  lemma SeenFacts(w: W.Wheel, x: Xtr)
    requires Seen(w, x)
    ensures W.Inv(w) && w.draining == x.ticking && w.now == x.now
  {}

  /** Every input moves wheel and router on together. */
  lemma PlayOne(w: W.Wheel, x: Xtr, input: Input) returns (m: Move)
    requires Ready(w, x) && Plays(input, x.cfg)
    ensures OneMove(w, x, input, m) && m.to.cfg == x.cfg
  {
    hide Good, Seen, Roomy, NoWholeTurns, Plays, RunOf, Answers, W.DoAll, W.Tick, WheelRuns.Step, WheelRuns.Enabled;
    SeenFacts(w, x);
    match input {
      case Message(choose) =>
        var cs;
        cs, m := PlayMessage(w, x, choose);
        ScriptStep(w, cs);
      case TickWith(env) =>
        var cb;
        cb, m := PlayTick(w, x, env);
        TickStep(w, cb);
    }
    RunRoomy(x, m.events, m.to);
  }

  lemma PlayMessage(w: W.Wheel, x: Xtr, choose: Xtr -> Event) returns (cs: seq<W.Command>, m: Move)
    requires Ready(w, x) && Plays(Message(choose), x.cfg)
    ensures m.told == WheelRuns.Script(cs) && W.LegalScript(cs, w.live) && Seen(W.DoAll(w, cs), m.to)
    ensures Answers(x, Message(choose), m.events) && RunOf(x, m.events, m.to)
    ensures Good(m.to) && NoWholeTurns(m.to) && !m.to.ticking
  {
    hide Good, NoWholeTurns, RunOf, Roomy, W.DoAll, W.LegalScript, Enabled, Step, NoTurn, Seen;
    var e := choose(x);
    cs := EventIsScript(w, x, e);
    m := Move(WheelRuns.Script(cs), [e], Step(x, e));
    StepGood(x, e);
    RunOne(x, e);
    MessageTurns(x, e);
    MessagePhase(w, x, cs, m.to);
  }

  lemma MessagePhase(w: W.Wheel, x: Xtr, cs: seq<W.Command>, y: Xtr)
    requires Seen(w, x) && W.LegalScript(cs, w.live) && Seen(W.DoAll(w, cs), y)
    ensures y.ticking == x.ticking
  {
    hide W.Inv, W.LegalScript, W.DoAll, WheelRuns.Alarms;
    W.DoAllKeepsClock(w, cs);
  }

  lemma PlayTick(w: W.Wheel, x: Xtr, env: Env) returns (cb: W.Callback, m: Move)
    requires Ready(w, x) && Plays(TickWith(env), x.cfg)
    ensures m.told == WheelRuns.TickEvent(cb) && W.WellBehaved(cb) && W.NeverArmsFullTurn(cb) && Seen(W.Tick(w, cb), m.to)
    ensures Answers(x, TickWith(env), m.events) && RunOf(x, m.events, m.to)
    ensures Good(m.to) && NoWholeTurns(m.to) && !m.to.ticking
  {
    hide Good, NoWholeTurns, RunOf, Draws, Step, Follows, W.Tick, W.WellBehaved, W.NeverArmsFullTurn, Roomy, Seen;
    SeenFacts(w, x);
    var fires, y;
    cb, fires, y := TickIsRun(w, x, env);
    var es := [BeginTick] + fires + [EndTick];
    assert es[1..|es| - 1] == fires;
    m := Move(WheelRuns.TickEvent(cb), es, y);
  }

  lemma {:induction false} PlayAll(w: W.Wheel, x: Xtr, inputs: seq<Input>) returns (moves: seq<Move>, w': W.Wheel, x': Xtr)
    requires Ready(w, x) && forall i :: 0 <= i < |inputs| ==> Plays(inputs[i], x.cfg)
    ensures InStep(w, x, inputs, moves, w', x') && Ready(w', x')
    decreases |inputs|
  {
    hide Ready, Plays, OneMove, WheelRuns.Step, WheelRuns.Enabled, Good, RunOf, W.Inv;
    if inputs == [] {
      moves, w', x' := [], w, x;
    } else {
      assert Plays(inputs[0], x.cfg);
      var m := PlayOne(w, x, inputs[0]);
      MoveReady(w, x, inputs[0], m);
      var rest;
      rest, w', x' := PlayAll(WheelRuns.Step(w, m.told), m.to, inputs[1..]);
      moves := [m] + rest;
      assert moves[1..] == rest;
    }
  }

  lemma MoveReady(w: W.Wheel, x: Xtr, input: Input, m: Move)
    requires Ready(w, x) && OneMove(w, x, input, m)
    ensures W.Inv(w) && !w.draining && Good(x) && WheelRuns.Enabled(w, m.told) && RunOf(x, m.events, m.to)
    ensures Ready(WheelRuns.Step(w, m.told), m.to) && Good(m.to)
  {
    hide Good, RunOf, WheelRuns.Step, WheelRuns.Enabled, Answers, WheelRuns.Alarms, W.Inv;
  }

  // ---------- the two runs ----------

  function Told(moves: seq<Move>): (r: seq<WheelRuns.Event>)
    ensures |r| == |moves| && forall i :: 0 <= i < |moves| ==> r[i] == moves[i].told
  {
    seq(|moves|, i requires 0 <= i < |moves| => moves[i].told)
  }

  function Events(moves: seq<Move>): seq<Event> {
    if moves == [] then [] else moves[0].events + Events(moves[1..])
  }

  lemma {:induction false} InStepRuns(w: W.Wheel, x: Xtr, inputs: seq<Input>, moves: seq<Move>, w': W.Wheel, x': Xtr)
    requires Ready(w, x) && InStep(w, x, inputs, moves, w', x')
    ensures W.Inv(w) && !w.draining && WheelRuns.RunOf(w, Told(moves), w')
    ensures Good(x) && RunOf(x, Events(moves), x')
    decreases |moves|
  {
    hide Ready, OneMove, WheelRuns.Step, WheelRuns.Enabled, Good, W.Inv, Enabled, Step;
    ReadyFacts(w, x);
    if moves != [] {
      var m := moves[0];
      MoveReady(w, x, inputs[0], m);
      InStepRuns(WheelRuns.Step(w, m.told), m.to, inputs[1..], moves[1..], w', x');
      assert Told(moves)[1..] == Told(moves[1..]);
      RunThen(x, m.events, m.to, Events(moves[1..]), x');
    }
  }

  lemma ReadyFacts(w: W.Wheel, x: Xtr)
    requires Ready(w, x)
    ensures W.Inv(w) && !w.draining && Good(x) && Seen(w, x)
  {
    hide W.Inv, Good, WheelRuns.Alarms;
  }

  lemma StartReady(cfg: Config, eid: Eid, addrs: seq<(int, bool)>) returns (cs: seq<W.Command>)
    requires cfg.petrs == 0 && (Partial(cfg) || cfg.probeInterval == 0)
    ensures W.LegalScript(cs, {}) && Ready(W.DoAll(W.Initial(), cs), Start(cfg, eid, addrs))
    ensures Start(cfg, eid, addrs).cfg == cfg
  {
    hide Base, XtrMisses.MissesOk, Seen, W.DoAll, ProgramProbing, XtrMisses.Frame;
    cs := StartLeads(cfg, eid, addrs);
    var x := Bare(cfg, eid, addrs);
    StartGood(cfg, eid, addrs);
    BareGood(cfg, eid, addrs);
    XtrMisses.ProgramProbingFrame(x, 0);
    XtrMisses.FrameKeys(x, ProgramProbing(x, 0), {}, {});
    StartTurns(cfg, eid, addrs);
    StartPhase(cfg, eid, addrs, cs);
  }

  lemma StartPhase(cfg: Config, eid: Eid, addrs: seq<(int, bool)>, cs: seq<W.Command>)
    requires cfg.petrs == 0 && W.LegalScript(cs, {}) && Seen(W.DoAll(W.Initial(), cs), Start(cfg, eid, addrs))
    ensures !Start(cfg, eid, addrs).ticking
  {
    hide W.LegalScript, W.DoAll, Start, WheelRuns.Alarms;
    W.DoAllKeepsClock(W.Initial(), cs);
  }

  lemma StartTurns(cfg: Config, eid: Eid, addrs: seq<(int, bool)>)
    requires cfg.petrs == 0 && (Partial(cfg) || cfg.probeInterval == 0) && Start(cfg, eid, addrs).cfg == cfg
    ensures NoWholeTurns(Start(cfg, eid, addrs))
  {}

  /**
    From the start, for every sequence of messages and ticks: the wheel has a run, and the router
    one of its own, in which each message is one script on the wheel and each tick of the wheel one
    whole tick of the router; after every single input both have the same timers, alarms and clock.
   */
  lemma DaemonRun(cfg: Config, eid: Eid, addrs: seq<(int, bool)>, inputs: seq<Input>)
      returns (cs: seq<W.Command>, moves: seq<Move>, w: W.Wheel, x: Xtr)
    requires cfg.petrs == 0 && (Partial(cfg) || cfg.probeInterval == 0)
    requires forall i :: 0 <= i < |inputs| ==> Plays(inputs[i], cfg)
    ensures W.LegalScript(cs, {}) && Ready(W.DoAll(W.Initial(), cs), Start(cfg, eid, addrs))
    ensures InStep(W.DoAll(W.Initial(), cs), Start(cfg, eid, addrs), inputs, moves, w, x)
    ensures WheelRuns.RunOf(W.Initial(), [WheelRuns.Script(cs)] + Told(moves), w)
    ensures RunFrom(cfg, eid, addrs, Events(moves), x) && Seen(w, x)
  {
    hide Ready, InStep, Plays, WheelRuns.RunOf, RunOf, Start, Seen, W.DoAll, W.LegalScript;
    cs := StartReady(cfg, eid, addrs);
    var u, s := W.DoAll(W.Initial(), cs), Start(cfg, eid, addrs);
    moves, w, x := PlayAll(u, s, inputs);
    InStepRuns(u, s, inputs, moves, w, x);
    ReadyFacts(w, x);
    StartGood(cfg, eid, addrs);
    ScriptFirst(cs, Told(moves), w);
  }

  lemma ScriptFirst(cs: seq<W.Command>, es: seq<WheelRuns.Event>, w: W.Wheel)
    requires W.LegalScript(cs, {}) && !W.DoAll(W.Initial(), cs).draining
    requires WheelRuns.RunOf(W.DoAll(W.Initial(), cs), es, w)
    ensures WheelRuns.RunOf(W.Initial(), [WheelRuns.Script(cs)] + es, w)
  {
    ScriptStep(W.Initial(), cs);
    hide WheelRuns.Step, WheelRuns.Enabled, W.LegalScript, W.DoAll;
    assert ([WheelRuns.Script(cs)] + es)[1..] == es;
  }
}
