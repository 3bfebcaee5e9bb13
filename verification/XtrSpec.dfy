/**
  The cache side of the tunnel router (lispd/control/lisp_xtr.c): map cache entries, the timers
  that request, refresh, probe and expire them, and the replies they wait for. Every handler and
  timer callback is one function from state to state; XtrRuns lets them interleave freely.
 */
module XtrSpec {
  import opened Options
  import opened RegistrySpec
  import WheelSpec

  const MRQ_TIMEOUT := 2
  const SMR_TIMEOUT := 3
  const MAX_SMR_RETRANSMIT := 2

  datatype Eid = Eid(addr: int, plen: int)

  datatype Loc = Loc(id: int, addr: int, up: bool)

  /** mcache_entry_t with its mapping, the locators in list order. */
  datatype Entry = Entry(eid: Eid, active: bool, ttl: int, locs: seq<Loc>)

  /** A parsed mapping record; its locators have distinct addresses. */
  datatype Record = Record(eid: Eid, ttl: int, addrs: seq<(int, bool)>)

  datatype Config = Config(requestRetries: int, probeInterval: int, probeRetries: int,
                           probeRetryInterval: int, petrs: Obj)

  /**
    The history of one cache miss: when its requests went out, with which nonces, how it ended. It
    is silenced if a probe reply bears one of its nonces: its timer goes, its placeholder stays.
   */
  datatype Ending = Open | TimedOut(tick: nat) | Answered(tick: nat) | Displaced(tick: nat) | Silenced(tick: nat)
  datatype Miss = Miss(start: nat, timer: Timer, sends: seq<nat>, nonces: seq<Nonce>, stalled: bool, ending: Ending)

  datatype Xtr = Xtr(
    cfg: Config,
    reg: Registry,
    cache: map<Eid, Obj>,         // the map cache, by exact prefix
    entries: map<Obj, Entry>,     // every allocated entry
    now: nat,
    ticking: bool,                // the tick's timers are being delivered
    heap: int,                    // next unused address
    used: set<Nonce>,             // nonces ever issued
    misses: map<Obj, Miss>
  )

  // ---------- small steps ----------

  function Due(x: Xtr, duration: int): nat {
    x.now + WheelSpec.FiringDelay(duration, x.ticking)
  }

  function NewTimer(x: Xtr, kind: Kind, obj: Obj, part: int): Xtr {
    var rec := TimerRec(kind, obj, part, if kind == Expiry then None else Some(x.heap + 1));
    x.(reg := Create(x.reg, x.heap, rec), heap := x.heap + 2)
  }

  function ArmTimer(x: Xtr, t: Timer, duration: int): Xtr {
    x.(reg := Arm(x.reg, t, Due(x, duration)))
  }

  predicate HasList(r: Registry, t: Timer) {
    t in r.timers && r.timers[t].nonces.Some? && r.timers[t].nonces.value in r.lists
  }

  function NoncesOf(r: Registry, t: Timer): seq<Nonce>
    requires HasList(r, t)
  {
    r.lists[r.timers[t].nonces.value].nonces
  }

  function IssueNonce(x: Xtr, t: Timer, n: Nonce): Xtr
    requires HasList(x.reg, t)
  {
    x.(reg := AddNonce(x.reg, n, x.reg.timers[t].nonces.value), used := x.used + {n})
  }

  function ForgetNonces(x: Xtr, t: Timer): Xtr
    requires HasList(x.reg, t)
  {
    x.(reg := Reset(x.reg, x.reg.timers[t].nonces.value))
  }

  // ---------- entries ----------

  function Settle(misses: map<Obj, Miss>, m: Obj, ending: Ending): map<Obj, Miss> {
    if m in misses && misses[m].ending == Open then misses[m := misses[m].(ending := ending)] else misses
  }

  /** tr_mcache_remove_entry: what goes is the entry found in the cache under the entry's EID. */
  function RemoveEntry(x: Xtr, m: Obj, ending: Ending): Xtr
    requires m in x.entries
  {
    var eid := x.entries[m].eid;
    if eid !in x.cache then x
    else
      var d := x.cache[eid];
      x.(cache := x.cache - {eid},
         reg := StopAll(x.reg, d),
         entries := x.entries - {d},
         misses := Settle(x.misses, d, ending))
  }

  /** program_rloc_probing */
  function ProbeLocator(x: Xtr, m: Obj, id: int): Xtr {
    ArmTimer(NewTimer(x, Probing, m, id), x.heap, x.cfg.probeInterval)
  }

  function ProbeLocators(x: Xtr, m: Obj, locs: seq<Loc>): Xtr
    decreases |locs|
  {
    if locs == [] then x else ProbeLocators(ProbeLocator(x, m, locs[0].id), m, locs[1..])
  }

  /** program_mce_rloc_probing */
  function ProgramProbing(x: Xtr, m: Obj): Xtr
    requires m in x.entries
  {
    if x.cfg.probeInterval == 0 then x
    else ProbeLocators(x.(reg := StopKind(x.reg, m, Probing)), m, x.entries[m].locs)
  }

  /** mc_entry_start_expiration_timer */
  function StartExpiry(x: Xtr, m: Obj): Xtr
    requires m in x.entries
  {
    ArmTimer(NewTimer(x, Expiry, m, 0), x.heap, x.entries[m].ttl * 60)
  }

  /** Locators freshly allocated for the addresses of a record. */
  function MakeLocs(addrs: seq<(int, bool)>, id: int): (locs: seq<Loc>)
    ensures |locs| == |addrs|
    ensures forall i :: 0 <= i < |locs| ==> locs[i] == Loc(id + i, addrs[i].0, addrs[i].1)
  {
    seq(|addrs|, i requires 0 <= i < |addrs| => Loc(id + i, addrs[i].0, addrs[i].1))
  }

  /**
    tr_mcache_add_mapping. mdb_add_entry reports success for a prefix already present but keeps
    the entry that is there, so the new entry is then allocated and timed without being reachable.
   */
  function AddMapping(x: Xtr, rec: Record): Xtr {
    var m := x.heap;
    var e := Entry(rec.eid, true, rec.ttl, MakeLocs(rec.addrs, m + 1));
    var y := x.(entries := x.entries[m := e],
                cache := if rec.eid in x.cache then x.cache else x.cache[rec.eid := m],
                heap := x.heap + 1 + |rec.addrs|);
    var z := StartExpiry(y, m);
    ProgramProbing(z, m)
  }

  /** update_mcache_entry: the locators are replaced, one more expiry timer runs, probing restarts. */
  function UpdateMapping(x: Xtr, rec: Record): Xtr
    requires forall e :: e in x.cache ==> x.cache[e] in x.entries
  {
    if rec.eid !in x.cache then x
    else
      var m := x.cache[rec.eid];
      var y := x.(entries := x.entries[m := x.entries[m].(locs := MakeLocs(rec.addrs, x.heap))],
                  heap := x.heap + |rec.addrs|);
      ProgramProbing(StartExpiry(y, m), m)
  }

  // ---------- timer callbacks ----------

  function LogSend(misses: map<Obj, Miss>, m: Obj, t: Timer, n: Nonce, now: nat): map<Obj, Miss> {
    if m in misses && misses[m].timer == t && misses[m].ending == Open then
      misses[m := misses[m].(sends := misses[m].sends + [now], nonces := misses[m].nonces + [n])]
    else misses
  }

  function LogStall(misses: map<Obj, Miss>, m: Obj, t: Timer): map<Obj, Miss> {
    if m in misses && misses[m].timer == t && misses[m].ending == Open then
      misses[m := misses[m].(stalled := true)]
    else misses
  }

  /**
    send_map_request_retry_cb and smr_invoked_map_request_cb: another request with a new nonce
    while the limit allows, else the entry goes. A failed send leaves the timer unarmed.
   */
  function RetryCallback(x: Xtr, t: Timer, limit: int, timeout: int, n: Nonce, sent: bool): Xtr
    requires HasList(x.reg, t) && x.reg.timers[t].obj in x.entries
  {
    var m := x.reg.timers[t].obj;
    if |NoncesOf(x.reg, t)| - 1 < limit then
      if !sent then x.(misses := LogStall(x.misses, m, t))
      else ArmTimer(IssueNonce(x.(misses := LogSend(x.misses, m, t, n, x.now)), t, n), t, timeout)
    else
      RemoveEntry(x, m, if x.reg.timers[t].kind == RequestRetry then TimedOut(x.now) else Displaced(x.now))
  }

  function SetUp(locs: seq<Loc>, id: int, up: bool): seq<Loc> {
    if locs == [] then []
    else [if locs[0].id == id then locs[0].(up := up) else locs[0]] + SetUp(locs[1..], id, up)
  }

  predicate IsUp(locs: seq<Loc>, id: int) {
    exists i :: 0 <= i < |locs| && locs[i].id == id && locs[i].up
  }

  function MarkLocator(x: Xtr, m: Obj, id: int, up: bool): Xtr
    requires m in x.entries
  {
    x.(entries := x.entries[m := x.entries[m].(locs := SetUp(x.entries[m].locs, id, up))])
  }

  /** rloc_probing_cb */
  function ProbeCallback(x: Xtr, t: Timer, n: Nonce, sent: bool): Xtr
    requires HasList(x.reg, t) && x.reg.timers[t].obj in x.entries
  {
    var m, id := x.reg.timers[t].obj, x.reg.timers[t].part;
    if |NoncesOf(x.reg, t)| - 1 < x.cfg.probeRetries then
      if !sent then x else ArmTimer(IssueNonce(x, t, n), t, x.cfg.probeRetryInterval)
    else
      var wasUp := IsUp(x.entries[m].locs, id);
      var y := if wasUp then MarkLocator(x, m, id, false) else x;
      if wasUp && x.entries[m].eid !in x.cache && m != x.cfg.petrs then y
      else ArmTimer(ForgetNonces(y, t), t, x.cfg.probeInterval)
  }

  predicate CallbackReady(x: Xtr, t: Timer) {
    && t in x.reg.timers
    && x.reg.timers[t].obj in x.entries
    && x.reg.timers[t].kind in {Expiry, RequestRetry, SmrRetry, Probing}
    && (x.reg.timers[t].kind != Expiry ==> HasList(x.reg, t))
  }

  function Callback(x: Xtr, t: Timer, n: Nonce, sent: bool): Xtr
    requires CallbackReady(x, t)
  {
    match x.reg.timers[t].kind
    case Expiry => RemoveEntry(x, x.reg.timers[t].obj, Displaced(x.now))
    case RequestRetry => RetryCallback(x, t, x.cfg.requestRetries, MRQ_TIMEOUT, n, sent)
    case SmrRetry => RetryCallback(x, t, MAX_SMR_RETRANSMIT, SMR_TIMEOUT, n, sent)
    case Probing => ProbeCallback(x, t, n, sent)
    case _ => x
  }

  // ---------- events ----------

  /** handle_map_cache_miss, for an EID with no covering entry */
  function CacheMiss(x: Xtr, eid: Eid, n: Nonce, sent: bool): Xtr {
    var m := x.heap;
    var y := x.(entries := x.entries[m := Entry(eid, false, 0, [])],
                cache := x.cache[eid := m],
                heap := m + 1);
    var z := NewTimer(y, RequestRetry, m, 0);
    var w := z.(misses := z.misses[m := Miss(x.now, m + 1, [], [], false, Open)]);
    assert HasList(w.reg, m + 1);
    RetryCallback(w, m + 1, x.cfg.requestRetries, MRQ_TIMEOUT, n, sent)
  }

  /** tr_reply_to_smr, for the entry found for the source of the solicitation */
  function SolicitedRequest(x: Xtr, m: Obj, n: Nonce, sent: bool): Xtr
    requires m in x.entries
  {
    var y := NewTimer(x, SmrRetry, m, 0);
    assert HasList(y.reg, x.heap);
    RetryCallback(y, x.heap, MAX_SMR_RETRANSMIT, SMR_TIMEOUT, n, sent)
  }

  function AddMappings(x: Xtr, recs: seq<Record>): Xtr
    decreases |recs|
  {
    if recs == [] then x else AddMappings(AddMapping(x, recs[0]), recs[1..])
  }

  /**
    tr_recv_map_reply without the probe bit. recs are the records that parse; complete says that
    the message holds no further, unparsable one. The flag returned is GOOD.
   */
  function MapReply(x: Xtr, n: Nonce, recs: seq<Record>, complete: bool): (r: (Xtr, bool))
    requires Inv(x.reg)
    requires forall t :: t in x.reg.timers ==> x.reg.timers[t].obj in x.entries
    requires forall e :: e in x.cache ==> x.cache[e] in x.entries
  {
    if n !in x.reg.table then (x, false)
    else
      var t := TimerOfNonce(x.reg, n);
      var m := x.reg.timers[t].obj;
      if !x.entries[m].active then
        (AddMappings(RemoveEntry(x, m, Answered(x.now)), recs), complete)
      else if recs == [] then (x, false)
      else
        var y := UpdateMapping(x, recs[0]);
        (y.(reg := StopOne(y.reg, m, t)), true)
  }

  function FindByAddr(locs: seq<Loc>, addr: int): Option<int> {
    if locs == [] then None else if locs[0].addr == addr then Some(locs[0].id) else FindByAddr(locs[1..], addr)
  }

  /** The entry a probe reply is taken to be about. */
  function ProbedEntry(x: Xtr, eid: Eid): Option<Obj> {
    if eid in x.cache then Some(x.cache[eid])
    else if x.cfg.petrs in x.entries && x.entries[x.cfg.petrs].eid.addr == eid.addr then Some(x.cfg.petrs)
    else None
  }

  /** handle_locator_probe_reply */
  function ProbeAnswered(x: Xtr, m: Obj, addr: int): Xtr
    requires m in x.entries
  {
    match FindByAddr(x.entries[m].locs, addr)
    case None => x
    case Some(id) => ProbeLocator(MarkLocator(x, m, id, true), m, id)
  }

  function Silence(misses: map<Obj, Miss>, m: Obj, t: Timer, now: nat): map<Obj, Miss> {
    if m in misses && misses[m].timer == t && misses[m].ending == Open then
      misses[m := misses[m].(ending := Silenced(now))]
    else misses
  }

  /** tr_recv_map_reply with the probe bit */
  function ProbeReply(x: Xtr, n: Nonce, rec: Option<Record>, addr: int): (r: (Xtr, bool))
    requires Inv(x.reg)
    requires forall e :: e in x.cache ==> x.cache[e] in x.entries
  {
    if n !in x.reg.table || rec.None? then (x, false)
    else
      var t := TimerOfNonce(x.reg, n);
      match ProbedEntry(x, rec.value.eid)
      case None => (x, false)
      case Some(m) =>
        var y := ProbeAnswered(x, m, addr);
        (y.(reg := StopOne(y.reg, m, t), misses := Silence(y.misses, m, t, x.now)), true)
  }
}
