/**
  The Map-Server's registrations (lispd/control/lisp_ms.c): configured sites, registered sites and
  the lease of each registration, as functions from state to state.
 */
module MapServerSpec {
  import opened Options
  import opened Bits
  import opened Prefixes
  import opened RegistrySpec
  import WheelSpec

  const SITE_EXPIRATION := 180

  /** MS_SITE_EXPIRATION with the margin the source gives. */
  const LEASE := SITE_EXPIRATION + 2

  /** What mapping_cmp compares of a mapping's locators, and the states it does not look at. */
  datatype Locators = Locators(compared: seq<int>, up: seq<bool>)

  /** lisp_site_prefix_t */
  datatype Site = Site(prefix: Prefix, key: string, moreSpecifics: bool, merge: bool, proxy: bool)

  /** lisp_reg_site_t; lease records the timer started for a site registered by message. */
  datatype RegSite = RegSite(eid: Prefix, locs: Locators, lease: Option<Timer>)

  datatype Record = Record(eid: Prefix, locs: Locators)

  /** A Map-Register: the records that parse, whether all do, and the keys under which it verifies. */
  datatype Message = Message(recs: seq<Record>, complete: bool, auth: string -> bool, proxy: bool, notify: bool)

  datatype Ms = Ms(
    reg: Registry,
    sites: map<Prefix, Site>,       // configured, by network prefix
    db: map<Prefix, Obj>,           // registered, by network prefix
    rsites: map<Obj, RegSite>,
    now: nat,
    ticking: bool,
    heap: int,
    last: map<Prefix, nat>          // history: when a record for the EID was last accepted
  )

  // ---------- finding the configured site ----------

  /** Longest match among the stored prefixes of at most this length. */
  function BestUpTo(sites: map<Prefix, Site>, ip: Ip, len: nat): (r: Option<Prefix>)
    requires ValidIp(ip) && len <= Width(ip)
    decreases len
  {
    var p := NetworkPrefix(Prefix(ip, len));
    if p in sites then Some(p) else if len == 0 then None else BestUpTo(sites, ip, len - 1)
  }

  /** mdb_lookup_entry: by address only, whatever the length of the EID */
  function FindSite(sites: map<Prefix, Site>, ip: Ip): Option<Prefix>
    requires ValidIp(ip)
  {
    BestUpTo(sites, ip, Width(ip))
  }

  predicate SitesOk(sites: map<Prefix, Site>) {
    forall p :: p in sites ==> ValidPrefix(p) && NetworkPrefix(p) == p && ValidPrefix(sites[p].prefix)
  }

  lemma {:induction false} BestIsLongest(sites: map<Prefix, Site>, ip: Ip, len: nat, q: Prefix)
    requires SitesOk(sites) && ValidIp(ip) && len <= Width(ip)
    requires q in sites && q.plen <= len && Matches(ip, q)
    ensures var r := BestUpTo(sites, ip, len); r.Some? && r.value.plen >= q.plen
    decreases len
  {
    hide Network, Value;
    if q.plen == len {
      SameNetworkIff(ip, q.ip, len);
      assert NetworkPrefix(Prefix(ip, len)) == q;
    } else {
      BestIsLongest(sites, ip, len - 1, q);
    }
  }

  lemma {:induction false} BestMatches(sites: map<Prefix, Site>, ip: Ip, len: nat)
    requires SitesOk(sites) && ValidIp(ip) && len <= Width(ip)
    ensures var r := BestUpTo(sites, ip, len); r.Some? ==> r.value in sites && Matches(ip, r.value)
    decreases len
  {
    hide Network, Value, Agree;
    var p := NetworkPrefix(Prefix(ip, len));
    if p in sites {
      SameNetworkIff(ip, p.ip, len);
      NetworkPrefixIdempotent(Prefix(ip, len));
    } else if len > 0 {
      BestMatches(sites, ip, len - 1);
    }
  }

  /** The site found is the longest configured prefix that the address matches. */
  lemma FoundSiteIsLongest(sites: map<Prefix, Site>, ip: Ip)
    requires SitesOk(sites) && ValidIp(ip)
    ensures FindSite(sites, ip).None? <==> forall q :: q in sites ==> !Matches(ip, q)
    ensures FindSite(sites, ip).Some? ==>
              var p := FindSite(sites, ip).value;
              p in sites && Matches(ip, p) && forall q :: q in sites && Matches(ip, q) ==> q.plen <= p.plen
  {
    hide Network, Value, Agree, BestUpTo;
    BestMatches(sites, ip, Width(ip));
    forall q | q in sites && Matches(ip, q)
      ensures FindSite(sites, ip).Some? && q.plen <= FindSite(sites, ip).value.plen
    {
      BestIsLongest(sites, ip, Width(ip), q);
    }
  }

  // ---------- one record ----------

  /** Whether a site takes an EID: any prefix inside its own, or only its own address part. */
  predicate Admits(site: Site, eid: Prefix)
    requires ValidPrefix(site.prefix) && ValidPrefix(eid)
  {
    if site.moreSpecifics then PartOf(site.prefix, eid) else site.prefix.ip == eid.ip
  }

  datatype Verdict = Refused | Skipped(key: Option<string>) | Taken(verified: string, site: Prefix)

  /**
    What the loop of ms_recv_map_register decides about a record: the first record of a configured
    site selects the key that the message must verify under; later sites need a key that starts
    with it.
   */
  function Judge(sites: map<Prefix, Site>, auth: string -> bool, key: Option<string>, eid: Prefix): Verdict
    requires SitesOk(sites) && ValidPrefix(eid)
  {
    BestMatches(sites, eid.ip, Width(eid.ip));
    match FindSite(sites, eid.ip)
    case None => Skipped(key)
    case Some(p) =>
      var site := sites[p];
      if key.None? && !auth(site.key) then Refused
      else if key.Some? && !(key.value <= site.key) then Skipped(key)
      else
        var k := if key.None? then site.key else key.value;
        if Admits(site, eid) then Taken(k, p) else Skipped(Some(k))
  }

  /** lsite_entry_update_expiration_timer */
  function Restart(ms: Ms, o: Obj): Registry {
    var ts := Only(ms.reg.timers, TimersOf(ms.reg, o), SiteExpiry);
    if |ts| == 1 then Arm(ms.reg, ts[0], ms.now + WheelSpec.FiringDelay(LEASE, ms.ticking)) else ms.reg
  }

  function Proxied(sites: map<Prefix, Site>, site: Prefix, proxy: bool): map<Prefix, Site>
    requires site in sites
  {
    sites[site := sites[site].(proxy := proxy)]
  }

  /** A registered prefix renewed: other locators replace the stored ones unless the site merges. */
  function Renewed(ms: Ms, site: Prefix, proxy: bool, rec: Record): Ms
    requires site in ms.sites && rec.eid in ms.db && ms.db[rec.eid] in ms.rsites
  {
    var o := ms.db[rec.eid];
    var differs := ms.rsites[o].locs.compared != rec.locs.compared;
    ms.(reg := Restart(ms, o),
        rsites := if differs && !ms.sites[site].merge then ms.rsites[o := ms.rsites[o].(locs := rec.locs)]
                  else ms.rsites,
        sites := if differs then Proxied(ms.sites, site, proxy) else ms.sites,
        last := ms.last[rec.eid := ms.now])
  }

  /** A new registration, with lsite_entry_start_expiration_timer. */
  function Added(ms: Ms, site: Prefix, proxy: bool, rec: Record): Ms
    requires site in ms.sites
  {
    var o, t := ms.heap, ms.heap + 1;
    ms.(reg := Arm(Create(ms.reg, t, TimerRec(SiteExpiry, o, 0, None)), t,
                   ms.now + WheelSpec.FiringDelay(LEASE, ms.ticking)),
        db := ms.db[rec.eid := o],
        rsites := ms.rsites[o := RegSite(rec.eid, rec.locs, Some(t))],
        heap := ms.heap + 2,
        sites := Proxied(ms.sites, site, proxy),
        last := ms.last[rec.eid := ms.now])
  }

  /** What is done with a record taken for a site. */
  function Register(ms: Ms, site: Prefix, proxy: bool, rec: Record): Ms
    requires site in ms.sites && (rec.eid in ms.db ==> ms.db[rec.eid] in ms.rsites)
  {
    if rec.eid in ms.db then Renewed(ms, site, proxy, rec) else Added(ms, site, proxy, rec)
  }

  predicate RecordsOk(recs: seq<Record>) {
    forall i :: 0 <= i < |recs| ==> ValidPrefix(recs[i].eid)
  }

  predicate Linked(ms: Ms) {
    SitesOk(ms.sites) && forall e :: e in ms.db ==> ms.db[e] in ms.rsites
  }

  lemma LinkedFacts(ms: Ms)
    requires Linked(ms)
    ensures SitesOk(ms.sites) && forall e :: e in ms.db ==> ms.db[e] in ms.rsites
  {}

  /** good: no record failed to verify; taken: the records put into the Map-Notify, in order. */
  datatype Outcome = Outcome(ms: Ms, key: Option<string>, good: bool, taken: seq<Record>)

  function Normal(rec: Record): Record
    requires ValidPrefix(rec.eid)
  {
    rec.(eid := NetworkPrefix(rec.eid))
  }

  /** The loop over the records. */
  function Process(ms: Ms, msg: Message, recs: seq<Record>, key: Option<string>): Outcome
    requires Linked(ms) && RecordsOk(recs)
    decreases |recs|
  {
    if recs == [] then Outcome(ms, key, msg.complete, [])
    else
      var rec := Normal(recs[0]);
      match Judge(ms.sites, msg.auth, key, rec.eid)
      case Refused => Outcome(ms, key, false, [])
      case Skipped(k) => Process(ms, msg, recs[1..], k)
      case Taken(k, site) =>
        BestMatches(ms.sites, rec.eid.ip, Width(rec.eid.ip));
        RegisterLinked(ms, site, msg.proxy, rec);
        var rest := Process(Register(ms, site, msg.proxy, rec), msg, recs[1..], Some(k));
        rest.(taken := [rec] + rest.taken)
  }

  lemma RegisterLinked(ms: Ms, site: Prefix, proxy: bool, rec: Record)
    requires Linked(ms) && site in ms.sites
    ensures Linked(Register(ms, site, proxy, rec))
  {
    hide Restart, Create, NetworkPrefix, ValidPrefix, Arm;
  }

  /** ms_recv_map_register */
  function Receive(ms: Ms, msg: Message): Outcome
    requires Linked(ms) && RecordsOk(msg.recs)
  {
    Process(ms, msg, msg.recs, None)
  }

  /** lsite_entry_expiration_timer_cb */
  function Expire(ms: Ms, t: Timer): Ms
    requires t in ms.reg.timers && ms.reg.timers[t].obj in ms.rsites
  {
    var o := ms.reg.timers[t].obj;
    ms.(db := ms.db - {ms.rsites[o].eid}, rsites := ms.rsites - {o}, reg := StopAll(ms.reg, o))
  }
}
