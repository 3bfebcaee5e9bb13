/** What a Map-Reply leaves in the map cache, said of every prefix. */
module XtrReplies {
  import opened RegistrySpec
  import opened XtrSpec
  import opened XtrInvariant
  import opened XtrRuns
  import XtrProbing

  /** An entry holds what a record says: its prefix and its locators with their states, in order. */
  ghost predicate Shows(e: Entry, rec: Record) {
    && e.active && e.eid == rec.eid && |e.locs| == |rec.addrs|
    && (forall j :: 0 <= j < |e.locs| ==> e.locs[j].addr == rec.addrs[j].0 && e.locs[j].up == rec.addrs[j].1)
  }

  /** The first record for a prefix. */
  function FirstFor(recs: seq<Record>, eid: Eid): (k: nat)
    ensures k <= |recs|
    ensures k < |recs| ==> recs[k].eid == eid
    ensures forall i :: 0 <= i < k ==> recs[i].eid != eid
  {
    if recs == [] || recs[0].eid == eid then 0 else 1 + FirstFor(recs[1..], eid)
  }

  lemma AddMappingExact(x: Xtr, rec: Record)
    ensures var y, m := AddMapping(x, rec), x.heap;
            && y.entries == x.entries[m := Entry(rec.eid, true, rec.ttl, MakeLocs(rec.addrs, m + 1))]
            && y.cache == if rec.eid in x.cache then x.cache else x.cache[rec.eid := m]
  {
    hide StartExpiry, ProgramProbing, MakeLocs;
    var m := x.heap;
    var e := Entry(rec.eid, true, rec.ttl, MakeLocs(rec.addrs, m + 1));
    XtrProbing.RefreshEntries(x.(entries := x.entries[m := e],
                   cache := if rec.eid in x.cache then x.cache else x.cache[rec.eid := m],
                   heap := x.heap + 1 + |rec.addrs|), m);
  }

  /**
    Of the records of a reply, a prefix that was cached keeps its entry, a prefix that was not gets
    the first record for it, with its time to live, and no other prefix appears.
   */
  lemma {:induction false} RecordsCached(x: Xtr, recs: seq<Record>, eid: Eid)
    requires Base(x)
    ensures var y, k := AddMappings(x, recs), FirstFor(recs, eid);
            && (eid in x.cache ==> eid in y.cache && y.cache[eid] == x.cache[eid] && y.cache[eid] in x.entries
                                   && y.cache[eid] in y.entries && y.entries[y.cache[eid]] == x.entries[y.cache[eid]])
            && (eid !in x.cache && k < |recs| ==>
                  && eid in y.cache && y.cache[eid] in y.entries
                  && Shows(y.entries[y.cache[eid]], recs[k]) && y.entries[y.cache[eid]].ttl == recs[k].ttl)
            && (eid !in x.cache && k == |recs| ==> eid !in y.cache)
    decreases |recs|
  {
    hide Base, AddMapping;
    BaseFacts(x);
    if recs != [] {
      AddMappingBase(x, recs[0]);
      AddMappingExact(x, recs[0]);
      RecordsCached(AddMapping(x, recs[0]), recs[1..], eid);
    }
  }

  /** Removing a placeholder frees its prefix and touches no other. */
  lemma RemovedFrees(x: Xtr, m: Obj, ending: Ending)
    requires Base(x) && m in x.entries && !x.entries[m].active
    ensures var y := RemoveEntry(x, m, ending);
            && y.cache == x.cache - {x.entries[m].eid} && y.entries == x.entries - {m}
  {
    hide Inv, StopAll, Allocated, TimersOk, BoundsOk, ClockOk;
  }

  /**
    A Map-Reply for a cache miss: the placeholder's prefix and every prefix that was not cached get
    the first record that names them; other cached prefixes keep their entries; nothing else appears.
   */
  lemma ReplyInstalls(x: Xtr, n: Nonce, recs: seq<Record>, complete: bool, eid: Eid)
    requires Good(x) && n in x.reg.table
    requires (BaseFacts(x); !x.entries[x.reg.timers[TimerOfNonce(x.reg, n)].obj].active)
    ensures (BaseFacts(x);
             var (y, good) := MapReply(x, n, recs, complete);
             var m := x.reg.timers[TimerOfNonce(x.reg, n)].obj;
             var k := FirstFor(recs, eid);
             && good == complete && m !in y.entries
             && (eid in x.cache && x.cache[eid] != m ==> eid in y.cache && y.cache[eid] == x.cache[eid])
             && (k < |recs| && !(eid in x.cache && x.cache[eid] != m) ==>
                   && eid in y.cache && y.cache[eid] in y.entries
                   && Shows(y.entries[y.cache[eid]], recs[k]) && y.entries[y.cache[eid]].ttl == recs[k].ttl)
             && (k == |recs| && !(eid in x.cache && x.cache[eid] != m) ==> eid !in y.cache))
  {
    hide Base, Inv, RemoveEntry, AddMappings, Shows;
    BaseFacts(x);
    var m := x.reg.timers[TimerOfNonce(x.reg, n)].obj;
    var y := RemoveEntry(x, m, Answered(x.now));
    RemoveEntryBase(x, m, Answered(x.now));
    RemovedFrees(x, m, Answered(x.now));
    PlaceholderPrefix(x, m, eid);
    RecordsCached(y, recs, eid);
    XtrProbing.AddMappingsEntries(y, recs);
    RemovedHeap(x, m, Answered(x.now));
  }

  lemma PlaceholderPrefix(x: Xtr, m: Obj, eid: Eid)
    requires Base(x) && m in x.entries && !x.entries[m].active
    ensures eid in x.cache && x.cache[eid] == m <==> eid == x.entries[m].eid
  {
    hide Inv, Allocated, TimersOk, BoundsOk, ClockOk;
  }

  lemma RemovedHeap(x: Xtr, m: Obj, ending: Ending)
    requires Base(x) && m in x.entries
    ensures RemoveEntry(x, m, ending).heap == x.heap && m < x.heap
  {
    BaseFacts(x);
    hide Base, StopAll;
  }

  /** A Map-Reply for an active entry: the cached entry of the record's prefix holds the record's locators; only it changes. */
  lemma ReplyUpdates(x: Xtr, n: Nonce, recs: seq<Record>, complete: bool)
    requires Good(x) && n in x.reg.table
    requires (BaseFacts(x); x.entries[x.reg.timers[TimerOfNonce(x.reg, n)].obj].active)
    ensures (BaseFacts(x);
             var r := MapReply(x, n, recs, complete);
             var y := r.0;
             && (r.1 <==> recs != []) && (recs == [] ==> y == x) && y.cache == x.cache && y.entries.Keys == x.entries.Keys
             && (forall k :: k in x.entries && !(recs != [] && recs[0].eid in x.cache && k == x.cache[recs[0].eid])
                   ==> y.entries[k] == x.entries[k])
             && (recs != [] && recs[0].eid in x.cache ==>
                   var m := x.cache[recs[0].eid];
                   && y.entries[m].(locs := []) == x.entries[m].(locs := [])
                   && (x.entries[m].active && x.entries[m].eid == recs[0].eid ==> Shows(y.entries[m], recs[0]))))
  {
    hide Base, Inv, StartExpiry, ProgramProbing, StopOne;
    BaseFacts(x);
    if recs != [] && recs[0].eid in x.cache {
      var m := x.cache[recs[0].eid];
      XtrProbing.RefreshEntries(x.(entries := x.entries[m := x.entries[m].(locs := MakeLocs(recs[0].addrs, x.heap))],
                     heap := x.heap + |recs[0].addrs|), m);
    }
  }
}
