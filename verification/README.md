# Verified model of the lispd control plane

`lispd` keeps the control plane of a LISP device (RFC 6830, RFC 6833) alive by soft state: cache
entries, registrations, outstanding requests, probes. All of it hangs on timers, and the timers hang
on linked structures that must agree. This project models that engine and what stands on it, and
proves what holds over every run.

| part | files | what is modelled |
|---|---|---|
| timer wheel | `WheelSpec`, `WheelRuns`, `WheelScripts`, `TimerWheel` | the hashed wheel as sequences, its runs, the drain loop script by script, and the linked rings in memory |
| registry | `Options`, `Seqs`, `RegistrySpec`, `RegistryTables` | nonce table, nonce lists, object-to-timers index, and the stop functions with their loops |
| tunnel router | `XtrSpec`, `XtrInvariant`, `XtrMisses`, `XtrRuns`, `XtrTheorems`, `XtrProbing`, `XtrReplies`, `XtrStates`, `XtrTimers`, `XtrLives`, `XtrRounds`, `XtrFresh`, `XtrExpiry`, `XtrArmed`, `XtrMismatch`, `XtrWheel`, `XtrScripts`, `XtrDaemon`, `XtrDevice` | cache miss, retry, solicited request, reply, probing, expiry; runs in which they interleave freely; the life of one request, of one probe timer and of one locator's state in them; the same runs on the timer wheel; the handlers as methods |
| Map-Server | `MapServerSpec`, `MapServerRuns`, `MapServerAuth`, `MapServerWheel`, `MapServerDaemon`, `MapServerDevice` | Map-Register processing and the registration lease; the same on the timer wheel |
| mapping store | `GenericList`, `Mappings`, `MappingStore`, `MappingCompare` | the two-level sorted list of locators, its in-place changes, and when two of them compare equal |
| interfaces | `IfaceMappings`, `Interfaces`, `IfaceRuns` | address and status events with their effect on the local mappings, over any sequence of them; the SMR round |
| flow table | `FlowSpec`, `FlowTable` | hash plus recency list, refining one sequence |
| packets | `Bits`, `Prefixes`, `Bytes`, `Checksum`, `EcmSpec`, `Lbuf`, `EcmBuffer`, `RecordSpec`, `RecordBuffer` | prefixes, checksums, buffer, encapsulated control messages, mapping records and their count |
| examples | `WheelExamples`, `XtrExamples`, `DataExamples` | runs and values for which a law fails |

The pattern is the same throughout. A specification module says what each operation does to a
value; a class with the source's fields and loops is proved to do exactly that; the main results
are lemmas about the specification for every input, every interleaving and every reachable state.
History needed to state a result (when a request was sent, when a record was last accepted, what an
address was at the start of a window) is kept in fields that no decision reads.

Some laws that the comments of the source suggest do not hold of the code as written. Each of these
is stated with the exact condition under which it holds, and with a run or a value for which it
fails:

- A timer fires after exactly the requested number of ticks only below one turn of the wheel (or at
  one exact corner value): `WheelRuns.ExactDelayIff`; in `WheelExamples.LongDurationRun` a timer
  started for 4140 ticks fires on tick 44. The drain loop ends if no callback arms for a whole turn,
  and otherwise it need not: `WheelRuns.FullTurnNeverEnds`, `WheelExamples.FullTurnRun`.
- Refreshing a mapping does not prolong it, because a timer is added and none is stopped:
  `XtrExpiry.FirstExpiryIsFinal`, `XtrExamples.RefreshRun`.
- A step of the router keeps locators and probe timers in one-to-one correspondence exactly if its
  reply is matched: a probe reply confirms the locator that was probed, a Map-Reply bears no nonce of
  a probe: `XtrProbing.StepPairsIff`, `XtrExamples.OtherAddressRun`.
- Stopping a timer keeps the registry consistent exactly if the right owner is named:
  `RegistrySpec.StopOneKeepsInvIff`, `DataExamples.WrongOwnerExample`. A probe reply names the right
  owner exactly if it is about the entry that its nonce was issued for: `XtrMismatch.ProbeReplyInvIff`,
  `XtrExamples.ForeignReplyExample`. A Map-Reply stops a timer that its own update has freed exactly
  if it bears the nonce of a probe of the prefix that it updates: `XtrMismatch.StoppedTwiceIff`,
  `XtrExamples.StoppedTwiceRun`.
- A cache miss ends with its placeholder gone, unless a probe reply bears a nonce of the miss:
  `XtrMismatch.SilencedIff`, `XtrExamples.SilencedRun`.
- Sorting again after an address was overwritten restores the order exactly if no other locator has
  that address: `MappingStore.ResortIff`, `DataExamples.ResortExample`. An address event as a whole
  keeps a mapping in order exactly if the address fits it: `IfaceMappings.EventKeepsIff`,
  `DataExamples.DuplicateExample`; and a sequence of events keeps all mappings in order throughout
  exactly if each address fits when it comes: `IfaceRuns.OrderKeptIff`.
- Removing a locator keeps the count of locators right exactly if the locator has no address, because
  for an address the count is lowered and raised again: `MappingStore.Mapping.RemoveLocator`,
  `DataExamples.RemoveExample`.
- A copied mapping compares equal to its original exactly if all its locators have addresses:
  `MappingStore.CopiesSameIff`, `DataExamples.CopyExample`.
- A pushed IPv4 header verifies exactly if the memory under its checksum field held zero, in either
  of its two one's complement forms: `EcmSpec.HeaderVerifiesIff`, `DataExamples.HeaderExample`.
- A message of several records comes back exactly if there are fewer than 256 of them:
  `RecordSpec.MessageRoundTripIff`, `DataExamples.ManyRecordsExample`. The probed locator comes back
  exactly if memory held no mark before it: `RecordSpec.ProbedRoundTripIff`,
  `DataExamples.ProbedExample`.
- Inserting a flow keeps hash and list in agreement exactly if its tuple is not in the table:
  `FlowTable.Flows.InsertFlow`, `DataExamples.SameFlowTwice`.
- The Map-Server finds the list of lease timers that it reads for a renewal exactly if the message has
  no record for a statically registered prefix admitted: `MapServerRuns.NoListIff`,
  `DataExamples.StaticTakenExample`.

## Model

| member | source | states |
|---|---|---|
| `WheelSpec.DrainStepProgress` | lispd/lib/timers.c:343-366 | each turn of the drain loop shortens the spoke or lowers the rotation count at its head, whatever the callback stops or restarts, as long as it arms nothing for a multiple of the wheel size |
| `WheelSpec.PartialTurnMovesAway` | lispd/lib/timers.c:229-242 | a timer lands on the spoke being drained exactly if its duration is a multiple of the wheel size |
| `WheelSpec.HeadIsDue` | lispd/lib/timers.c:339-343 | the timer at the head of the drained spoke is due on this very tick |
| `WheelRuns.EveryArmingOnTime` | lispd/lib/timers.c:221-367 | over every run, an arming that fired did so on its due tick, and one still pending is not yet due |
| `WheelRuns.FiresUnlessCancelled` | lispd/lib/timers.c:259-367 | in every continuation without a restart or stop of it, a running timer is pending before its due tick and has fired on exactly that tick from then on |
| `WheelRuns.SettledForever` | lispd/lib/timers.c:346-361 | one arming never fires twice and a cancelled one never fires |
| `WheelRuns.ExactDelayIff` | lispd/lib/timers.c:229-242 | the firing delay equals the requested duration if and only if the duration is positive and below 4096, or the one corner value that depends on where the timer was armed |
| `WheelExamples.LongDurationRun` | lispd/lib/timers.c:346-365 | a run that creates a timer, starts it for 69 minutes and has it fired on tick 44 |
| `WheelRuns.FullTurnNeverEnds` | lispd/lib/timers.c:343-366 | a callback that arms its own timer for a whole turn keeps the drain loop going for any number of iterations |
| `WheelExamples.FullTurnRun` | lispd/lib/timers.c:343-366 | one reachable wheel whose next tick never leaves its drain loop: the loop is still running after every number of iterations |
| `WheelRuns.StartSetsAlarm` | lispd/lib/timers.c:259-283 | seen as a map from timers to due ticks, a start or restart sets one entry and changes no other |
| `WheelRuns.StopClearsAlarm` | lispd/lib/timers.c:291-322 | a stop removes one entry of that map and changes no other |
| `WheelRuns.DrainStepFiresDueAlarm` | lispd/lib/timers.c:343-365 | a turn of the drain loop only ever delivers an alarm that is due now |
| `WheelRuns.AlarmsAhead` | lispd/lib/timers.c:330-367 | over every run, between ticks every alarm lies ahead, by at most one turn of the wheel |
| `WheelScripts.StopsDo` | lispd/lib/timers_utils.c:58-83 | stopping any list of timers one after the other frees exactly these and clears exactly their alarms |
| `WheelScripts.RanDrained` | lispd/lib/timers.c:343-366 | the outcome of the drain loop is that of the loop after the first firing, for every callback that does what the fired timer does |
| `TimerWheel.RingsUnlink` | lispd/lib/timers.c:267-275 | unlinking one node leaves every spoke a well-formed circular list of the remaining timers in order |
| `TimerWheel.RingsInsert` | lispd/lib/timers.c:244-251 | linking before the sentinel appends to that spoke and disturbs no other |
| `TimerWheel.RunningIffLinked` | lispd/lib/timers.c:265-267 | a timer's next link is set exactly while it is linked, so the test of the source is right |
| `TimerWheel.Timers.constructor` | lispd/lib/timers.c:98-136 | all spokes empty and linked to themselves |
| `TimerWheel.Timers.Start` | lispd/lib/timers.c:259-283 | the linked rings after a start are those of the specification's start, with running_timers equal to the number linked |
| `TimerWheel.Timers.Stop` | lispd/lib/timers.c:291-322 | likewise for a stop; the freed timer's memory is reached from nowhere |
| `TimerWheel.Timers.InsertTimer` | lispd/lib/timers.c:220-251 | the links written make the timer the last of the right spoke |
| `TimerWheel.Timers.HandleTimers` | lispd/lib/timers.c:330-367 | the walk terminates, never follows a link of a freed timer whatever the callbacks do, keeps its predecessor at the sentinel, and makes exactly the tick of the specification |
| `TimerWheel.Timers.DrainOnce` | lispd/lib/timers.c:344-361 | one turn of the walk is one drain step of the specification |
| `RegistrySpec.CreateKeepsInv` | lispd/lib/timers_utils.c:25-37 | a new timer leaves table, lists and index consistent |
| `RegistrySpec.AddNonceKeepsInv` | lispd/lib/nonces_table.c:44-56 | a fresh nonce recorded leaves table, lists and index consistent |
| `RegistrySpec.ResetKeepsInv` | lispd/lib/nonces_table.c:107-124 | emptying a nonce list leaves them consistent |
| `RegistrySpec.StopOneKeepsInvIff` | lispd/lib/timers_utils.c:40-56 | stopping one timer keeps them consistent if and only if the object named is the one the timer is indexed under |
| `DataExamples.WrongOwnerExample` | lispd/lib/timers_utils.c:40-56 | a registry that stopping a timer under another object leaves inconsistent |
| `RegistrySpec.StopAllKeepsInv` | lispd/lib/timers_utils.c:58-83 | stopping an object's timers keeps them consistent |
| `RegistrySpec.StopKindKeepsInv` | lispd/lib/timers_utils.c:86-109 | stopping an object's timers of one type keeps them consistent |
| `RegistrySpec.PurgeExact` | lispd/lib/timers_utils.c:40-109 | whatever set of timers is stopped, a nonce survives exactly if its timer does, and every other timer, alarm, list and nonce is untouched |
| `RegistrySpec.RepeatedNonceExample` | lispd/lib/nonces_table.c:44-56 | without fresh nonces the table loses a request: an outstanding nonce used again breaks consistency |
| `RegistryTables.Tables.Lookup` | lispd/lib/nonces_table.c:95-104 | a nonce is found exactly if some live list holds it, and leads to a list with a live timer |
| `RegistryTables.Tables.Insert` | lispd/lib/nonces_table.c:44-56 | table and list change together as specified |
| `RegistryTables.Tables.ResetNonces` | lispd/lib/nonces_table.c:107-124 | the loop that removes while it walks empties the list and takes exactly its nonces out of the table |
| `RegistryTables.Tables.StopTimerFromObj` | lispd/lib/timers_utils.c:40-56 | does what the specification of stopping one timer says, whatever object is named, and keeps the tables consistent if and only if that object is the owner |
| `RegistryTables.Tables.StopTimersFromObj` | lispd/lib/timers_utils.c:58-83 | the loop stops exactly the object's timers; it reports failure exactly if the object has no list |
| `RegistryTables.Tables.StopTimersOfType` | lispd/lib/timers_utils.c:86-109 | the loops take out and stop exactly the timers of the type |
| `RegistryTables.Tables.TakeOfType` | lispd/lib/pointers_table.c:143-166 | the other timers stay, in order; those of the type are returned, each once; none for an object without a list |
| `RegistryTables.Tables.TimersOfType` | lispd/lib/pointers_table.c:107-128 | exactly the object's timers of the type, each once; nothing for an object without a list |
| `RegistryTables.Tables.RemoveFromIndex` | lispd/lib/pointers_table.c:168-179 | one list loses the first occurrence of one timer |
| `XtrInvariant.RemoveEntryBase` | lispd/control/lisp_xtr.c:1473-1484 | removing an entry keeps every timer owned by a live entry, the cache closed and the registry consistent |
| `XtrInvariant.CallbackBase` | lispd/control/lisp_xtr.c:958-990 | every timer callback keeps the whole invariant, including that no request exceeds its retry limit |
| `XtrInvariant.MapReplyBase` | lispd/control/lisp_xtr.c:206-327 | processing a Map-Reply keeps the whole invariant, whatever request its nonce belongs to, as long as the timer it stops in the end is still there |
| `XtrInvariant.ProbeReplyBase` | lispd/control/lisp_xtr.c:277-327 | processing a probe reply keeps the whole invariant, whatever request its nonce belongs to, as long as that request is for the entry the reply is about |
| `XtrRuns.StepGood` | lispd/control/lisp_xtr.c:206-327 | every event, in any interleaving, keeps the invariant and the history of misses |
| `XtrTheorems.MissSchedule` | lispd/control/lisp_xtr.c:958-990 | in every reachable state each cache miss has sent its requests exactly two ticks apart and at most retries+1 of them, has exactly their nonces outstanding while it waits and none of them afterwards, and if it timed out with all sends succeeding, sent all of them and ended two ticks after the last |
| `XtrTheorems.MissOver` | lispd/control/lisp_xtr.c:623-657 | 2(retries+1) ticks after a miss none of its nonces is left, nor, unless a probe reply has silenced it, its entry or any timer of it |
| `XtrTheorems.DeadForever` | lispd/lib/nonces_table.c:107-124 | a nonce no longer outstanding is not outstanding again in the rest of every run |
| `XtrTheorems.RefusedForever` | lispd/control/lisp_xtr.c:225-231 | in every continuation a reply of either kind that bears such a nonce is refused and changes nothing |
| `XtrTheorems.AnsweredForever` | lispd/control/lisp_xtr.c:206-327 | once a Map-Reply is processed to GOOD, every nonce of that request, retransmissions included, is refused in every continuation |
| `XtrTheorems.ProbeAnswerForever` | lispd/control/lisp_xtr.c:277-327 | the same for every probe reply that is processed to GOOD |
| `XtrProbing.ProgramProbingPairs` | lispd/control/lisp_xtr.c:1372-1398 | programming an entry leaves its probe timers in one-to-one correspondence with its locators and every other entry's alone |
| `XtrProbing.ProbeReplyPairsIff` | lispd/control/lisp_xtr.c:122-164 | a probe reply keeps the correspondence if and only if the locator confirmed is the one probed, or, for the nonce of another request, none is confirmed |
| `XtrProbing.MapReplyPairsIff` | lispd/control/lisp_xtr.c:233-327 | a Map-Reply keeps the correspondence if and only if it does not have the probe timer of an active entry stopped |
| `XtrProbing.StepPairsIff` | lispd/control/lisp_xtr.c:1352-1398 | while probing is on, a step of any kind keeps probe timers and locators of every entry in correspondence if and only if it is matched |
| `XtrExamples.OtherAddressRun` | lispd/control/lisp_xtr.c:122-164 | a run after which a probe reply from another address breaks the correspondence |
| `XtrProbing.ProbesMatchLocators` | lispd/control/lisp_xtr.c:1352-1398 | over every run of matched steps, probe timers and locators of every entry correspond one to one across add, update, timeout and reply |
| `XtrProbing.DownOnlyAfterAllProbes` | lispd/control/lisp_xtr.c:1242-1311 | a step takes a locator down only as the callback of that locator's own probe timer, with exactly retries+1 probes unanswered; the converse is XtrStates.DownIff |
| `XtrStates.DownAfterAllProbes` | lispd/control/lisp_xtr.c:1276-1311 | when a probe timer fires with retries+1 probes unanswered, the locator it probes is down afterwards and no other locator of any entry has changed; with fewer no locator changes |
| `XtrStates.DownIff` | lispd/control/lisp_xtr.c:1242-1311 | over every run, a locator goes from up to down in a step if and only if the step fires the timer that probes it with all retries+1 probes unanswered |
| `XtrStates.UpAfterProbeReply` | lispd/control/lisp_xtr.c:122-164 | after a probe reply with an outstanding nonce the first locator with the reply's address in the entry it is about is up and no other locator of any entry has changed; none changes if there is no such locator; the verdict is BAD, and none changes, exactly if there is no such entry or the nonce is not outstanding |
| `XtrStates.UpIff` | lispd/control/lisp_xtr.c:122-164 | over every run, a locator comes up in a step if and only if it is down and a probe reply with an outstanding nonce confirms it as the first with its address |
| `XtrTimers.StepKeep` | lispd/control/lisp_xtr.c:206-354 | whatever the step, a timer it is not about keeps its record, alarm and nonces, or is gone because its entry is, or because a Map-Reply has the entry probed anew; nonces keep their timers and entries their prefix and time to live |
| `XtrLives.SolicitedSchedule` | lispd/control/lisp_xtr.c:843-867 | a request solicited at tick s, in every continuation with successful sends, goes out at s, s+3 and s+6 and at no other tick, has exactly the nonces sent so far outstanding while it waits and none afterwards, ends only by a reply with one of its nonces or with its entry, and is over at s+9, unanswered with the entry and all its timers gone |
| `XtrRounds.ProbeSchedule` | lispd/control/lisp_xtr.c:1242-1311 | a probe timer, in every continuation with successful sends, fires at exactly these ticks: retries+1 probes one retry interval apart, one more firing that finds the last one unanswered, the next round one probe interval later, without end; the nonces outstanding are those of the current round; it ends only with its entry, by a reply with one of its nonces, or by a Map-Reply for its prefix |
| `XtrFresh.StepPrograms` | lispd/control/lisp_xtr.c:1352-1370 | every probe timer that any step starts has no nonce and is due one probe interval from then; every expiry timer is due as many minutes from then as its entry has to live |
| `XtrFresh.StartPrograms` | lispd/control/lisp_xtr.c:1372-1398 | the same for the probe timers of the proxies at the start |
| `XtrFresh.ReplyExpiries` | lispd/control/lisp_xtr.c:104-119 | a Map-Reply gives every entry it adds exactly one expiry timer; one for an active entry gives the entry updated exactly one more and leaves every other expiry timer as it was |
| `XtrRounds.ProbeNext` | lispd/control/lisp_xtr.c:1262-1311 | what a firing leaves of a probe timer, in every case: one nonce more and one retry interval, no nonce and one probe interval, or, after a failed send and for a locator of an entry unknown to the cache, its nonces and no alarm |
| `XtrProbing.RequestsWithinLimit` | lispd/control/lisp_xtr.c:1242-1270 | over every run, no request ever has more nonces outstanding than its limit |
| `XtrMismatch.ProbeReplyInvIff` | lispd/control/lisp_xtr.c:299-321 | after a probe reply the registry is consistent if and only if the timer found by the nonce belongs to the entry the reply is about |
| `XtrMismatch.SilencedIff` | lispd/control/lisp_xtr.c:277-321 | a probe reply ends a miss if and only if it bears a nonce of that miss; then the request timer and all nonces are gone and the placeholder stays in the cache |
| `XtrMismatch.UpdateStopsIff` | lispd/control/lisp_xtr.c:166-203 | the update of a Map-Reply stops a timer if and only if it is a probe timer of the entry updated, while probing is on |
| `XtrMismatch.StoppedTwiceIff` | lispd/control/lisp_xtr.c:233-321 | the timer a Map-Reply for an active entry stops in the end was freed before by its own update if and only if the nonce is one of a probe of the entry updated |
| `XtrExamples.StoppedTwiceRun` | lispd/control/lisp_xtr.c:233-321 | a run after which a Map-Reply that bears the nonce of a probe frees the probe's timer in its own update, before it stops it |
| `XtrExamples.ForeignReplyExample` | lispd/control/lisp_xtr.c:299-321 | a reachable state in which a probe reply about another entry leaves the registry inconsistent |
| `XtrExamples.SilencedRun` | lispd/control/lisp_xtr.c:299-321 | a run in which a placeholder without any timer stays in the cache for any number of ticks |
| `XtrReplies.RecordsCached` | lispd/control/lisp_xtr.c:1401-1440 | of the records added, a prefix already cached keeps its entry, any other gets the first record for it with its locators, states and time to live, and no further prefix appears |
| `XtrReplies.ReplyInstalls` | lispd/control/lisp_xtr.c:234-276 | a Map-Reply for a cache miss removes the placeholder and fixes, for every prefix, what the cache then holds; the verdict is GOOD exactly if all its records parse |
| `XtrReplies.ReplyUpdates` | lispd/control/lisp_xtr.c:246-276 | a Map-Reply for an active entry gives the cached entry of the first record's prefix the record's locators and changes no other entry and nothing else of that one; the verdict is BAD, and nothing changes, exactly if no record parses |
| `XtrArmed.TimersRun` | lispd/control/lisp_xtr.c:958-990 | over every run with successful sends, each timer of a cached entry and each probe timer of the proxy entry is running and not overdue |
| `XtrExpiry.CachedMappingsExpire` | lispd/control/lisp_xtr.c:104-119 | in every reachable state every active entry in the cache has a running expiry timer |
| `XtrExpiry.FirstExpiryIsFinal` | lispd/control/lisp_xtr.c:166-203 | as long as an entry stays in the cache each of its expiry timers keeps its due tick, so the entry is gone after the earliest, refreshed or not |
| `XtrExamples.RefreshRun` | lispd/control/lisp_xtr.c:166-203 | a run in which a mapping with a time to live of one minute is refreshed at tick 30 and gone at tick 60 |
| `XtrExpiry.NeverBack` | lispd/control/lisp_xtr.c:1401-1440 | an entry that has left the cache never returns to it |
| `XtrWheel.CallbackSeen` | lispd/control/lisp_xtr.c:958-990 | every callback of the router moves its timers and alarms exactly as a script of wheel commands moves the wheel's |
| `XtrWheel.TickIsRun` | lispd/lib/timers.c:330-367 | one tick of the wheel with the router's callbacks is a run of the router: the clock advances, due timers fire one after the other, each meeting whatever nonce is drawn for it and whether its send succeeds, the tick ends, and wheel and router agree again |
| `XtrScripts.EventIsScript` | lispd/control/lisp_xtr.c:206-354 | every cache miss, solicited request and reply moves the router's timers and alarms as a legal script of wheel commands moves the wheel's |
| `XtrScripts.StartLeads` | lispd/control/lisp_xtr.c:1372-1398 | the configured router agrees with a wheel that has been told to probe its proxies |
| `XtrDaemon.MessageTurns` | lispd/control/lisp_xtr.c:122-203 | a message leaves no timer behind that could be armed for a whole turn, if no interval is one, or if probing is off and the message confirms no locator |
| `XtrDaemon.TryPlays` | lispd/control/lisp_xtr.c:206-354 | any single message is an input of the daemon, in every state in which it can come |
| `XtrDaemon.DaemonRun` | lispd/lib/timers.c:330-367 | from the start, for every sequence of messages and ticks there is a run of the wheel and a run of the router, message by script and tick by whole tick, which have the same timers, alarms and clock after every single input |
| `XtrDevice.Device.constructor` | lispd/control/lisp_xtr.c:1835-1947 | the configured start state, proxy locators probed |
| `XtrDevice.Device.RemoveEntry` | lispd/control/lisp_xtr.c:1473-1484 | does the specified removal on cache, entries and tables |
| `XtrDevice.Device.ProgramMceRlocProbing` | lispd/control/lisp_xtr.c:1372-1398 | the loop over locators makes the specified probe timers |
| `XtrDevice.Device.AddMapping` | lispd/control/lisp_xtr.c:1401-1440 | does the specified addition |
| `XtrDevice.Device.UpdateEntry` | lispd/control/lisp_xtr.c:166-203 | does the specified refresh |
| `XtrDevice.Device.RetryCb` | lispd/control/lisp_xtr.c:958-990 | does the specified retry or removal |
| `XtrDevice.Device.RlocProbingCb` | lispd/control/lisp_xtr.c:1242-1311 | sends another probe or takes the locator down and starts the next round, as XtrStates.DownAfterAllProbes and XtrRounds.ProbeSchedule state of the specification |
| `XtrDevice.Device.Fire` | lispd/control/lisp_xtr.c:91-103 | dispatches each timer type to its specified callback |
| `XtrDevice.Device.HandleMapCacheMiss` | lispd/control/lisp_xtr.c:623-657 | does the specified placeholder and first request, for an EID that its caller has not found in the cache |
| `XtrDevice.Device.ReplyToSmr` | lispd/control/lisp_xtr.c:330-354 | does the specified solicited request for the entry found, of which XtrLives.SolicitedSchedule is proved |
| `XtrDevice.Device.RecvMapReply` | lispd/control/lisp_xtr.c:206-327 | the record loop does the specified processing and returns the specified verdict |
| `XtrDevice.Device.HandleLocatorProbeReply` | lispd/control/lisp_xtr.c:122-164 | marks the locator up and probes it anew as specified, of which XtrStates.UpAfterProbeReply is proved |
| `XtrDevice.Device.RecvProbeReply` | lispd/control/lisp_xtr.c:277-322 | does the specified processing of a probe answer |
| `MapServerSpec.FoundSiteIsLongest` | lispd/lib/mapping_db.c:640-653 | the configured site found for an EID is the longest prefix its address matches, and none is found exactly if none matches |
| `MapServerRuns.LeaseLaw` | lispd/control/lisp_ms.c:130-192 | over every run, a prefix that is not static is registered between ticks if and only if fewer than 182 ticks have passed since the latest record accepted for it; it then has exactly one expiry timer, running and due at the end of the lease; static registrations stay and have none |
| `MapServerRuns.StepGood` | lispd/control/lisp_ms.c:328-482 | every tick, expiry and Map-Register keeps sites, database and leases consistent |
| `MapServerRuns.ExpireGood` | lispd/control/lisp_ms.c:130-147 | an expiry removes one registration and its one timer with its alarm; every other registration, timer, alarm and date stays as it is, and all is consistent |
| `MapServerRuns.NoListIff` | lispd/control/lisp_ms.c:168-180 | over every run, a registered prefix has a list of timers if and only if it is not static, and a message has a record taken for a registered prefix without one if and only if it has a static prefix admitted under the key of the first site it names |
| `DataExamples.StaticTakenExample` | lispd/control/lisp_ms.c:168-180 | a configuration and a message that verifies, whose record is taken for a prefix without a list of timers |
| `MapServerAuth.UnauthenticatedChangesNothing` | lispd/control/lisp_ms.c:357-391 | a message that does not verify under the key of the first configured site it names changes nothing, whatever else it holds |
| `MapServerAuth.RegisterLaw` | lispd/control/lisp_ms.c:357-447 | a message that verifies under that key has exactly those of its records taken, in order, whose EID lies inside its site's prefix when more specifics are accepted and else has its address part, the site being the longest match and its key one that starts with the verified key; any other message has none taken; exactly the EIDs taken are entered and dated; the verdict then is GOOD exactly if all records could be parsed |
| `MapServerAuth.ProxyLaw` | lispd/control/lisp_ms.c:420-447 | the proxy flag of the message goes to exactly those sites for which it had a record taken that was new or had other locators than were stored by then; nothing else of any site changes |
| `MapServerAuth.StoredIsLatest` | lispd/control/lisp_ms.c:420-447 | unless its site merges, each EID taken ends up with a stored mapping that compares equal to the last record taken for it |
| `MapServerWheel.TickIsRun` | lispd/lib/timers.c:330-367 | one tick of the wheel with the lease callbacks is a run of the Map-Server, after which wheel and Map-Server agree again |
| `MapServerDaemon.RegisterIsScript` | lispd/control/lisp_ms.c:328-482 | a Map-Register moves the leases as a legal script of wheel commands moves the wheel |
| `MapServerDaemon.TryPlays` | lispd/control/lisp_ms.c:328-482 | any single Map-Register is an input, in every state in which it can come |
| `MapServerDaemon.DaemonRun` | lispd/lib/timers.c:330-367 | from any configuration, for every sequence of Map-Registers and ticks there is a run of the wheel and a run of the Map-Server which have the same timers, alarms and clock after every single input |
| `MapServerDevice.MapServer.constructor` | lispd/control/lisp_ms.c:485-507 | the configured start state |
| `MapServerDevice.MapServer.UpdateExpirationTimer` | lispd/control/lisp_ms.c:168-192 | restarts the one timer of the type, and does nothing unless there is exactly one |
| `MapServerDevice.MapServer.AddSite` | lispd/control/lisp_ms.c:438-447 | does the specified new registration |
| `MapServerDevice.MapServer.RenewSite` | lispd/control/lisp_ms.c:420-437 | does the specified renewal |
| `MapServerDevice.MapServer.RecvMapRegister` | lispd/control/lisp_ms.c:328-482 | the record loop with its key variable does the specified processing; the Map-Notify lists the records taken |
| `MapServerDevice.MapServer.ExpirationCb` | lispd/control/lisp_ms.c:130-147 | does the specified expiry |
| `GenericList.Add` | lispd/lib/generic_list.c:86-125 | inserts before the first bigger cell, fails without change if an incomparable cell comes first |
| `GenericList.Find` | lispd/lib/generic_list.c:154-173 | the first cell that compares equal, or the end |
| `Mappings.AddToOk` | lispd/liblisp/lisp_mapping.c:175-233 | adding any locator keeps groups ordered by family, non-empty, homogeneous and strictly ascending by address |
| `Mappings.AddToMeans` | lispd/liblisp/lisp_mapping.c:175-233 | for every address: the added one keeps the better of old and new, all others and the inactive locators are unchanged |
| `Mappings.CountAdd` | lispd/liblisp/lisp_mapping.c:215-221 | the number of addressed locators grows by one exactly if the address was not there |
| `Mappings.EverythingFound` | lispd/liblisp/lisp_mapping.c:311-321 | every stored locator is the one a lookup of its address finds |
| `Mappings.AddAllKeepsBest` | lispd/liblisp/lisp_mapping.c:175-233 | after any sequence of additions the groups are in order, each address holds its locator of smallest priority value, the earliest on ties, no other address is held, and inactive locators stand latest first |
| `MappingStore.Mapping.AddLocator` | lispd/liblisp/lisp_mapping.c:175-233 | the list operations make the specified addition and keep locator_count exact; ERR_EXIST exactly if a locator at least as good is there |
| `MappingStore.Mapping.SortLocators` | lispd/liblisp/lisp_mapping.c:407-423 | takes out and puts back the first locator with the address, in its family's group |
| `MappingStore.ResortRestores` | lispd/liblisp/lisp_mapping.c:407-423 | after one address was overwritten with an unused one, sorting restores strict order as a permutation |
| `MappingStore.ResortIff` | lispd/liblisp/lisp_locator.c:222-245 | strict order comes back if and only if no other locator of the group has the new address |
| `DataExamples.ResortExample` | lispd/liblisp/lisp_locator.c:222-245 | two locators of which the first is given the address of the second |
| `MappingStore.Mapping.ChangeAddress` | lispd/control/lisp_xtr.c:1603-1627 | overwriting an address and sorting keeps the mapping invariant if and only if no other locator of the group has that address; then the locators are the same ones |
| `MappingStore.ActivationMeans` | lispd/liblisp/lisp_mapping.c:432-462 | activation moves the locator to its place, leaves every other address and the order of inactive locators alone, and raises the count by one exactly if the address is new |
| `MappingStore.Mapping.ActivateLocator` | lispd/liblisp/lisp_mapping.c:432-462 | does the specified activation; BAD without change if there is no inactive locator |
| `MappingStore.RemovedMeans` | lispd/liblisp/lisp_mapping.c:236-275 | removing a locator keeps the groups in order, and the number of addressed locators goes down by one if and only if an addressed one was there |
| `MappingStore.Mapping.RemoveLocator` | lispd/liblisp/lisp_mapping.c:236-275 | takes the locator out, and its group if it was the last, and leaves locator_count as it was, so the mapping is valid if and only if no addressed locator was removed |
| `DataExamples.RemoveExample` | lispd/liblisp/lisp_mapping.c:261-267 | a mapping without locators whose count is one |
| `MappingStore.Mapping.UpdateLocators` | lispd/liblisp/lisp_mapping.c:278-305 | the copied groups satisfy the mapping invariant and are copies group by group |
| `MappingStore.CloneList` | lispd/liblisp/lisp_locator.c:273-296 | a copy in new memory, in order if addressed and reversed if not; nothing for an empty list |
| `MappingStore.MappingCmp` | lispd/liblisp/lisp_mapping.c:77-121 | answers 0 if and only if EID address, count and all locators compare equal, group by group |
| `MappingCompare.SameIff` | lispd/liblisp/lisp_mapping.c:77-121 | two mappings in order whose locators all have addresses compare equal if and only if they hold the same addresses, each with the same priorities and weights |
| `MappingStore.CopiesSameIff` | lispd/liblisp/lisp_mapping.c:278-305 | copies are in order with the same count, and compare equal to the original if and only if it has no inactive locator |
| `DataExamples.CopyExample` | lispd/liblisp/lisp_mapping.c:278-305 | a mapping with an inactive locator that differs from its copy |
| `MappingStore.UpdateThenCompare` | lispd/control/lisp_ms.c:422-428 | after an update the comparison of the two mappings answers 0 if and only if the source has no inactive locator |
| `Interfaces.NetChange` | lispd/control/lisp_xtr.c:1608-1621 | after any events the previous address is set if and only if the address differs from that of the start of the window, and then is that one; the round is due five ticks after the latest event |
| `Interfaces.SelectedIffNetChange` | lispd/control/lisp_xtr.c:2266-2277 | after the first round an entry is due for announcement exactly through a locator whose address or interface status differs on balance |
| `IfaceMappings.EventKeepsIff` | lispd/control/lisp_xtr.c:1576-1627 | an address event keeps a mapping in order if and only if the address is new to it or the locators dropped as duplicates are not all its inactive ones; the locators left on the interface then have the address |
| `IfaceMappings.MappingsKeptIff` | lispd/control/lisp_xtr.c:1576-1627 | the same for every mapping of the interface in the loops over all locators and all mappings |
| `IfaceMappings.StatusMeans` | lispd/control/lisp_xtr.c:1628-1637 | setting the states of some locators of a mapping sets exactly these and keeps the order |
| `IfaceMappings.StatusEventMeans` | lispd/control/lisp_xtr.c:1628-1637 | the loops of a status event over the locators of both families give the status to exactly the locators that are on the interface, each in the mapping of its own entry, and keep every mapping in order |
| `IfaceRuns.EventContents` | lispd/control/lisp_xtr.c:1576-1627 | after an address event that fits, of the locators of the interface in a mapping exactly those not dropped are there, under the new address and otherwise unchanged, and every other locator is as it was |
| `IfaceRuns.StayingIsLeft` | lispd/control/lisp_xtr.c:1576-1606 | the locators that the event's loop leaves on the interface are those that the mapping keeps |
| `IfaceRuns.StepOrderIff` | lispd/control/lisp_xtr.c:1555-1664 | any event of any interface keeps all mappings in order if and only if its address fits each of them; then every locator on an interface has the address of the interface again |
| `IfaceRuns.OrderKeptIff` | lispd/control/lisp_xtr.c:1555-1664 | over any sequence of address and status events of all interfaces, with ticks and rounds between them, all mappings are in order throughout if and only if each new address fits when it comes |
| `DataExamples.DuplicateExample` | lispd/control/lisp_xtr.c:1586-1594 | a mapping in which a duplicate leaves an empty list |
| `Interfaces.Router.AddressEvent` | lispd/control/lisp_xtr.c:1555-1627 | the loops over locators and mappings and the transition check make the specified change; an unchanged address changes nothing and programs nothing |
| `Interfaces.Router.InformLocators` | lispd/control/lisp_xtr.c:1576-1606 | the loop activates, drops or overwrites each locator of the interface as specified and leaves exactly the others on it |
| `Interfaces.Router.SortMappings` | lispd/control/lisp_xtr.c:1622-1627 | the loop sorts each mapping of the interface once |
| `Interfaces.Router.StatusEvent` | lispd/control/lisp_xtr.c:1628-1664 | the loops over the locators of both families and the toggle make the specified change |
| `Interfaces.Router.EntriesToSmr` | lispd/control/lisp_xtr.c:2249-2299 | although the two list slots are not cleared between interfaces, the result is exactly the entries touched by a changed interface, each once, and every interface is reset |
| `Interfaces.Router.SmrRound` | lispd/control/lisp_xtr.c:763-771 | a round selects exactly those entries and opens a new window |
| `FlowSpec.LookupLaw` | lispd/lib/ttable.c:187-219 | over every run the table never exceeds 10000 flows and is in order of use; a lookup answers if and only if the flow is there and was inserted no more than 3.0 seconds ago, 0.1 for a negative entry, and then with the value last inserted, the flow moving to the front; else the flow is gone; every other flow stays as and where it was |
| `FlowSpec.RoomMade` | lispd/lib/ttable.c:120-143 | a table of 10000 flows loses exactly those inserted more than 3.0 seconds ago, or a thousand if they are fewer, and a smaller one loses none |
| `FlowSpec.VictimsAreOlder` | lispd/lib/ttable.c:133-142 | a flow evicted without being expired was used no later than any survivor, and only when expired ones were too few |
| `FlowSpec.RemoveLaw` | lispd/lib/ttable.c:158-184 | a removed flow is gone and every other stays as and where it was |
| `FlowTable.Flows.RemoveAt` | lispd/lib/ttable.c:175-184 | list and hash lose the same node |
| `FlowTable.Flows.RemoveFlow` | lispd/lib/ttable.c:158-173 | does the specified removal |
| `FlowTable.Flows.LookupFlow` | lispd/lib/ttable.c:187-219 | expires the flow or moves it to the front, as the specification does of which FlowSpec.LookupLaw is proved; hash and list agree |
| `FlowTable.Flows.RemoveExpired` | lispd/lib/ttable.c:120-131 | in whatever order the hash is walked, exactly the expired flows go and the rest keep their order |
| `FlowTable.Flows.RemoveOldest` | lispd/lib/ttable.c:133-142 | the last n of the list go |
| `FlowTable.Flows.InsertFlow` | lispd/lib/ttable.c:112-156 | makes room and inserts as the sequence specification says; hash and list still agree if and only if the tuple is not in the table by then |
| `DataExamples.SameFlowTwice` | lispd/lib/ttable.c:112-156 | a new table into which one tuple is inserted twice, at any times: hash and list no longer agree |
| `Prefixes.NetworkIsOneMask` | lispd/lib/prefixes.c:102-159 | masking 32-bit words, one or four, equals one mask of the leading bits of the whole address |
| `Prefixes.PartOfIff` | lispd/lib/prefixes.c:32-74 | for all valid prefixes the test holds if and only if every address matching b matches a |
| `Prefixes.NetworkPrefixIdempotent` | lispd/lib/prefixes.c:165-176 | normalising twice changes nothing more, and a normalised prefix matches the same addresses |
| `Prefixes.NetworkAddressV4` | lispd/lib/prefixes.c:102-128 | shift and mask clear exactly the low bits, length zero included |
| `Prefixes.NetworkAddressV6` | lispd/lib/prefixes.c:130-159 | the mask filled by the loops clears exactly the low bits of each word |
| `Prefixes.IsPrefixPartOf` | lispd/lib/prefixes.c:32-74 | answers containment of address sets, false for what is not a prefix, and leaves b as it was |
| `Checksum.Verifies` | lispd/lib/cksum.c:30-50 | a sum completed with its complement verifies to zero |
| `Checksum.ByteOrder` | lispd/lib/cksum.c:30-50 | the sum of words read low byte first is that of words read high byte first with its bytes swapped |
| `Checksum.IpChecksum` | lispd/lib/cksum.c:30-50 | two folds give the complement of the exact sum, and the 32-bit register does not overflow |
| `Checksum.FoldingSum` | lispd/lib/cksum.c:76-86 | folding on the top bit keeps the one's complement value and the register in range |
| `Checksum.UdpIpv4Checksum` | lispd/lib/cksum.c:65-107 | the complement of the exact sum over datagram and pseudo-header |
| `Checksum.UdpIpv6Checksum` | lispd/lib/cksum.c:109-151 | the same for IPv6, without overflow |
| `EcmSpec.DatagramVerifies` | lispd/lib/packets.c:180-209 | the stored UDP checksum verifies to zero for every message, port and address |
| `EcmSpec.HeaderVerifiesIff` | lispd/lib/packets.c:113-136 | a pushed IPv4 header verifies if and only if memory held 0x0000 or 0xFFFF in its checksum field |
| `DataExamples.HeaderExample` | lispd/lib/packets.c:113-136 | over memory that held 1 and 0 no header verifies |
| `EcmSpec.DecapEncap` | lispd/liblisp/liblisp.c:47-105 | decapsulating any encapsulated message is GOOD and yields the original bytes and inner source port, whatever memory the headers were pushed over |
| `EcmSpec.PacketFields` | lispd/liblisp/liblisp.c:482-504 | in every encapsulated message the ECM type, all IPv4 or IPv6 fields, ports, lengths and the message stand at the positions the formats give them, in network order |
| `EcmSpec.RefusedIff` | lispd/liblisp/liblisp.c:47-105 | a complete packet is refused if and only if it carries a UDP checksum and the sum over the datagram and the pseudo-header of its addresses is not zero; else message and port are those found by position |
| `EcmSpec.AlteredIff` | lispd/liblisp/liblisp.c:47-105 | an encapsulated message with one word altered on the way is accepted if and only if it carries no checksum or the two words are equal in one's complement |
| `Lbuf.Buffer.Resize` | lispd/lib/lbuf.c:108-145 | the bytes in use are kept, and so is what every marker at or after them points at |
| `Lbuf.Buffer.PutUninit` | lispd/lib/lbuf.c:163-172 | grows at the tail without disturbing anything before it |
| `Lbuf.Buffer.PushUninit` | lispd/lib/lbuf.c:182-189 | grows at the head; in place if there is room, else with markers moved along |
| `Lbuf.Buffer.Push` | lispd/lib/lbuf.c:191-197 | contents are the new bytes followed by the old |
| `Lbuf.Buffer.Put` | lispd/lib/lbuf.c:174-180 | contents are the old bytes followed by the new |
| `Lbuf.Buffer.Pull` | lispd/lib/lbuf.h:176-189 | drops bytes from the head, or nothing if there are too few |
| `Lbuf.Buffer.PointTo` | lispd/lib/lbuf.c:215-225 | moves the head to a marker, keeping the tail |
| `EcmBuffer.PushIpv4` | lispd/lib/packets.c:113-136 | pushes the header of the specification, whose fields EcmSpec.PacketFields gives by position, with the checksum taken over memory left in its field |
| `EcmBuffer.PushUdpAndIp` | lispd/lib/packets.c:180-209 | the datagram and header of the specification, the checksum filled in through the marker even if the buffer has moved; BAD exactly for different families |
| `EcmBuffer.Encapsulate` | lispd/liblisp/liblisp.c:482-504 | the contents become the specified encapsulation of what they were, whose fields EcmSpec.PacketFields gives by position; for addresses of different families the IP header is missing |
| `EcmBuffer.EcmDecap` | lispd/liblisp/liblisp.c:47-105 | verdict, message and port as specified for any complete packet |
| `EcmBuffer.EncapsulateNew` | lispd/liblisp/liblisp.c:506-514 | in the daemon's own zeroed buffers every header field stands in its place, the sum over the datagram and its pseudo-header is zero, and so is that over the IPv4 header |
| `EcmBuffer.RoundTrip` | lispd/liblisp/liblisp.c:482-504 | through two buffers any message comes out whole with its port |
| `RecordSpec.AddrRoundTrip` | lispd/liblisp/lisp_address.c:447-505 | parsing a written address gives it back and leaves what follows |
| `RecordSpec.LocRoundTrip` | lispd/liblisp/liblisp.c:322-338 | parsing a written locator gives all its fields back, whatever memory its unset bits held |
| `RecordSpec.RecordRoundTrip` | lispd/liblisp/liblisp.c:373-423 | parsing a written record gives EID, prefix length, TTL, authoritative bit, no action and exactly the locators that are up and addressed, with the first one marked as probed, consuming exactly its bytes |
| `RecordSpec.LocFields` | lispd/liblisp/liblisp.c:151-169 | from any bytes: priorities and weights are the first four, and a locator is down exactly if the flags say local and not reachable |
| `RecordSpec.RecordFields` | lispd/liblisp/liblisp.c:172-216 | from any bytes: time to live high byte first, locator count, prefix length, action in the three highest bits and authoritative in the fourth of the flags, EID by its family number |
| `RecordSpec.AllRoundTrip` | lispd/liblisp/liblisp.c:151-265 | the same for any sequence of records |
| `RecordSpec.ProbedRoundTripIff` | lispd/liblisp/liblisp.c:408-417 | the locator parsed as the probed one is the one written as such if and only if memory held no mark in a locator before it |
| `RecordSpec.BuiltIs` | lispd/liblisp/liblisp.c:341-363 | after any number of records the count in the message header is their number, in 8 bits |
| `RecordSpec.MessageRoundTripIff` | lispd/liblisp/liblisp.c:341-423 | parsing as many records as the header counts gives back the records of the message if and only if there are fewer than 256 |
| `DataExamples.ManyRecordsExample` | lispd/liblisp/liblisp.c:341-363 | a message of 256 records that does not come back |
| `DataExamples.ProbedExample` | lispd/liblisp/liblisp.c:322-338 | a record that names another locator than the one probed |
| `RecordSpec.MappingRestored` | lispd/liblisp/liblisp.c:222-265 | the mapping built from a parsed record holds every up address of the written one with all its fields, and nothing else |
| `RecordBuffer.PutLocator` | lispd/liblisp/liblisp.c:322-338 | appends the specified bytes, unset bits from memory |
| `RecordBuffer.PutMapping` | lispd/liblisp/liblisp.c:373-423 | the nested loops append the specified record, with its count of locators and the mark of the probed one, and the count in the message header goes up by one |
| `RecordBuffer.IncrementRecordCount` | lispd/liblisp/liblisp.c:341-363 | adds one to the count byte found through the marker of the LISP header, for the four message types that have one, and changes nothing else |
| `RecordBuffer.TakeLoc` | lispd/liblisp/liblisp.c:151-169 | parses as specified and consumes what it parsed |
| `RecordBuffer.TakeRecord` | lispd/liblisp/liblisp.c:172-216 | parses as specified, action and probed locator included, and consumes what it parsed |
| `RecordBuffer.AddParsed` | lispd/liblisp/liblisp.c:246-257 | the locators are added last first, keeping the mapping invariant |

## Left out

- Sockets, netlink, configuration, logging, command line, the data plane and the forwarding policies: input, output and plumbing. Sends appear as an outcome given with the event.
- Map-Register sending by the xTR, Map-Notify handling and merge semantics (lispd/control/lisp_xtr.c:495-620 and 1054-1240): they use the same registry and retry pattern as the requests that are modelled.
- Answers to Map-Requests by xTR and Map-Server, and forwarding of Map-Requests by the Map-Server: no state changes.
- HMAC and the nonce generator: the first is a predicate on keys given with the message, the second a source of nonces never used before; `RegistrySpec.RepeatedNonceExample` shows what a repeated one would do.
- LCAF addresses, ELP locators and multicast entries: addresses are IPv4, IPv6 or none.
- The Patricia trie, khash and list libraries: a map by network prefix with longest match, a map, a sequence. The wheel alone has its links modelled.
- Statically configured map-cache entries of the xTR: they have no timer.
- Memory: freed objects are absent, and addresses are not handed out again; the allocator's reuse of an address is not modelled. Allocation does not fail, and the forwarding policy accepts every new entry.
- `htable_nonces_remove`, `lbuf_clone`, `mapping_clone`: their comparison or copying does not follow the conventions of the rest, and they are not called.
- XtrTheorems.MissSchedule: the exact number of requests is claimed for misses all of whose sends succeeded, because a failed send leaves the timer unarmed.
- XtrLives.SolicitedSchedule: for runs in which the sends of this request succeed, for the same reason.
- XtrRounds.ProbeSchedule: for runs in which the sends of this timer succeed, and for timers of entries in the cache or of the proxies; the timer of an entry whose prefix is not in the cache stops when it takes its locator down.
- MappingCompare.SameIff: for mappings whose locators all have addresses; inactive ones compare in list order.
- XtrArmed.TimersRun: for runs in which sends succeed, for the same reason.
- XtrRuns.StepGood: runs leave out a reply that has a timer stopped twice or stopped under an entry that is not its owner, since the source then works on freed memory; XtrMismatch.StoppedTwiceIff and XtrMismatch.ProbeReplyInvIff say exactly which replies these are.
- XtrInvariant.MapReplyBase: without a reply whose own update frees the timer it then stops, as XtrRuns.StepGood.
- XtrInvariant.ProbeReplyBase: without a reply about another entry than its nonce's, as XtrRuns.StepGood.
- XtrTheorems.AnsweredForever: over the runs of XtrRuns.StepGood.
- XtrTheorems.ProbeAnswerForever: over the runs of XtrRuns.StepGood.
- XtrDevice.Device.RecvMapReply: for the replies of XtrRuns.StepGood.
- XtrDevice.Device.RecvProbeReply: for the replies of XtrRuns.StepGood.
- XtrProbing.ProbesMatchLocators: over runs of matched steps; XtrProbing.StepPairsIff says that no other step keeps the correspondence.
- MapServerRuns.LeaseLaw: runs leave out a message with a record taken for a statically registered prefix, since the source then reads the size of a timer list that does not exist; MapServerRuns.NoListIff says exactly which messages these are.
- MapServerRuns.StepGood: without these messages, as MapServerRuns.LeaseLaw.
- MapServerDevice.MapServer.RecvMapRegister: without these messages, as MapServerRuns.LeaseLaw.
- XtrDevice.Device.constructor: without the Map-Registers and the first SMR round that are programmed at start-up.
- XtrDevice.Device.ReplyToSmr: the longest-match lookup that finds the entry is the caller's.
- XtrDevice.Device.HandleMapCacheMiss: only for an EID without an entry of its own, since its one caller looks it up first.
- XtrWheel.TickIsRun: while no probe timer exists whose intervals are whole turns of the wheel; otherwise the tick need not end, as WheelRuns.FullTurnNeverEnds shows. The same holds for XtrDaemon.DaemonRun.
- XtrDaemon.DaemonRun: the order in which the timers of a tick fire is that of the wheel; which runs of the router the wheel never makes is not said.
- IfaceRuns.OrderKeptIff: from a state in which every locator on an interface has its address and is on no other list; how the configuration builds that state is not modelled.
- MapServerAuth.RegisterLaw: a later site needs a key that starts with the verified one, which is what the comparison of the source tests, not an equal key.
- Interfaces.Router.AddressEvent: the local mappings are values here, the lists of locators that MappingStore keeps in objects; which local entry a locator belongs to and which entries are attached to an interface is given, and the forwarding policy is not told.
- Interfaces.Router.SmrRound: which entries are announced, not the registers and solicitations sent for them.
- FlowTable.Flows.InsertFlow: for tuples that differ in more than the protocol, which the comparison of the source ignores and its hash does not.
- Checksum.IpChecksum: words are read low byte first, as on a little-endian host; Checksum.ByteOrder relates this to network order.
- EcmBuffer.EcmDecap: for packets that hold what their headers announce; the source does not check this.
- RecordBuffer.PutMapping: for buffers with room for the record, because the source keeps pointers to the headers across the puts.
- RecordBuffer.TakeRecord: bytes that end too soon are a failure here; the source reads on.
