# StreamGuard: a verified model of its stateful core

StreamGuard is a multipath tunnel. This project models the small stateful
components that carry its guarantees and proves what each of them keeps over
every run:

| file | component |
|---|---|
| `Quarantine.dfy`, `SessionV2.dfy` | the V2 session: path ids from a wrapping cursor, a persistent epoch history, and a tombstone quarantine kept as a map and a queue |
| `Reorder.dfy` | the V1 duplicate window and reorder buffer |
| `FlowReorder.dfy`, `FlowMetrics.dfy`, `FlowSession.dfy` | the V2 per-flow deadline reorder with tombstones for retired flows: its steps and laws, its counters, and the object |
| `Health.dfy`, `Sums.dfy`, `Scheduler.dfy` | path scores and the smooth weighted round robin |
| `SessionV1.dfy` | the V1 session's egress choice: adopted weights, else the active path |
| `Codec.dfy` | the V2 datagram codec |
| `Mtu.dfy` | path MTU state, admission gate, packet-id sequencer and the checked send |
| `Driver.dfy` | the blocking TUN driver as interleaved atomic steps of many senders, one worker and one owner |
| `Base64.dfy` | the base64url codec of the ticket format |

`Prelude.dfy` holds machine integers, `Option` and `Result`; `Order.dfy` the
lexicographic order.

An object that the program updates in place is a class; each of its methods is
proved equal to a step function on the value the object stands for, or to a
relation where the program's result depends on the iteration order of a hash
map. The theorems about whole runs are lemmas on those step functions. Time,
transport answers, backend answers and the envelope builder are parameters and
may be anything.

## Where the code and its promises part

* **V1 reorder window.** `accept` marks its slot before the buffer checks the
  distance to the head, so an arrival too far ahead is dropped and its
  retransmission is then refused as a duplicate although it is expected
  (`FarAheadArrivalBlocksItsRetransmission`). An arrival in the window that is not
  held is refused exactly when the last arrival that fell into its slot was that
  very sequence (`RefusedIffLastInSlot`, over runs
  `TakesExpectedIffNoneFollowsItself`), and only after an earlier copy of it came
  too far ahead (`RefusedWasFarAhead`). The buffer is lossless along a
  run exactly when no arrival of the run was too far ahead
  (`LosslessIffNeverFarAhead`). The comment says the first valid payload wins;
  a stale repeat can free a shared slot, and a copy then replaces the held
  payload and is delivered (`StaleRepeatLetsCopyReplace`). Along a run the first
  payload accepted for each sequence is the one held and delivered exactly when
  no repeat with another payload arrives for a held sequence whose slot names
  another one while there is room (`FirstWinsIffNoneReplaces`).
* **Adopted weights.** Every positive entry adds to the total but only the last
  entry of a path is kept. The weights add up to one exactly when no path is
  listed twice with a positive weight (`AdoptedSumToOneIffDistinct`); the
  recorded total is one regardless. While no path leaves, the accumulators add up
  to what the rounds fell short of one (`AccumulatorsDrift`), so they balance
  exactly when the weights in force at each round were listed without repeats
  (`BalancedIffListedOnce`). With path 1 listed twice at a half its accumulator
  falls by a half each round and reaches minus one after the second
  (`RepeatedEntryDrifts`).
* **Tombstone pruning** takes from the front of the queue only. It removes
  exactly the expired entries at every time exactly when the queue is sorted by
  expiry (`PruneExactIffSorted`), which nondecreasing detach times guarantee
  (`MonotoneClockPrunesExactly`). Two detaches at falling times leave an expired
  entry behind a prune (`FallingClockKeepsExpired`).
* **V2 reorder deadline.** The comment on the skip says the oldest held packet
  drives the deadline; the code uses the held packet of least identifier, so a
  packet can stay held past its deadline (`OverduePacketCanWait`). What stays
  held is exactly what lies at or past a gap whose next packet is not overdue
  (`SkipAllKeepsExactlyBlocked`), so no overdue packet stays held if and only if
  every packet right behind a gap is overdue whenever a later one is
  (`DeadlineKeptIffOrdered`); `Expire` promises the same for the whole table. The
  head gap itself goes exactly when its packet is due (`HeadGapGoesExactly`).
* **V2 skip order.** The comment promises deterministic key order, but the sort
  leaves the session out of the key: the visiting order is determined exactly when
  no two flows differ in their session only (`OrderIsDeterminedIff`).
* **MTU discovery.** The comment on `discover` speaks of leaving the unknown
  state; the code accepts it in every state, and it may raise the limit
  (`DiscoveryLiftsKnownLimit`). A step raises a known limit or ends a black hole
  exactly when it is a discovery of more, or a discovery or recovery out of a
  black hole (`LimitRisesExactly`); sending never does (`SendingNeverLiftsLimit`).
* **Base64url.** The decoder accepts texts the encoder never writes, such as
  "AB" for the byte encoded as "AA" (`StrayBitsAreAccepted`). A text that decodes
  is what the encoder writes if and only if it has no lone last symbol and the
  last symbol of a short group has no stray low bits
  (`EncodeInvertsDecodeIffCanonical`).

## Model

| member | source | states |
|---|---|---|
| `Quarantine.PruneKeepsAgreement` | crates/sg-session/src/v2.rs:218-231 | pruning keeps the queue a duplicate-free listing of the map and removes only expired entries |
| `Quarantine.PruneAccounts` | crates/sg-session/src/v2.rs:218-231 | live + expired + evicted is unchanged by a prune until saturation |
| `Quarantine.EvictDropsAtMostOne` | crates/sg-session/src/v2.rs:391-399 | within capacity, making room drops nothing below capacity and just the front at capacity, counted as evicted |
| `Quarantine.EntombKeepsAgreement` | crates/sg-session/src/v2.rs:387-411 | a new tombstone keeps the agreement and the capacity, and is accounted for once |
| `Quarantine.SortedPrunesExactly` | crates/sg-session/src/v2.rs:218-231 | on a queue sorted by expiry the front-only prune removes exactly the expired entries |
| `Quarantine.PruneExactIffSorted` | crates/sg-session/src/v2.rs:218-231 | pruning is exact at every time if and only if the queue is sorted by expiry |
| `SessionV2.V2Session.Create` | crates/sg-session/src/v2.rs:153-183 | the constructor accepts exactly nonzero bounds in order up to 65535 and an unexpired admission, refuses each other input with its error, and otherwise yields a valid session |
| `SessionV2.V2Session.PruneTombstones` | crates/sg-session/src/v2.rs:218-231 | the loop over map and queue equals the recursive prune |
| `SessionV2.V2Session.AllocatePathId` | crates/sg-session/src/v2.rs:365-385 | the wrapping scan returns the admissible id nearest after the cursor and steps past it, or fails and leaves the cursor |
| `SessionV2.V2Session.RefuseAttach` | crates/sg-session/src/v2.rs:276-290 | the checks before an identifier is searched for, in order |
| `SessionV2.V2Session.ReserveAttach` | crates/sg-session/src/v2.rs:268-312 | prunes, refuses or reserves as `Reserve` does, whose answers and grants `ReserveAnswers` and `ReserveGrants` state |
| `SessionV2.V2Session.CommitAttach` | crates/sg-session/src/v2.rs:314-326 | commits exactly a matching reservation, which becomes attached |
| `SessionV2.V2Session.AbortAttach` | crates/sg-session/src/v2.rs:328-335 | removes exactly a matching reservation |
| `SessionV2.V2Session.MakeRoom` | crates/sg-session/src/v2.rs:391-399 | the eviction loop equals its recursive form |
| `SessionV2.V2Session.InsertTombstone` | crates/sg-session/src/v2.rs:387-411 | raises the history entry and entombs the id with a saturating expiry |
| `SessionV2.V2Session.DetachPath` | crates/sg-session/src/v2.rs:338-354 | detaches exactly the attached path of that connection and epoch, into quarantine |
| `SessionV2.V2Session.ChangePathState` | crates/sg-session/src/v2.rs:356-363 | moves along the transition table only, never on a reservation |
| `SessionV2.V2Session.ActivateSession` | crates/sg-session/src/v2.rs:238-247 | only a pending unexpired session activates |
| `SessionV2.V2Session.DrainSession` | crates/sg-session/src/v2.rs:249-255 | only an active session drains |
| `SessionV2.V2Session.CloseSession` | crates/sg-session/src/v2.rs:258-266 | closing drops the paths and answers true unless already closed |
| `SessionV2.ScanVisitsEachIdOnce` | crates/sg-session/src/v2.rs:365-385 | from any cursor the 65535 scan positions are pairwise distinct, never zero, cover every id, and return to the cursor |
| `SessionV2.NearestIsUnique` | crates/sg-session/src/v2.rs:365-385 | an admissible id with no admissible id before it in scan order is the one allocated |
| `SessionV2.RoomLeavesAnId` | crates/sg-session/src/v2.rs:365-385 | by pigeonhole, some id is admissible while the epoch history has room |
| `SessionV2.ExhaustedExactly` | crates/sg-session/src/v2.rs:291-296 | exhaustion is reported if and only if the guards pass, the history is full and every remembered id is bound, quarantined or not raised; the cursor then stays |
| `SessionV2.ReserveAnswers` | crates/sg-session/src/v2.rs:268-300 | a reservation is granted if and only if the admission is unexpired, the session active, both epochs nonzero, the connection free, a path slot free and the identifiers not used up; each refusal names the first condition that fails |
| `SessionV2.ReserveGrants` | crates/sg-session/src/v2.rs:291-311 | a grant reserves one unbound and unquarantined identifier with exactly the epochs and connection asked for, moves the cursor just past it, and changes nothing else |
| `SessionV2.CommitAnswers` | crates/sg-session/src/v2.rs:314-326 | a commit succeeds exactly on the entry its reservation opened, and attaches it |
| `SessionV2.AbortAnswers` | crates/sg-session/src/v2.rs:328-335 | an abort succeeds exactly on the entry its reservation opened; the path is then gone and its connection free |
| `SessionV2.AbortedMayReserveAgain` | crates/sg-session/src/v2.rs:268-335 | after an abort the connection may reserve again: neither it nor the path capacity stands in the way |
| `SessionV2.DetachAnswers` | crates/sg-session/src/v2.rs:338-354 | a detach succeeds exactly on the attached path of that connection and epoch; the path is gone, its connection free and its identifier quarantined for the whole time to live |
| `SessionV2.SetPathStateAnswers` | crates/sg-session/src/v2.rs:356-425 | a requested move succeeds exactly along one of the eleven edges of the transition table, never on a reservation, with the error of each refusal |
| `SessionV2.StepKeepsValid` | crates/sg-session/src/v2.rs:136-411 | every operation keeps path, history and tombstone bounds, one path per connection, paths only while active or draining, reserved paths connecting, epochs equal to their history entry, queue and map agreeing, quarantine disjoint from bound paths |
| `SessionV2.ReachableIsValid` | crates/sg-session/src/v2.rs:153-411 | the same after any run from a new session |
| `SessionV2.StepHistory` | crates/sg-session/src/v2.rs:268-411 | only an issue changes the epoch history, and it raises both epochs of its id |
| `SessionV2.HistoryCoversIssues` | crates/sg-session/src/v2.rs:268-354 | after any run every issued reservation is at or below its id's history entry |
| `SessionV2.ReissueRaisesBothEpochs` | crates/sg-session/src/v2.rs:291-311 | a later issue of the same path id has strictly larger path and key epochs |
| `SessionV2.IssuedPairsAreUnique` | crates/sg-session/src/v2.rs:291-311 | no pair of path id and path epoch is ever issued twice, and id zero never |
| `SessionV2.MonotoneClockPrunesExactly` | crates/sg-session/src/v2.rs:218-231 | with nondecreasing detach times, after any run pruning removes exactly the expired tombstones |
| `SessionV2.FallingClockKeepsExpired` | crates/sg-session/src/v2.rs:218-231 | a concrete run with detaches at 100 and 50 whose prune at 70 leaves the entry that expired at 60 |
| `SessionV2.DetachedIsNotReused` | crates/sg-session/src/v2.rs:47-57 | after a successful detach, in any run, the identifier is not issued again before a prune or reservation reads a clock at or past its expiry, or as many further detaches succeed as the quarantine holds |
| `SessionV2.TombstonesConserved` | crates/sg-session/src/v2.rs:205-231 | after any run successful detaches = live + expired + evicted, until saturation |
| `SessionV2.StepIsOrderly` | crates/sg-session/src/v2.rs:238-363 | the state rank never falls in a step, only a true close closes, and a refused call changes nothing but pruned tombstones |
| `SessionV2.StepMovesState` | crates/sg-session/src/v2.rs:238-266 | the session state moves only from pending to active before the expiry, active to draining, and any to closed, each exactly by its own operation; a close drops the paths |
| `SessionV2.StepMovesPath` | crates/sg-session/src/v2.rs:268-425 | over every operation a path is opened by its issue, attached by its commit, moved along an edge, and removed by abort, detach or close; no other part of its entry ever changes |
| `SessionV2.IssuesAreUnexpired` | crates/sg-session/src/v2.rs:268-300 | over any run nothing is issued at or past the expiry, nor outside the active state |
| `SessionV2.RankNeverGoesBack` | crates/sg-session/src/v2.rs:238-266 | the state rank never falls along a run |
| `SessionV2.CloseAnswersTrueOnce` | crates/sg-session/src/v2.rs:258-266 | close answers true at most once in a run |
| `Reorder.ReorderWindow.Record` | crates/sg-multipath/src/lib.rs:301-312 | the array update equals the window's step |
| `Reorder.ReorderBuffer.Feed` | crates/sg-multipath/src/lib.rs:362-399 | a delivery equals its step: duplicate, stale, far ahead, full, held or released |
| `Reorder.ReorderBuffer.DrainContiguous` | crates/sg-multipath/src/lib.rs:380-391 | the releasing loop equals the recursive drain |
| `Reorder.DrainIsContiguous` | crates/sg-multipath/src/lib.rs:380-391 | a drain releases exactly the contiguous held chain and leaves the rest as it was |
| `Reorder.StreamIsInOrder` | crates/sg-multipath/src/lib.rs:346-399 | over any run the output is 0, 1, 2, … each with a payload that arrived under it, and held keys lie within the window |
| `Reorder.ConsistentContentIsDelivered` | crates/sg-multipath/src/lib.rs:346-399 | if each sequence always carries the same payload, the output is the sent stream |
| `Reorder.FullWindowHoldsAll` | crates/sg-multipath/src/lib.rs:393-397 | the full-window drop only ever hits a sequence already held |
| `Reorder.NeverFarAheadIsLossless` | crates/sg-multipath/src/lib.rs:301-399 | when no arrival is too far ahead, what has arrived is exactly the delivered prefix plus the held keys |
| `Reorder.LosslessIffNeverFarAhead` | crates/sg-multipath/src/lib.rs:362-376 | along a run the buffer stays lossless if and only if no arrival was too far ahead |
| `Reorder.HeadIsLeastUnseen` | crates/sg-multipath/src/lib.rs:362-399 | then the head is the least sequence never seen |
| `Reorder.SlotsNameLast` | crates/sg-multipath/src/lib.rs:301-312 | after any run each slot names the last arrival that fell into it, taken or not |
| `Reorder.RefusedIffLastInSlot` | crates/sg-multipath/src/lib.rs:362-397 | after any run an arrival in the window and not held is refused if and only if the last arrival in its slot was that sequence itself |
| `Reorder.ArrivalComesTo` | crates/sg-multipath/src/lib.rs:362-399 | after any run each arrival is delivered, held or dropped exactly by whether it was the last in its slot, its distance from the head against the capacity, and the room left; room is short only for what is already held |
| `Reorder.LastWrittenIsGreatest` | crates/sg-multipath/src/lib.rs:301-312 | the greatest recorded sequence is the greatest that has arrived |
| `Reorder.TakesExpectedIffNoneFollowsItself` | crates/sg-multipath/src/lib.rs:362-397 | every expected arrival of a run is taken if and only if none comes while its slot's last arrival is itself |
| `Reorder.RefusedWasFarAhead` | crates/sg-multipath/src/lib.rs:363-376 | an expected arrival is refused only when an earlier copy of it was too far ahead |
| `Reorder.FarAheadArrivalBlocksItsRetransmission` | crates/sg-multipath/src/lib.rs:363-376 | a concrete run in which a far-ahead arrival is the last in its slot and its expected retransmission is refused |
| `Reorder.RepeatKeepsHeldExactly` | crates/sg-multipath/src/lib.rs:362-399 | one repeat of a held sequence moves no head and no other payload, and takes the place of the held one exactly when it replaces it |
| `Reorder.FirstWinsIffNoneReplaces` | crates/sg-multipath/src/lib.rs:317-399 | at every point of a run each held or delivered payload is the one first accepted for its sequence, if and only if no arrival of the run replaced a held payload |
| `Reorder.StaleRepeatLetsCopyReplace` | crates/sg-multipath/src/lib.rs:317-399 | a concrete run in which a copy replaces a held payload and is delivered |
| `FlowSession.MaxObserved` | crates/sg-multipath/src/v2/reorder.rs:790-799 | the mark of a retired flow is at least all it delivered, skipped or held, and no more |
| `FlowSession.Drain` | crates/sg-multipath/src/v2/reorder.rs:495-513 | the draining loop equals the recursive pull |
| `FlowSession.SkipHeadGap` | crates/sg-multipath/src/v2/reorder.rs:728-785 | skips exactly when the held packet of least identifier has outlived the deadline, and counts the identifiers skipped |
| `FlowSession.SkipOverdue` | crates/sg-multipath/src/v2/reorder.rs:613-617 | repeating the skip equals skipping all overdue head gaps, with their number and span |
| `FlowSession.Accept` | crates/sg-multipath/src/v2/reorder.rs:453-577 | an arrival for an open flow: every drop reason in order, the contiguous delivery, the hold and the immediate skip with its span |
| `FlowSession.SessionReorder.Receive` | crates/sg-multipath/src/v2/reorder.rs:396-577 | one arrival is one allowed step of the session, tombstone test, eviction and opening included; tables and all fifteen counters stay what the steps so far lead to |
| `FlowSession.SessionReorder.InsertTombstone` | crates/sg-multipath/src/v2/reorder.rs:675-707 | expired tombstones go first, then at capacity the one least by expiry, watermark and key; both are counted |
| `FlowReorder.SoonestIsUnique` | crates/sg-multipath/src/v2/reorder.rs:677-690 | the tombstone given up at capacity never depends on map iteration order |
| `FlowReorder.SoonestExpiresFirst` | crates/sg-multipath/src/v2/reorder.rs:677-690 | the tombstone given up expires first; ties go to the lower watermark, then to session, direction, key epoch and flow |
| `FlowSession.SessionReorder.EvictIfFull` | crates/sg-multipath/src/v2/reorder.rs:654-673 | a full table loses one of its least active flows, which leaves a tombstone; flow and tombstone counters follow |
| `FlowSession.SessionReorder.ExpireIdle` | crates/sg-multipath/src/v2/reorder.rs:589-604 | retires exactly the flows idle for their time, each counted |
| `FlowSession.SessionReorder.Expire` | crates/sg-multipath/src/v2/reorder.rs:585-629 | purge, retire exactly the flows past the idle time, then release each surviving flow's overdue gaps, in key order, each visited once, reporting gaps and identifiers skipped; the head gap of a flow goes if and only if its least held packet has waited the bound of its class; no overdue packet is left if and only if every surviving flow was in deadline order |
| `FlowSession.OrderIsDeterminedIff` | crates/sg-multipath/src/v2/reorder.rs:610-614 | the order the flows are visited in is determined if and only if no two of their keys differ in their session only |
| `FlowSession.VisitOrderIs` | crates/sg-multipath/src/v2/reorder.rs:610-611 | flows are visited by flow, then key epoch, then direction |
| `FlowReorder.PullDelivers` | crates/sg-multipath/src/v2/reorder.rs:495-513 | draining delivers consecutive identifiers from the head and stops just past the last |
| `FlowReorder.PullWeighs` | crates/sg-multipath/src/v2/reorder.rs:495-513 | flow and session byte counts fall by exactly the bytes released, without saturating |
| `FlowReorder.OnFlowIsSound` | crates/sg-multipath/src/v2/reorder.rs:453-577 | an arrival moves the head by what it delivers and skips, in consecutive order, and keeps the window and every bound |
| `FlowReorder.ArrivalAnswers` | crates/sg-multipath/src/v2/reorder.rs:453-577 | what an arrival for an open flow answers: the first reason that turns it away, each against its own limit, or delivery at the head |
| `FlowReorder.HeldArrivalSkipsExactly` | crates/sg-multipath/src/v2/reorder.rs:535-577 | an arrival that is held skips the head gap at once if and only if the least packet then held has waited the bound of its class, one clause for each class |
| `FlowReorder.SkipAllIsSound` | crates/sg-multipath/src/v2/reorder.rs:728-785 | skips release rising identifiers, keep the bounds, and leave no gap that is due |
| `FlowReorder.StepKeepsValid` | crates/sg-multipath/src/v2/reorder.rs:396-718 | every step keeps each flow in its window, all packet, byte, flow and tombstone bounds, the session byte total equal to the sum over flows, and no key both open and entombed |
| `FlowReorder.RunKeepsValid` | crates/sg-multipath/src/v2/reorder.rs:396-718 | the same over every run |
| `FlowReorder.StepDeliversBeyondMark` | crates/sg-multipath/src/v2/reorder.rs:396-785 | a step that does not forget a key delivers for it only beyond everything seen before, rising |
| `FlowReorder.DeliveriesIncrease` | crates/sg-multipath/src/v2/reorder.rs:396-785 | over any run that keeps a key's tombstone, through evictions, expiries and reopenings, its deliveries strictly increase: no replay is delivered again |
| `FlowReorder.HeldIsKeptOrDelivered` | crates/sg-multipath/src/v2/reorder.rs:394-577 | first valid wins: unless its flow is retired, a held packet stays untouched until delivered as it arrived, and nothing else is delivered but the arriving packet |
| `FlowReorder.DeliveredIsArrived` | crates/sg-multipath/src/v2/reorder.rs:396-629 | over any run from an empty session every delivered packet arrived for that key with that identifier and payload |
| `FlowReorder.OtherFlowsAreUntouched` | crates/sg-multipath/src/v2/reorder.rs:392-395 | a step touches no flow but its own, except to evict the least active one |
| `FlowReorder.SkipIgnoresSession` | crates/sg-multipath/src/v2/reorder.rs:728-785 | what a flow releases does not depend on what others hold |
| `FlowReorder.ForgetsExactly` | crates/sg-multipath/src/v2/reorder.rs:420-438 | a key without a flow loses its tombstone, or reopens past it, exactly when the clock has passed the expiry as the tables are touched or a flow retires into a full tombstone table with that tombstone first to go |
| `FlowReorder.ReplayIsRefusedUntilExpiry` | crates/sg-multipath/src/v2/reorder.rs:420-438 | over any run in which a retired key is neither forgotten nor opened anew, an arrival for it is refused as a duplicate exactly at or below the watermark and before the retirement time plus the time to live |
| `FlowReorder.StepTouches` | crates/sg-multipath/src/v2/reorder.rs:453-577 | a flow's last activity is its last arrival of its own class, dropped ones included, or its last skip, and nothing else |
| `FlowReorder.SkipAllKeepsExactlyBlocked` | crates/sg-multipath/src/v2/reorder.rs:728-785 | what stays held after all due skips is exactly what lies at or past a gap whose next packet is not overdue, unchanged |
| `FlowReorder.HeadGapGoesExactly` | crates/sg-multipath/src/v2/reorder.rs:728-785 | the head gap is skipped if and only if the held packet of least identifier has waited the realtime, interactive or bulk bound, by class; it then goes out first, and otherwise nothing moves |
| `FlowReorder.InteractiveGapGoesAtHundred` | crates/sg-multipath/src/v2/reorder.rs:113-153 | with the default limits, interactive arrivals 0 and 2 at time 0: a skip at 99 delivers nothing, one at 100 delivers 2 |
| `FlowReorder.BulkGapGoesAtFiveHundred` | crates/sg-multipath/src/v2/reorder.rs:113-153 | the same for a bulk flow at 499 and 500 |
| `FlowReorder.DeadlineKeptIffOrdered` | crates/sg-multipath/src/v2/reorder.rs:725-785 | no overdue packet stays held if and only if, before the call, whenever a packet was overdue so was the one right behind every gap before it |
| `FlowReorder.DeadlinesKeptIffOrdered` | crates/sg-multipath/src/v2/reorder.rs:605-617 | the same for all flows of a table at once |
| `FlowReorder.OverduePacketCanWait` | crates/sg-multipath/src/v2/reorder.rs:725-754 | from an empty session with the default limits, the arrivals 0, 5, 3 and a skip at 30 leave packet 5 held past its deadline of 20 |
| `FlowMetrics.MetricsAfterCount` | crates/sg-multipath/src/v2/reorder.rs:248-288 | every counter of the session grows in each step by what the step adds to it, saturating |
| `FlowMetrics.LawfulSnoc` | crates/sg-multipath/src/v2/reorder.rs:396-718 | over any run each counter is the saturated sum of what the steps added |
| `FlowMetrics.StepConservesArrivals` | crates/sg-multipath/src/v2/reorder.rs:396-577 | one step: the arrival and the packets held before are delivered, dropped by reason, held after, or lost with a retired flow |
| `FlowMetrics.ArrivalsAreConserved` | crates/sg-multipath/src/v2/reorder.rs:396-718 | over every run from an empty session arrivals = delivered + dropped by reason + still held + lost with retired flows |
| `FlowMetrics.CountersConserveArrivals` | crates/sg-multipath/src/v2/reorder.rs:248-288 | the same on the object's own counters, until one of them has reached its greatest value |
| `FlowMetrics.CountersStandForAnswers` | crates/sg-multipath/src/v2/reorder.rs:248-288 | on the object, each drop counter is the saturated number of arrivals answered with its reason, the deliveries those of the packets delivered, and the two flow counters those of the flows lost to an arrival and to idleness |
| `FlowMetrics.HeadMovesByCounters` | crates/sg-multipath/src/v2/reorder.rs:728-785 | a step moves its flow's head by exactly the packets it delivers and the identifiers it counts as skipped |
| `Health.EligibleScoresPositive` | crates/sg-health/src/lib.rs:42-44 | an eligible path scores above 0.06 |
| `Health.ScoresDifferBy` | crates/sg-health/src/lib.rs:109-122 | two reachable paths differ in score by 0.40, 0.30, 0.20 and 0.10 of the spans of bandwidth to 50 Mbps, loss to a quarter, latency to 200 ms and jitter to 50 ms |
| `Health.NoWorseScoresNoLess` | crates/sg-health/src/lib.rs:109-122 | a path no worse in any metric scores no less, and more exactly when it is better in a metric below the point past which it stops counting |
| `Health.ScoresRange` | crates/sg-health/src/lib.rs:109-122 | scores lie from 0, for an unreachable path, to 1, for a perfect one only |
| `Scheduler.WeightedBondingScheduler.UpdateFrom` | crates/sg-multipath/src/lib.rs:93-110 | the weights are those the known metrics give |
| `Scheduler.WeightedBondingScheduler.UpdateMetrics` | crates/sg-multipath/src/lib.rs:247-251 | one path's metrics change and the weights are those the metrics now give |
| `Scheduler.WeightedBondingScheduler.Recompute` | crates/sg-multipath/src/lib.rs:226-243 | the loops compute each eligible path's score over the total, or nothing when none is eligible; `HealthierWeighsMore` says what the scores prefer |
| `Scheduler.WeightedBondingScheduler.AdoptWeights` | crates/sg-multipath/src/lib.rs:135-153 | the kept entries divided by the total of all positive entries; accumulators stay |
| `Scheduler.WeightedBondingScheduler.NormalizedWeights` | crates/sg-multipath/src/lib.rs:114-123 | lists exactly the positive weights in path order |
| `Scheduler.WeightedBondingScheduler.PreferredPath` | crates/sg-multipath/src/lib.rs:160-186 | the greatest positive weight; a tie goes to the current path, else the lowest id |
| `Scheduler.WeightedBondingScheduler.Decide` | crates/sg-multipath/src/lib.rs:192-220 | one round: all eligible accumulators advance, the greatest wins and pays the total |
| `Scheduler.DecidedIsDeterministic` | crates/sg-multipath/src/lib.rs:192-220 | the decision and the new accumulators do not depend on map order |
| `Scheduler.PreferredIsDeterministic` | crates/sg-multipath/src/lib.rs:160-186 | nor does the preferred path |
| `Scheduler.PreferredIsGreatest` | crates/sg-multipath/src/lib.rs:160-186 | the preferred path has the greatest positive weight; the active one is kept when it has it, else the lowest identifier is named |
| `Scheduler.HealthWeightsCoverEligible` | crates/sg-multipath/src/lib.rs:226-243 | the positive-weight paths are exactly the eligible ones and their weights add up to one |
| `Scheduler.HealthierWeighsMore` | crates/sg-multipath/src/lib.rs:222-243 | of two eligible paths the weights differ by the difference of the four shares over the total score; a path no worse in any metric weighs no less, and more exactly when it is better where it counts |
| `Scheduler.PreferredScoresBest` | crates/sg-multipath/src/lib.rs:160-243 | with weights from health the preferred path is an eligible one that no eligible path outscores |
| `Scheduler.UnmeteredTakesPart` | crates/sg-multipath/src/lib.rs:93-110 | a listed path without metrics takes part after an update, with the weight of a score of 0.6 |
| `Scheduler.SkipsIffNoneEligible` | crates/sg-multipath/src/lib.rs:192-220 | decide skips if and only if no path is eligible, and otherwise sends on an eligible one |
| `Scheduler.AdoptedSumToOneIffDistinct` | crates/sg-multipath/src/lib.rs:135-153 | adopted weights add up to one if and only if no path has two positive entries, and never to more |
| `Scheduler.AdoptsLastEntry` | crates/sg-multipath/src/lib.rs:135-153 | a path weighs the last positive entry that names it over the sum of all positive entries |
| `Scheduler.RunKeepsBalance` | crates/sg-multipath/src/lib.rs:192-220 | over any unit-total run without departures accumulators add up to zero, stay above minus one, and equal earned weight minus picks |
| `Scheduler.RoundRobinIsFair` | crates/sg-multipath/src/lib.rs:192-220 | each of n paths is picked fewer than its earned weight plus one times and at least its earned weight minus (n - 1) times |
| `Scheduler.SteadyRunIsUnitRun` | crates/sg-multipath/src/lib.rs:93-243 | in any run of updates, single metrics, advertisements and decisions in which no path leaves and no advertisement repeats a path, every round has weights adding up to one and starts where the last ended |
| `Scheduler.SchedulerIsFair` | crates/sg-multipath/src/lib.rs:93-243 | over every such run of the scheduler's own operations each path is sent on within the fairness bounds |
| `Scheduler.AccumulatorsDrift` | crates/sg-multipath/src/lib.rs:93-243 | over any run in which no path leaves, repeats allowed, the accumulators add up to the sum over rounds of weights minus one |
| `Scheduler.BalancedIffListedOnce` | crates/sg-multipath/src/lib.rs:135-243 | after such a run the accumulators balance if and only if the weights in force at each round were listed without repeats, and never exceed zero |
| `Scheduler.RepeatedEntryDrifts` | crates/sg-multipath/src/lib.rs:135-220 | a run of any length with one path listed twice leaves its accumulator at minus half the number of rounds |
| `SessionV1.Session.Add` | crates/sg-session/src/lib.rs:82-93 | binds a new path, first one active; refuses a bound id |
| `SessionV1.Session.SetActivePath` | crates/sg-session/src/lib.rs:113-124 | only a bound path becomes active |
| `SessionV1.Session.RemovePath` | crates/sg-session/src/lib.rs:133-154 | promotes the lowest remaining path and prunes the bond |
| `SessionV1.Session.PruneBond` | crates/sg-session/src/lib.rs:139-152 | re-adopts the surviving weights, or drops the bond when none survive |
| `SessionV1.Session.AdoptDownlinkWeights` | crates/sg-session/src/lib.rs:184-205 | keeps usable entries of bound paths, replaces the bond and answers how many |
| `SessionV1.Session.DownlinkDecide` | crates/sg-session/src/lib.rs:218-228 | an expired bond is dropped, a fresh one decides |
| `SessionV1.Session.PickEgress` | apps/streamguard-gateway/src/tunnel.rs:573-587 | decide, else the active path |
| `SessionV1.StepKeepsValid` | crates/sg-session/src/lib.rs:82-228 | the active path is bound and exists iff some path is bound, and every positive weight of the bond belongs to a bound path |
| `SessionV1.RunIsValid` | crates/sg-session/src/lib.rs:82-228 | the same after any run |
| `SessionV1.StepMovesActive` | crates/sg-session/src/lib.rs:82-154 | the active path after each step: the first added, the one selected, the lowest left when the active one goes, else the one before |
| `SessionV1.RemovalKeepsRatios` | crates/sg-session/src/lib.rs:133-154 | removing a path takes it out of the bond, which goes only when no other path of it is left; the time to live stays and the remaining weights keep their ratios |
| `SessionV1.UsableExactly` | crates/sg-session/src/lib.rs:184-192 | an advertised entry survives, as often as it was listed, exactly when it names a bound path with a positive weight |
| `SessionV1.AdoptedDecidesUntilExpiry` | crates/sg-session/src/lib.rs:184-228 | an adopted advertisement decides from its adoption until its time to live is over, if some entry was usable, and never otherwise |
| `SessionV1.FreshBondNeverSkips` | crates/sg-session/src/lib.rs:218-228 | in every reachable session a decision is made exactly while a bond is unexpired, and names a bound path |
| `SessionV1.PickIsBoundIffAnyPath` | apps/streamguard-gateway/src/tunnel.rs:573-587 | the egress choice yields a bound path if and only if the session has any path |
| `Codec.ValueInvertsBigEndian` | crates/sg-protocol/src/v2.rs:115-133 | reading back a big-endian field |
| `Codec.BigEndianInvertsValue` | crates/sg-protocol/src/v2.rs:135-200 | writing back a field that was read |
| `Codec.BytesFallInWeight` | crates/sg-protocol/src/v2.rs:115-133 | the most significant byte of a field comes first |
| `Codec.HeaderLayout` | crates/sg-protocol/src/v2.rs:115-133 | version, class, flag and direction bytes by value, and each header field at its fixed offset in network byte order |
| `Codec.DecodeInvertsEncode` | crates/sg-protocol/src/v2.rs:115-200 | decoding an encoded envelope gives it back, under any sufficient limit |
| `Codec.EncodeInvertsDecode` | crates/sg-protocol/src/v2.rs:115-200 | whatever decodes re-encodes to the same bytes |
| `Codec.CodecIsBijection` | crates/sg-protocol/src/v2.rs:115-230 | under one limit encode and decode are inverse relations |
| `Codec.EncodesExactly` | crates/sg-protocol/src/v2.rs:203-230 | which envelopes encode, and the error of each other one: the first of class, epochs and payload length that is wrong |
| `Codec.DecodesExactly` | crates/sg-protocol/src/v2.rs:135-201 | which datagrams decode, by byte and offset, and what each field is read from |
| `Codec.DecodeErrors` | crates/sg-protocol/src/v2.rs:135-152 | the error of a datagram whose leading bytes are wrong: the first one |
| `Codec.FieldErrors` | crates/sg-protocol/src/v2.rs:153-230 | the error of any other datagram that does not decode |
| `Mtu.ChecksAgree` | crates/sg-transport/src/mtu.rs:400-458 | the payload check and the whole-datagram check accept the same nonempty payloads |
| `Mtu.MtuAdmission.Create` | crates/sg-transport/src/mtu.rs:562-572 | a gate exists exactly when the TUN payload fits a datagram, and starts unknown; otherwise the error names the size and the maximum |
| `Mtu.MtuAdmission.SyncFromTransport` | crates/sg-transport/src/mtu.rs:646-659 | the gate's new state, event and counters |
| `Mtu.MtuAdmission.ReportDiscovery` | crates/sg-transport/src/mtu.rs:602-608 | discovery is accepted in every state, with its event and counters |
| `Mtu.MtuAdmission.ReportReduction` | crates/sg-transport/src/mtu.rs:611-616 | a report takes hold only when strictly smaller, with its event and counters |
| `Mtu.MtuAdmission.ReportBlackhole` | crates/sg-transport/src/mtu.rs:619-624 | a sendable path is black-holed and counted |
| `Mtu.MtuAdmission.ReportRecovery` | crates/sg-transport/src/mtu.rs:627-632 | only a black hole recovers |
| `Mtu.MtuAdmission.RejectAbsentLimit` | crates/sg-transport/src/mtu.rs:665-670 | an absent transport limit is one rejection as unknown |
| `Mtu.MtuAdmission.Admit` | crates/sg-transport/src/mtu.rs:700-711 | both checks, one admitted or one rejected count |
| `Mtu.PacketIdSequencer.Preview` | crates/sg-transport/src/mtu.rs:831-845 | previews the head without moving it, until exhausted |
| `Mtu.PacketIdSequencer.CommitId` | crates/sg-transport/src/mtu.rs:849-865 | commits only the previewed id, and turns exhausted at the last |
| `Mtu.CheckedDatagramSender.SendChecked` | crates/sg-transport/src/mtu.rs:1104-1186 | the whole pipeline equals `Send`, handed datagram included; `TurnsAwayExactly` and `FittingIsHandedOver` state every answer |
| `Mtu.SyncNeverExceedsTransport` | crates/sg-transport/src/mtu.rs:646-659 | after a sync the limit is at most the transport's and never above the old one, or the path is black-holed |
| `Mtu.TurnsAwayExactly` | crates/sg-transport/src/mtu.rs:1104-1134 | a send is rejected if and only if a live counter meets no limit, an empty payload, a black hole, or 52 bytes of header and the payload above the lesser of the advertised and the known limit; reason and numbers in each case |
| `Mtu.FittingIsHandedOver` | crates/sg-transport/src/mtu.rs:1136-1186 | a send that fits, whose builder returns the previewed id and an envelope that encodes in the room left, is handed over and answers that id exactly when the transport takes it; each other answer by its cause |
| `Mtu.StepMovesPath` | crates/sg-transport/src/mtu.rs:278-353 | where every operation leaves the path: discovery and recovery say so, a send learns an unknown limit, and sends and reductions only bring a known one down |
| `Mtu.HandedDatagramIsSound` | crates/sg-transport/src/mtu.rs:1104-1186 | any datagram handed over fits the limit advertised in that call and decodes to the built envelope with the previewed id, whatever the builder does |
| `Mtu.OnlySuccessCommits` | crates/sg-transport/src/mtu.rs:1104-1186 | an id is committed exactly on success, and exhaustion touches nothing |
| `Mtu.OkIdsAreConsecutive` | crates/sg-transport/src/mtu.rs:798-865 | over any run the successful ids are start, start + 1, … without gap, repeat or wrap |
| `Mtu.ExhaustionIsForever` | crates/sg-transport/src/mtu.rs:831-865 | after exhaustion every send is refused for good |
| `Mtu.CountersTally` | crates/sg-transport/src/mtu.rs:1219-1262 | after any run each of the seven counters is the saturated number of steps it stands for: sends and admissions by outcome, reductions to a smaller limit, black holes of a sendable path |
| `Mtu.StandsByKind` | crates/sg-transport/src/mtu.rs:716-730 | an admission is an enqueued, encode-failed or transport-failed send or a direct admission, once each; the other outcome counters stand for their own kind |
| `Mtu.AdmittedIsConserved` | crates/sg-transport/src/mtu.rs:716-730 | until saturation and without direct admissions, admitted = enqueued + encode failures + transport failures, and enqueued = ids committed |
| `Mtu.ReachableIsCoherent` | crates/sg-transport/src/mtu.rs:228-353 | over any run the stored payload limit is the one the datagram limit leaves, and a reduced limit lies below its recorded previous one |
| `Mtu.LimitRisesExactly` | crates/sg-transport/src/mtu.rs:280-353 | a step raises a known limit or ends a black hole if and only if it is a discovery of more, or a discovery or recovery out of a black hole |
| `Mtu.SendingNeverLiftsLimit` | crates/sg-transport/src/mtu.rs:646-659 | along any run without discovery and recovery a known limit never rises and a black hole never ends |
| `Mtu.DiscoveryLiftsKnownLimit` | crates/sg-transport/src/mtu.rs:278-295 | a concrete run in which discovery raises an available limit |
| `Driver.ReachableIsBalanced` | crates/sg-tun/src/driver.rs:547-576 | under any interleaving each egress gauge equals its queue plus what is in flight, and the queue stays in bounds |
| `Driver.QueuesStayWithinBounds` | crates/sg-tun/src/driver.rs:547-576 | bytes and packets queued never exceed the realtime bounds in the first lane, the interactive ones in the second, the bulk ones in the third, and no gauge falls below its queue |
| `Driver.SettledGaugesEqualQueues` | crates/sg-tun/src/driver.rs:547-576 | once sends settle each gauge equals its queue's contents |
| `Driver.BeginTakesExactly` | crates/sg-tun/src/driver.rs:515-545 | a send goes on exactly with a data class and a packet neither empty nor oversize while nothing has stopped, and heads for the lane of its class |
| `Driver.SendAloneEnqueuesIffRoom` | crates/sg-tun/src/driver.rs:545-576 | a send nobody interferes with enqueues its packet exactly when the bounds of its class leave room for its bytes and for one more packet; a refused one leaves no trace |
| `Driver.WriteIsJudged` | crates/sg-tun/src/driver.rs:919-950 | a write is good exactly when the backend takes the whole packet; anything else is a write fault with its message |
| `Driver.ReadIsJudged` | crates/sg-tun/src/driver.rs:952-975 | an empty read is a fault, an oversize one is dropped and counted, any other is taken up |
| `Driver.ReadAloneDeliversIffRoom` | crates/sg-tun/src/driver.rs:952-1011 | a packet read while nobody interferes is delivered exactly when the ingress queue has room for its bytes and for one more packet, else the counter of that reason grows |
| `Driver.ReachableIsInOrder` | crates/sg-tun/src/driver.rs:898-950 | written, in hand and queued packets of a class are its enqueued packets, in order |
| `Driver.ClassesLeaveInOrder` | crates/sg-tun/src/driver.rs:898-950 | each class is written in enqueue order |
| `Driver.WritesFollowSchedule` | crates/sg-tun/src/driver.rs:898-950 | each pass writes at most one packet a lane, in drain order |
| `Driver.ClassesKeepToTheirLanes` | crates/sg-tun/src/driver.rs:420-427 | under any interleaving the lanes drained first, second and third hold exactly packets begun as realtime, interactive and bulk |
| `Driver.PassesFavourRealtime` | crates/sg-tun/src/driver.rs:898-950 | of two packets written in one pass the earlier was sent as realtime and the later as interactive or bulk, or as interactive and as bulk |
| `Driver.TurnsOnlyEndAtTurns` | crates/sg-tun/src/driver.rs:903-950 | absent fault and shutdown, a class's turn ends with exactly one packet written or its queue found empty, and nothing is written in between |
| `Driver.WrittenWithinPasses` | crates/sg-tun/src/driver.rs:898-950 | a packet with k ahead of it in its class is written within k + 1 passes |
| `Driver.AtMostOneCallAfterStop` | crates/sg-tun/src/driver.rs:898-1011 | once shut down or failed the worker calls the backend at most once more, under any interleaving |
| `Driver.StoppedWorkerExits` | crates/sg-tun/src/driver.rs:898-953 | a stopped worker skips its remaining classes, and at a loop head closes every queue and is gone |
| `Driver.SplitStopTestIsAtomic` | crates/sg-tun/src/driver.rs:898-904 | reading the shutdown flag and, any steps later, the failure cell answers what reading both at once would have at one of the two moments |
| `Driver.FirstFailureIsKept` | crates/sg-tun/src/driver.rs:467-495 | the first recorded failure never changes |
| `Driver.TerminalMeansFailure` | crates/sg-tun/src/driver.rs:467-495 | a failure is recorded exactly when the terminal signal is set or about to be set by the one that recorded it |
| `Driver.ReachableFaultIsFinal` | crates/sg-tun/src/driver.rs:919-1011 | only the last backend call can have failed, and the worker is then on its way out |
| `Driver.NoCallAfterFault` | crates/sg-tun/src/driver.rs:919-1011 | after its own fault the worker makes no further backend call |
| `Driver.ReachableIngressIsCounted` | crates/sg-tun/src/driver.rs:952-1011 | every packet read is delivered, dropped or still undecided |
| `Driver.ReceivedIsAccountedFor` | crates/sg-tun/src/driver.rs:952-1011 | at loop boundaries received = delivered + the three drop counts |
| `Driver.ReceivedInReadOrder` | crates/sg-tun/src/driver.rs:722-776 | the owner receives an in-order subsequence of what was read |
| `Driver.ReceiveTakesFront` | crates/sg-tun/src/driver.rs:722-750 | the owner is given the front of the ingress queue unless a failure is recorded or nothing is queued |
| `Driver.IngressStaysWithinBounds` | crates/sg-tun/src/driver.rs:952-1011 | the ingress gauges equal their queue plus what is in flight, and the queue stays in bounds |
| `Base64.EncodeBytes` | crates/sg-auth/src/lib.rs:158-174 | the chunk loop writes the encoding of the whole input |
| `Base64.DecodeText` | crates/sg-auth/src/lib.rs:176-197 | the streaming loop equals the recursive decoder |
| `Base64.TableHoldsSymbols` | crates/sg-auth/src/lib.rs:156-157 | the table is the alphabet of section 5 of RFC 4648 |
| `Base64.AlphabetCodes` | crates/sg-auth/src/lib.rs:156-157 | the alphabet by character code: capitals, small letters, digits, hyphen, underscore |
| `Base64.EncodingSpellsBytes` | crates/sg-auth/src/lib.rs:158-174 | each four symbols, or the two or three at the end, spell their bytes as one big-endian number filled up with zero bits |
| `Base64.SymbolValueInvertsSymbol` | crates/sg-auth/src/lib.rs:176-190 | the decoder's symbol test inverts the table |
| `Base64.DecodeInvertsEncode` | crates/sg-auth/src/lib.rs:158-197 | decoding inverts encoding for every byte sequence, through the truncating 32-bit accumulator |
| `Base64.CanonicalIffClean` | crates/sg-auth/src/lib.rs:176-197 | symbols re-encode to themselves exactly when no stray bits are left pending |
| `Base64.EncodeInvertsDecodeIffCanonical` | crates/sg-auth/src/lib.rs:158-197 | a decodable text is what the encoder writes if and only if its length is not 1 modulo 4 and the last symbol of a short group has its unused low bits zero |
| `Base64.StrayBitsAreAccepted` | crates/sg-auth/src/lib.rs:176-197 | "AB" decodes although the encoder writes "AA" for its byte |

## Left out

- f32 rounding, NaN and infinity: weights, scores and accumulators are reals.
- `crates/sg-health/src/lib.rs` `record_probe`: the scheduler only consumes metrics, so any metrics are allowed.
- Driver memory ordering and gauge wrap-around: the atomics are sequentially consistent steps on unbounded integers; the balance theorems show the gauges stay nonnegative.
- Driver form: concurrent threads are a state machine on values rather than a class, so aliasing of the shared cell is not modelled.
- Driver rejection and error counters, `DriverConfig::validate`, `await_terminal` and the interrupt trigger: they do not affect the queues; the closing of all queues on worker exit is one step.
- Driver thread start and join: only their effect on flags and queues is modelled.
- Replacing a whole gate through `admission_mut`: direct reports and admissions on the gate are modelled, replacing the object is not.
- Async scheduling of `send_checked`: a call is one step; the builder and the transport are arbitrary functions chosen anew for each call.
- V1 session sequencer and `enqueue_incoming`: the reorder buffer is modelled on its own; transports are opaque values.
- FlowSession.SessionReorder.EvictIfFull: any least active flow may go, because the code's choice among equally inactive flows depends on hash map order.
- FlowSession.SessionReorder.ExpireIdle: idle flows may be retired in any order, because the code collects them from a hash map.
- V2 reorder live totals (`flows`, `tombstones`, `buffered_packets`, `buffered_bytes`): recomputed from the tables on request; the fifteen running counters are modelled.
- FlowSession.SkipOverdue: the code adds to the counters once per gap, the model once per flow, which comes to the same because saturating addition does.
- V1 envelope and control codecs, V2 classifier and duplicate suppression, session manager and gateway address pool: either easier than their V2 counterparts or outside the paths modelled here.
- QUIC and TLS, tickets and signatures, firewall and routing, interface scanning, status IPC and the user interface: foreign libraries, operating system calls or thin projections.
