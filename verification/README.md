# Urban Goggles: a verified model of the delay cascade pipeline

A streaming service watches subway delays, decides which transfers they break, predicts how the broken transfers cascade
through the network, and later compares each prediction with what passengers experienced. This project models its state
machines and its arithmetic in Dafny and proves what they promise, over every input, every run and every choice the
program leaves open (map iteration order, ties in the heap, interleavings, failures and redeliveries).

Verify everything with `dafny verify dfyconfig.toml`.

## How the model is laid out

- `Common`, `Schedule`, `Events`: arithmetic as Go does it (rounding half away from zero, truncation toward zero), the
  transit graph with its queries, and the delay event.
- `ImpactHeap`: the binary max-heap over an array, with the in-place sifting of `container/heap`.
- `Cascade`: the walk. A class with the heap, the visited set and the result is refined to runs of a step relation in
  which any item of greatest delay may be popped; the class's own loop is proved to perform such a run and to terminate.
  `CascadeTheorems`, `CascadeOrder` and `CascadeDescending` hold the theorems about all runs, `CascadeMeaning` what a
  result says in terms of the timetable alone.
- `Tracking`, `Registration`: the primary, the baselines, and what TrackPrediction hands to the pending store.
  `SeededStops`, `PrimarySelection`, `LoopLine`: which impact of a walk is marked as primary.
- `PendingStore`: the Redis layout as a class, with failing commands. `PendingProtocol`: the same operations cut into single
  commands and interleaved arbitrarily. `PendingPhases`, `PendingKeys`, `PendingCopies`: what every command keeps.
  `PendingTheorems`: what holds over all interleavings. `PendingLeaks`: what becomes of an index entry. `PendingDue`: nothing is
  finalized before its time.
  `PendingComposition`: uninterrupted processes do what the class's methods do. `PendingSessions`: several sessions matching
  one pending at once.
- `Estimates`: bounds of the initial-delay estimate and of the per-stop blend.
- `Transfers`, `EndToEnd`: the detector's verdict, the evaluator's realized wait, and their agreement across the pipeline.
- `GraphBuild`, `Headway`, `Sorting`: the index loops, proved equal to filters of the plain rows.
- `Reconcile`: the reconciled delay state under failures and lost replies. `Enrich`: delay recovery across midnight.
  `Differ`: change detection between polls. `Consumer` and `ClaimLoop`: the commit protocol and the loop that follows it.

Where the code changes state in place, the model is a class whose methods are proved against functions of the old state,
and the properties are lemmas about those functions or about runs of them. Integers are unbounded and fractions are reals.
Composite string keys are tuples.

## Where the code differs from its own comments, and other limits found

- The comment at internal/evaluation/evaluator.go:126-128 says impacts arrive in descending delay order. They need not:
  `CascadeDescending.DefaultsInvert` shows it for the shipped defaults, `DescendingExactly` gives the exact configurations
  with blending and `DescendingExactlyUnblended` those without it, where `CascadeOrder.BoundedInversion` bounds how far the
  order can stray. Tracking the primary first makes the code safe against this.
- The primary is not always the first downstream stop's impact. `PrimarySelection.PrimaryExactly` says exactly when it is;
  `LoopLine.LoopMisleads` is a trip that calls twice at one station, on which it is not.
- The tracking cap (internal/evaluation/evaluator.go:91-93) counts Adds that succeeded. An Add whose reply is lost leaves its
  key behind uncounted, so the server can hold more; `Registration.HeldWithinCapExactly` says exactly when it cannot.
- The comment at internal/evaluation/evaluator.go:245-248 rests on one session per partition, while a session that has lost
  its partition may still be in the middle of a message (cmd/processor/main.go:224-299). Two of them can lose an observed
  maximum (`PendingSessions.LostMaximum`, `NeverFallsExactly`).
- Delivering an event twice to the delay state is not idempotent when its first delivery was dampened
  (`Reconcile.RedeliveryKeepsDelay`, `RedeliveryMovesDelay`).
- A delay of exactly half a day is recovered or not depending on the side of midnight (`Enrich.RecoveryExactly`), and a
  train scheduled on the stroke of midnight is measured from the observation time (`Enrich.EnrichedArrivalTod`).
- A key that expires before its sweep leaves its match-index entry behind until that index expires
  (`PendingLeaks.LeakingRun`, `EvictedEntryExactly`); no other entry is ever without an owner
  (`PendingTheorems.LeakedEntriesAreEvicted`).

## Model

| member | source | states |
|---|---|---|
| Schedule.GetNextDepartures | internal/graph/graph.go:247-263 | The binary search and the capped loop return exactly the first n departures of the route at or after the time, in the station's list; the meaning of that answer is EarliestDepartures |
| Schedule.SearchDeparture | internal/graph/graph.go:251-253 | The search returns the boundary: every earlier row departs before the time, every later one at or after it |
| Schedule.ClockReading | internal/graph/graph.go:64-70 | The second of the day is the local time, or the present for a missing timestamp, less whole days |
| Schedule.OnRouteExact | internal/graph/graph.go:247-263 | The route scan holds a row if and only if it is listed at the station, is on the route and departs at or after the time; it stays in departure order |
| Schedule.EarliestDepartures | internal/graph/graph.go:247-263 | Returned rows are candidates in departure order; all candidates are returned when fewer than n exist, otherwise nothing left out departs before what is returned |
| Schedule.FirstIsEarliest | internal/graph/graph.go:247-263 | The first row of an answer departs no later than any candidate, and the answer is empty only when there is no candidate |
| Schedule.NextDeparturesAfter | internal/graph/graph.go:276-286 | Both frames are tried and the answer and frame are those of NextDeparturesWrapped, whose optimality is LeastWaitFrame |
| Schedule.LeastWaitFrame | internal/graph/graph.go:268-286 | The frame returned is the raw time or, before 04:00 only, a day later; among the allowed frames it has the least wait to a first departure, and a tie keeps the raw frame |
| Schedule.GetDownstreamStops | internal/graph/graph.go:290-309 | The nested loops return the tail of the first listed trip that qualifies |
| Schedule.DownstreamMeaning | internal/graph/graph.go:290-309 | The result is the tail of a trip of that route and direction behind a visit to the station; it is empty if and only if no listed trip of them continues past it |
| Schedule.GetScheduledStopTime | internal/graph/graph.go:331-349 | The two loops find the row for the raw stop first, then the first row at the same parent station, of the resolved trip |
| Schedule.ScheduledRowMeaning | internal/graph/graph.go:331-349 | The row found is the resolved trip's first call at the very stop or, only when the trip never calls there, its first at the station; there is none if and only if the trip is unknown or never calls at the station |
| ImpactHeap.ImpactQueue.Push | internal/propagation/engine.go:365-379 | heap.Push keeps the heap order and adds exactly one item |
| ImpactHeap.ImpactQueue.Pop | internal/propagation/engine.go:365-379 | heap.Pop returns an item no smaller in delay than any queued one, removes exactly it and keeps the heap order |
| ImpactHeap.ImpactQueue.Up | internal/propagation/engine.go:365-379 | Sifting a misplaced leaf up restores the heap order and keeps the items |
| ImpactHeap.ImpactQueue.Down | internal/propagation/engine.go:365-379 | Sifting a misplaced root down restores the heap order and keeps the items |
| ImpactHeap.RootIsGreatest | internal/propagation/engine.go:368 | In a heap ordered by parent and child the root is greatest among all items |
| Cascade.Propagate | internal/propagation/engine.go:74-158 | The result is that of a run of single iterations, each taking some item of greatest delay, entered below the cap and stopped with an empty queue or at the cap; termination holds without the cap |
| Cascade.Walk.SeedDownstream | internal/propagation/engine.go:187-224 | The loop with its running total adds to the heap exactly the items of the seed |
| Cascade.SeedItemsMeaning | internal/propagation/engine.go:187-224 | The seed's items follow the downstream stops one to one up to the first that fails the confidence or threshold cut-off; the first stop is never cut off |
| Cascade.AccumulatedClosed | internal/propagation/engine.go:207-210 | The running total at the i-th stop is the start delay plus i rounded dwell steps |
| Cascade.Walk.PropagateTransfers | internal/propagation/engine.go:258-307 | For every order of the route set the nested loops add exactly the broken connections towards unvisited keys |
| Cascade.TransferItemsMeaning | internal/propagation/engine.go:258-307 | An item is pushed for an impact if and only if some outbound transfer to another route passes the margin, confidence and delay gates towards an unvisited key |
| Cascade.Walk.Expand | internal/propagation/engine.go:135-146 | An accepted impact adds its broken connections and, for a cascade whose direction can be derived, the ripple down its route; nothing when a gate fails |
| Cascade.Walk.Iterate | internal/propagation/engine.go:114-147 | One loop pass is one step of the walk: pop a greatest item, skip a visited key, or report it and expand it |
| Cascade.Walk.Drain | internal/propagation/engine.go:114-147 | The loop performs a run of such steps and stops exactly when the queue is empty or the cap is reached |
| Cascade.StepDecreases | internal/propagation/engine.go:114-147 | Every pass visits a new key of a finite universe or shortens the queue, whether or not there is a cap |
| Cascade.DownstreamIndexed | internal/graph/graph.go:290-309 | Downstream stops are rows of an indexed trip |
| CascadeTheorems.Provenance | internal/propagation/engine.go:111-147 | Every impact is on the initial seed or has an earlier impact of the same result as parent: a cascade_transfer a parent whose delay meets transfer time plus live delay, with delay trunc(parent x elasticity), confidence x decay and hops + 1; a cascade_dwell an earlier cascade_transfer upstream on its route at equal hops |
| CascadeTheorems.Grading | internal/propagation/engine.go:114-147 | Keys are pairwise distinct, a non-negative cap bounds the count, hops lie in 1..MaxDepth and confidence between MinConfidence and decay^(hops-1) |
| CascadeTheorems.ReachesExit | internal/propagation/engine.go:114-147 | Every partial run extends to one that reaches the loop's exit and keeps what was already reported |
| CascadeTheorems.ImpactsWithinUniverse | internal/propagation/engine.go:114-147 | Cap or no cap, no run reports more impacts than the schedule has route and station keys |
| CascadeTheorems.Closure | internal/propagation/engine.go:114-147 | When the queue runs empty the result is closed: every seeded stop, every gated destination of every expanded impact and every gated downstream stop of every expanded cascade is reported |
| CascadeMeaning.SeedWritten | internal/propagation/engine.go:187-224 | In terms of the timetable alone: what a seed pushes is one item for each call behind one visit to its station by a listed trip of its route and direction, with the delay, confidence and cut-off written out; nothing only when no listed trip continues |
| CascadeMeaning.CascadeOrigin | internal/propagation/engine.go:258-307 | Every cascade in a result comes from an earlier impact whose delay breaks the transfer to it, with every gate and every field written out |
| CascadeMeaning.RippleOriginWritten | internal/propagation/engine.go:139-145 | Every ripple in a result comes from an earlier cascade, at a call behind it in the direction of its route's next departure |
| CascadeMeaning.NothingMissing | internal/propagation/engine.go:114-147 | A result that ran to the end of its queue lacks no destination of a transfer that a reported delay breaks and no stop that the ripple behind a reported cascade reaches, in the same terms |
| CascadeOrder.BoundedInversion | internal/propagation/engine.go:114-147 | With blending off no impact exceeds an earlier one by more than (MaxDepth - 2) times the dwell step times the longest ripple |
| CascadeOrder.LongestTripBounds | internal/propagation/engine.go:205-224 | The longest ripple is at most the longest trip's stops minus two, whatever the configuration |
| CascadeOrder.LargestQueued | internal/propagation/engine.go:114-147 | With blending off, when ripples do not grow, the reported delay of a key is the largest ever queued for it during the run |
| CascadeDescending.LargestQueuedBlended | internal/propagation/engine.go:114-147 | Blending on or off, wherever there is no room for an inversion: the reported delay of a key is the largest ever queued for it during the run |
| CascadeDescending.DescendingExactly | internal/evaluation/evaluator.go:126-128 | For every shrinking configuration, blending on or off: all results on all schedules are in descending order if and only if MaxDepth is at most 2, decay^3 is below MinConfidence, the cap is at most 2, or no transfer ever cascades (elasticity 0 against a positive threshold) |
| CascadeDescending.DescendingExactlyUnblended | internal/evaluation/evaluator.go:126-128 | With blending off: all results are in descending order if and only if one of these holds or the dwell step rounds to 0 |
| CascadeDescending.DefaultsInvert | internal/evaluation/evaluator.go:126-128 | Under the shipped defaults some result is not in descending order, with blending and without, against the comment cited |
| CascadeDescending.NoRoomDescends | internal/propagation/engine.go:114-147 | Where there is no room for an inversion every result is non-increasing, whatever the observed averages |
| CascadeDescending.NoDwellDescends | internal/propagation/engine.go:207-210 | With blending off and a dwell step of 0 every result is non-increasing |
| CascadeDescending.InvertedRun | internal/propagation/engine.go:229-239 | On the two-line schedule, whenever the case leaves room, some complete walk started by a missed connection is not in descending order: a dwell ripple outranks the cascade reported before it |
| CascadeDescending.Inverted | internal/evaluation/evaluator.go:126-128 | For every configuration with room some result is out of order |
| CascadeDescending.InvertedUnblended | internal/evaluation/evaluator.go:126-128 | Without blending, for every configuration with room and a positive dwell step some result is out of order |
| Estimates.BlendBetween | internal/propagation/engine.go:229-239 | The shrinkage blend lies between the observed average and the model value, equals the model without samples, and its distance from the average shrinks as 10 / (count + 10) |
| Estimates.ScheduleEstimateBounds | internal/propagation/engine.go:314-348 | A transfer's estimate is at least the announced wait and at least half the scheduled headway; the receiving route's delay adds between nothing and one headway, or 900 s when none is known |
| Estimates.ScheduleEstimateExactly | internal/propagation/engine.go:314-348 | The estimate in closed form: the greater of announced wait and half headway, else the induced dwell, plus the receiving route's delay up to a headway or 900 s; a route's own delay passes as it is |
| Estimates.InitialDelayBetween | internal/propagation/engine.go:348-349 | The initial delay lies between the observed average and the schedule estimate; without history it is the estimate rounded |
| Estimates.BlendPerStopBetween | internal/propagation/engine.go:229-239 | A blended stop lies between the model's delay and the observed average; with too few samples it is the model's delay |
| Estimates.BlendPerStopExactly | internal/propagation/engine.go:229-239 | With enough samples the stop's delay is within one half of (count x average + 10 x model) / (count + 10) |
| Estimates.DwellStepNearest | internal/propagation/engine.go:207-208 | The dwell step is within one half of the product of its three factors |
| Estimates.AnnouncedWaitIsCovered | internal/propagation/engine.go:314-350 | Across detector, headway index and engine: without history the walk starts from at least the wait the detector announced |
| Estimates.HeadwayPositive | internal/graph/headway.go:68-84 | A headway looked up in a built index is in (0, 10800] |
| Tracking.FindPrimary | internal/evaluation/evaluator.go:112-122 | The loop finds the first of the smallest hop-1 delays on the receiving route, or -1 when there is none, written out |
| Tracking.BaselineDelays | internal/evaluation/evaluator.go:197-222 | For every route and station the running maximum equals the largest positive delay among the scans of the first three routes that did not fail, and 0 otherwise |
| Tracking.MaxDelayIsLargest | internal/evaluation/evaluator.go:213-219 | A baseline is the largest positive delay scanned at its station, and zero when there is none |
| Tracking.ScannedExactly | internal/evaluation/evaluator.go:198-209 | A route is scanned if and only if fewer than three others appear in the result before it does |
| Tracking.FullScan | internal/evaluation/evaluator.go:200-209 | Once the scan cap is reached no further route is scanned |
| Registration.TrackPrediction | internal/evaluation/evaluator.go:96-191 | The call scans the baselines, hands to Add, in tracking order, exactly the pendings Added describes for the primary chosen (field by field in AddedFields) and leaves the server as those Adds do, executed and acknowledged or not; it reports an error if and only if one of them did |
| Registration.AttemptedMeaning | internal/evaluation/evaluator.go:139-189 | Only the primary and impacts with enough confidence are handed to Add, each made from its own index of the tracking order |
| Registration.AddedFields | internal/evaluation/evaluator.go:139-179 | Every field of every pending handed to Add, written out against its own impact and the call; its baseline is the largest delay scanned at its own route and station when the route is among the first three and its scan worked, and zero otherwise |
| Registration.TrackedWithinCap | internal/evaluation/evaluator.go:139-189 | At most the cap of the Adds succeed, and everything worth tracking was tried unless the cap was reached |
| Registration.AllTried | internal/evaluation/evaluator.go:139-152 | Unless twenty Adds have succeeded, the primary and every impact of confidence 0.3 or more has been handed to Add, with its own fields |
| Registration.RegisteredKeys | internal/evaluation/evaluator.go:180-188 | The keys a call adds to the server are exactly those of the attempts whose first command was executed, acknowledged or not |
| Registration.HeldWithinCapExactly | internal/evaluation/evaluator.go:91-93 | Against the comment cited: a call leaves at most the cap on the server under every pattern of failing commands and lost replies if and only if at most that many impacts are the primary or confident enough |
| Registration.TrackedIds | internal/evaluation/evaluator.go:155-162 | However many calls draw from the shared counter concurrently, no two pendings they hand to Add share an id |
| Registration.AddedNumbers | internal/evaluation/evaluator.go:155-162 | Each pending carries the number drawn at its own attempt |
| Registration.PrimaryTrackedFirst | internal/evaluation/evaluator.go:126-137 | The primary survives the tracking cap and the confidence filter: it is handed to Add first, and nothing else is marked primary |
| SeededStops.PrimaryIsLeastReported | internal/evaluation/evaluator.go:112-122 | Under every configuration with a cap of at least one and with any observed averages, a walk that seeds a stop has a primary, and it is the least delayed of the seeded stops reported |
| SeededStops.HopOneIsSeeded | internal/propagation/engine.go:110-147 | The hop-1 impacts on the receiving route are exactly the reported seeded stops |
| SeededStops.HopOneFollowsViable | internal/propagation/engine.go:79-111 | Every hop-1 impact of a result is on the receiving route at a call behind the transfer's station by a listed trip whose direction is that of the next viable trip, or 0 when there is none or it is unknown; its delay is the initial delay for that direction and the receiving route's own delay there, grown and blended per stop |
| SeededStops.PrimaryIdentity | internal/evaluation/evaluator.go:112-122 | With any observed averages, when no cascade out of a seeded stop reaches the seeded delays: each seeded station is reported with its greatest seeded delay and the primary is the least of these |
| PrimarySelection.PrimaryExactly | internal/evaluation/evaluator.go:112-122 | Then, on all walks and heap ties, the primary is at the first downstream stop's station with the initial-delay estimate as its prediction, if and only if that stop is the greatest of its station and strictly below every other seeded station's greatest |
| PrimarySelection.FirstAlwaysReported | internal/propagation/engine.go:110-147 | The first downstream stop's station always survives the engine's cap, and so does the stop's own impact unless a later call there is at least as late |
| PrimarySelection.DefaultsLead | internal/propagation/engine.go:197-224 | Under the shipped defaults without blending no cascade reaches the seeded delays, and the first stop leads exactly when no other seeded stop is at its station |
| PrimarySelection.DefaultPrimaryExactly | internal/evaluation/evaluator.go:112-122 | There, walk by walk, the primary is the first downstream stop's with the initial-delay estimate if and only if that station is seeded once |
| PrimarySelection.StoredPrimary | internal/evaluation/evaluator.go:96-191 | End to end: when the first stop leads, the first pending handed to Add is the only primary, is at the first downstream stop's station, predicts exactly the initial-delay estimate and carries the detector's schedule frame |
| LoopLine.LoopMisleads | internal/evaluation/evaluator.go:112-122 | On the shipped defaults, a trip that calls twice at one station: from every delay at or above the threshold every walk ends with the primary at the stop in between, one second above the estimate |
| PendingStore.Store.Add | internal/evaluation/pending.go:85-102 | Refuses exactly the pendings whose time to live is over; otherwise the server has executed the first commands of the pipeline, or all four; success means all four with the reply received, and then the key, its index entry under the pending's agency, route and station, and its expiry entry are there, and nothing else has changed |
| PendingStore.Store.FindActive | internal/evaluation/pending.go:106-123 | Returns the stored pendings among the ids in range, skipping those whose key is gone or unreadable; an error of the range query is an error |
| PendingStore.Store.Update | internal/evaluation/pending.go:130-143 | Rewrites an existing key and never creates one; a missing key is no error, an unacknowledged write is |
| PendingStore.Store.PopExpired | internal/evaluation/pending.go:148-177 | For every pattern of failing commands: claims each id in range, gives up those whose claim or read fails, hands out the rest and deletes their key and index entry as far as the server goes along |
| PendingStore.PopAllClaims | internal/evaluation/pending.go:148-177 | Whatever commands fail, a sweep hands out only pendings it claimed, each once, and none of them can be claimed again |
| PendingStore.PopAllExactly | internal/evaluation/pending.go:148-177 | What a sweep makes of each id under every pattern of failing commands: handed out as stored exactly when claimed, acknowledged, readable and there; its key and its index entry go as far as their commands land; nothing else is removed but claimed expiry entries |
| PendingStore.Store.OnDelayEvent | internal/evaluation/evaluator.go:226-272 | What becomes of every stored pending, written out: it takes the delay beyond its baseline if and only if it was looked up and read, the event is an arrival or departure on a named route, in its window, not known to run the other way, and the first or a greater observation, and the write lands; nothing else changes and failures are reported |
| PendingStore.Store.MatchEvent | internal/evaluation/evaluator.go:240-271 | The match itself: the pendings read in range are written one after the other as MatchAll says, and success means the range query and every write worked |
| PendingStore.Store.MatchOne | internal/evaluation/evaluator.go:251-270 | A pending is written if and only if the event is in its window, not known to run the other way, and the first or a greater observation |
| PendingStore.WrittenExactly | internal/evaluation/evaluator.go:251-270 | Which event is written to a pending and what it then holds, written out: window, direction known or not, first or greater observation |
| PendingStore.RangeExactly | internal/evaluation/pending.go:106-112 | The lookup of active pendings answers with exactly the ids whose expiry has not passed |
| PendingStore.LimitedRange | internal/evaluation/pending.go:148-155 | A sweep takes at most a batch of expired ids and leaves behind none that expired earlier than one it takes |
| PendingTheorems.InvHolds | internal/evaluation/pending.go:85-177 | Every state reached by any interleaving of adders, matchers, sweepers and key expiry satisfies the protocol invariant |
| PendingPhases.PhaseStep | internal/evaluation/pending.go:85-177 | Each single Redis command keeps every id in exactly one phase |
| PendingKeys.StoreStep | internal/evaluation/pending.go:130-143 | Each command keeps stored keys owned by live ids and equal to the creation plus the events that landed |
| PendingKeys.IndexStep | internal/evaluation/pending.go:85-102 | Each command keeps index entries under their pending's own key and off finalized ids |
| PendingCopies.SweeperStep | internal/evaluation/pending.go:148-177 | Each command keeps every copy a sweeper holds, or has finalized, equal to the creation plus the events that had landed at its read |
| PendingCopies.MatcherStep | internal/evaluation/evaluator.go:245-271 | Each command keeps the copies a route's only matcher holds current for as long as their keys exist |
| PendingTheorems.SingleFinalization | internal/evaluation/pending.go:148-177 | A created id is in exactly one of adding, pending, claimed, finalized and evicted; no two sweepers hold one id and no id is finalized twice |
| PendingDue.FinalizedWasDue | internal/evaluation/pending.go:148-158 | Over every interleaving a finalized pending was in a batch, of at most a hundred, of a sweep that began no earlier than the pending's end |
| PendingTheorems.NeverReappears | internal/evaluation/pending.go:125-143 | Once an id is finalized its key, index entries and expiry entry never come back, even under a late update |
| PendingTheorems.LeakedEntriesAreEvicted | internal/evaluation/pending.go:148-177 | An index entry without an owner can only belong to an id whose key had expired before the sweep |
| PendingLeaks.EntryExactly | internal/evaluation/pending.go:95-99 | Over any run the match index holds a pending's entry if and only if its ZADD was issued and since then no sweeper has removed it and the index has not expired |
| PendingLeaks.EventFindsPending | internal/evaluation/evaluator.go:226-243 | An arrival or departure on the pending's route, named or looked up, at any stop of its station looks it up exactly while its entry is listed |
| PendingLeaks.EvictedEntryExactly | internal/evaluation/pending.go:160-170 | No process ever removes the entry of an id whose key had expired before its sweep: it stays exactly until its index expires |
| PendingLeaks.LeakingRun | internal/evaluation/pending.go:160-170 | Every pending can leak: added in full, expired, then claimed and not found, it is evicted and owned by nobody with its entry still in the index |
| PendingTheorems.ObservedMaximum | internal/evaluation/evaluator.go:245-271 | A finalized pending is the created one with the maximum of max(0, delay - baseline) over the accepted events that landed before the sweeper's read, and is matched if and only if there was one |
| PendingTheorems.HeardIsCounted | internal/evaluation/evaluator.go:251-270 | Conversely, an event in the window and not known to run the other way counts from the moment its matcher reaches the stored pending, in every later state of every run |
| PendingTheorems.StoredNeverDecreases | internal/evaluation/evaluator.go:258-269 | Over any run stored observations never decrease and matched never reverts |
| PendingTheorems.LandedPrefix | internal/evaluation/evaluator.go:251-270 | The events that landed on an id only grow |
| PendingTheorems.RedeliveryChangesNothing | internal/evaluation/evaluator.go:245-271 | Over any run, redelivering an event that has landed on a stored pending needs no write, whatever landed in between |
| PendingSessions.NeverFallsExactly | internal/evaluation/evaluator.go:245-271 | With any number of sessions reading and writing one pending: the stored maximum never falls, whatever the events, if and only if no session writes back a copy that another has written past since it was read |
| PendingSessions.OneSessionIsSerial | internal/evaluation/evaluator.go:245-248 | A session alone never writes back such a copy |
| PendingSessions.LostMaximum | internal/evaluation/pending.go:130-143 | Two sessions that each read before either writes lose a delay of ten minutes to one of five |
| PendingComposition.SweepComposes | internal/evaluation/pending.go:148-177 | A sweeper that is not interrupted does with its whole batch what PopExpired does: the same server and the same pendings in order, whether ids are lost to others, expired or there |
| PendingComposition.AddComposes | internal/evaluation/pending.go:85-102 | The adder's four atomic steps, uninterrupted, are the store's Add |
| PendingComposition.MatchComposes | internal/evaluation/evaluator.go:240-271 | A matcher that is not interrupted does what MatchEvent does |
| Transfers.EvaluateDelay | internal/transfer/detector.go:53-192 | For every order of the route sets the nested loops produce exactly the impacts of all transfer and route pairs; none for an event without delay |
| Transfers.EvaluatePair | internal/transfer/detector.go:88-168 | The chain of lookups, levels and early exits for one route yields the impact of that pair; its meaning is BrokenMeansUnboardable |
| Transfers.BrokenMeansUnboardable | internal/transfer/detector.go:100-143 | An impact exists if and only if the delay brings the connection within a minute of the transfer time; it is BROKEN if and only if departure plus observed delay is before EarliestCatchSecs; the original margin is at least the transfer time; the observed delay is that of Reported, written out against the store |
| Transfers.TripDelayExactly | internal/transfer/detector.go:194-207 | The delay used for a train at a station is the one stored under the very stop of the resolved trip's first call there, and zero when it makes no such call or nothing is stored |
| Transfers.ImpactWritten | internal/transfer/detector.go:100-168 | The impact field by field against the event, the connection and its observed delay; a broken one names the first departure at or after the earliest catch time and how much later it is, any other names none |
| Transfers.FrameExactly | internal/transfer/detector.go:93-99 | The frame is the next day's if and only if it is before 04:00 and some departure past midnight is a strictly shorter wait away than every other |
| Transfers.ArrivalTodExactly | internal/transfer/detector.go:68-71 | Margins are measured from the scheduled second of the day, or from that of the observation when none is scheduled or it falls on midnight |
| Transfers.AllImpactsExactly | internal/transfer/detector.go:76-168 | The impacts of an event are the verdicts, other than none, on exactly the routes at the far end of its station's transfers |
| Transfers.ViableFollowsMissed | internal/transfer/detector.go:129-143 | The next viable departure never precedes the missed one, so the clamp never fires, and the wait is strictly positive unless the connection was running early |
| Transfers.ChainFromMissed | internal/graph/graph.go:247-263 | Looking departures up again from the missed connection finds the same list, and the viable departures are its tail |
| Transfers.RealizedWait | internal/evaluation/evaluator.go:299-329 | The loop returns the wait for the first of ten departures that is in the horizon, runs the right way and is boardable with its delay, and nothing if and only if there is none |
| Transfers.BoardedExactly | internal/evaluation/evaluator.go:299-329 | Which train is boarded and the wait it means, written out against the delays stored for each of the ten trains: direction, catch time and half-hour horizon |
| Transfers.Finalize | internal/evaluation/evaluator.go:335-388 | A primary with a schedule frame records the realized wait when there is one; every other pending keeps its observation; verified means at least 15 s and half the prediction; a primary files what it then holds with its own source delay under its transfer pair, station and hour, any other its observed maximum under its route, station and hour |
| Transfers.TrainsOnTime | internal/evaluation/evaluator.go:299-329 | Without observed delays the train boarded is the first departure at or after the earliest catch time, when the lookup reaches it |
| Transfers.OnTimeExact | internal/evaluation/evaluator.go:299-329 | On an on-time route the realized wait exists if and only if the next viable departure does, within the horizon and the first ten departures, and equals the detector's AdditionalWaitSeconds despite the direction filter |
| Transfers.MissedNeverBoarded | internal/evaluation/evaluator.go:319-326 | The missed connection is the first train the evaluator looks at and, with the delays the detector saw, is never the one boarded |
| EndToEnd.AnnouncedWaitIsRecorded | internal/evaluation/evaluator.go:335-350 | Detector, tracking and sweep together, whatever walk, configuration or history lies between, at whatever attempt the primary was added and whatever events it has matched: on a route that then runs on time the primary records exactly the wait the detector announced, or keeps its observation when the lookup does not reach the viable train |
| EndToEnd.AnnouncedWaitIsFiled | internal/evaluation/evaluator.go:365-383 | What is then filed under the key the engine reads: from the delayed route to the receiving one, at the transfer's station and hour, with the event's delay, the announced wait within reach and the matched maximum otherwise |
| EndToEnd.FinalizedPrimaryRecords | internal/evaluation/evaluator.go:226-383 | The same through every interleaving of adders, matchers, sweepers and expiring keys: a finalized primary records and files the announced wait within reach, and otherwise the maximum of max(0, delay - baseline) over the events that had landed before the sweeper's read, matched if and only if there was one |
| EndToEnd.WalkIsTracked | internal/evaluation/evaluator.go:112-137 | Every walk that seeds a stop, with a cap of at least one, has a primary, and it is handed to Add first |
| EndToEnd.BrokenHasFrame | internal/transfer/detector.go:129-143 | A broken transfer always carries a positive scheduled departure, which sweepOnce takes as the mark of a schedule frame |
| EndToEnd.HistoryKeysAgree | internal/evaluation/evaluator.go:365-383 | The key under which the sweep files a primary's outcome is the very key the engine reads for the same transfer, if and only if the hours agree and the impact's station has a name or the primary no stop |
| GraphBuild.BuildGraph | internal/graph/graph.go:74-211 | For any iteration order the built graph has all row indices in agreement with the rows and a headway index in agreement with the stop times |
| GraphBuild.BuildIndices | internal/graph/graph.go:119-198 | Every index agrees with the plain row list, and station lists are sorted by departure, trip lists by sequence |
| GraphBuild.GroupRows | internal/graph/graph.go:131-146 | The row loop fills the station lists, the trip lists and the route sets with the active rows, in order |
| GraphBuild.IndexSuffixes | internal/graph/graph.go:147-159 | For any map order the suffix index leads to the sole owner of each suffix, or to the empty id when several trips share it |
| GraphBuild.FirstUnderscoreMeaning | internal/graph/graph.go:151 | The suffix begins behind the first underscore |
| GraphBuild.SuffixMeaning | internal/graph/graph.go:150-153 | The suffix of an id is what follows an underscore-free head and one underscore, when that is not empty |
| GraphBuild.IndexTransfers | internal/graph/graph.go:169-184 | The transfers of each parent station are its possible ones, both ends normalised |
| GraphBuild.TransfersExactly | internal/graph/graph.go:169-184 | A station's transfers are exactly those some file row allows, both ends taken to their stations, type and time kept |
| GraphBuild.SortAll | internal/graph/graph.go:161-167 | Every list becomes sorted and keeps its rows; the contract leaves the order of equal keys open |
| Sorting.SortSorts | internal/graph/graph.go:161-167 | One insertion sort orders by the key and rearranges |
| GraphBuild.RowsListedOnce | internal/graph/graph.go:131-146 | Each active row is listed, as often as it occurs, at exactly its own station and its own trip; inactive rows nowhere |
| GraphBuild.RoutesAreQueryable | internal/graph/graph.go:131-146 | A route is in RoutesAtStop of a station if and only if some GetNextDepartures query for it there is non-empty |
| GraphBuild.ResolvesUniquely | internal/graph/graph.go:315-326 | ResolveTripID returns the id itself when indexed, otherwise the one indexed trip that ends as the id says behind its first underscore, and misses on the empty id and on any collision |
| GraphBuild.TransfersReachStations | internal/graph/graph.go:169-184 | Indexed transfers start and end at stations and are never of type 3 |
| Headway.BuildHeadwayIndex | internal/graph/headway.go:26-62 | For any map order the index has an entry if and only if its bucket has a qualifying gap, and it is the recomputed median |
| Headway.GroupTimes | internal/graph/headway.go:31-39 | The grouping of a station's list by route and direction equals a filter of it |
| Headway.BucketGaps | internal/graph/headway.go:44-55 | The buckets hold exactly the qualifying consecutive gaps, by the hour of the earlier departure |
| Headway.AddStation | internal/graph/headway.go:30-61 | One pass of the outer loop finishes one more station and leaves the others alone |
| Headway.AddBuckets | internal/graph/headway.go:56-59 | The entries added for a route and direction are the medians of its buckets and no others |
| Headway.LookupRecomputes | internal/graph/headway.go:68-84 | For every route, direction, stop and time the lookup equals the recomputed median of that hour's gaps or, before hour 4 and only when that bucket is empty, of its +24 bucket |
| Headway.HeadwayRange | internal/graph/headway.go:46-58 | Every stored headway is in (0, 10800] |
| Headway.HeadwayExactly | internal/graph/headway.go:26-62 | The index has an entry if and only if there are gaps, and it is the mean of the two middle ones of a sorted rearrangement |
| Headway.TimesExactly | internal/graph/headway.go:31-39 | The times behind an entry are the departures of exactly the rows of the route and direction, in order |
| Headway.GapsExactly | internal/graph/headway.go:44-55 | The gaps of an hour are exactly the consecutive differences in (0, 10800] that begin in it, up to hour 27, in order |
| Headway.MedianMiddle | internal/graph/headway.go:86-95 | Twice the median is the sum of the two middle elements, which coincide when the count is odd |
| Headway.MedianSplits | internal/graph/headway.go:86-95 | At most half the gaps lie below the median and at most half above |
| Headway.SortIntsMeaning | internal/graph/headway.go:57 | Sorting orders the gaps and keeps them |
| Reconcile.DelayStateManager.ProcessEvent | internal/state/manager.go:84-164 | Whatever fails, the store afterwards is After of the store before, other keys included, and the error result is exact |
| Reconcile.DelayStateManager.ClearTripDelays | internal/state/manager.go:63-78 | Scan and delete remove every key of the trip and no other, or nothing when a command is refused |
| Reconcile.StoredIsReconciled | internal/state/manager.go:84-164 | Over any run of deliveries, failures, lost replies, retractions and expiries the record of a key is the one obtained from the observations accepted since its last retraction; a key is stored if and only if there is one |
| Reconcile.NewestAccepted | internal/state/manager.go:118-126 | The last observation accepted is the newest received |
| Reconcile.ReconciliationOverRuns | internal/state/manager.go:84-164 | ObservedAt is the maximum received, the delay stays in the range of accepted delays, confidence stays in [0.5, 1], UpdateCount counts the accepted, and after three accepted every delay is stored verbatim |
| Reconcile.ReconciledMeaning | internal/state/manager.go:104-163 | The same for the record built from any sequence of accepted observations, with its identity and route |
| Reconcile.ConfidenceCountsStreak | internal/state/manager.go:143-152 | Confidence is one half plus a tenth for each of the latest close observations in a row, at most one |
| Reconcile.AbsorbApproaches | internal/state/manager.go:128-141 | An accepted observation moves the delay towards it, leaving at most 0.3 of the old error plus one half; it is stored verbatim if and only if it is not dampened |
| Reconcile.SuccessMeansDone | internal/state/manager.go:84-164 | A call that reports success leaves the store as a call without faults does; it reports failure if and only if a read failed or a write that was called for was not acknowledged |
| Reconcile.StoredIsNewest | internal/state/manager.go:118-126 | A stored record is at least as recent as everything received since the last retraction |
| Reconcile.RedeliveryKeepsDelay | internal/state/manager.go:118-163 | A redelivered event counts again; it leaves the delay alone if and only if the first delivery was not dampened, and otherwise brings it strictly closer |
| Reconcile.RedeliveryMovesDelay | internal/state/manager.go:128-141 | A jump of 1000 s from rest is stored as 700 and, delivered again, as 910 |
| Differ.Differ.Diff | internal/ingest/differ.go:72-100 | Selects exactly the changed events, in order, and marks the snapshot's keys as seen without committing anything |
| Differ.Differ.Commit | internal/ingest/differ.go:104-113 | Remembers the event for its key and changes no other |
| Differ.Differ.Prune | internal/ingest/differ.go:117-128 | For any map order removes exactly the keys unseen for longer than the window, and counts them |
| Differ.Poller.PollOnce | internal/ingest/poller.go:106-119 | Diff, the publish and commit loop and the prune together: exactly the acknowledged events are committed, logged and counted |
| Differ.SelectedMeaning | internal/ingest/differ.go:88-97 | An event is selected if and only if it is in the snapshot and its key is new or differs from what is remembered |
| Differ.CommitsFollow | internal/ingest/poller.go:107-116 | After the loop a key remembers its last acknowledged event, or what it remembered before |
| Differ.MemoryMirrorsTopic | internal/ingest/poller.go:107-116 | Over any run of polls, every remembered state is that of the key's last acknowledged event |
| Differ.BoundedDrift | internal/ingest/poller.go:106-118 | After every poll each key of the snapshot whose publication did not fail has a last published event of the same type within 15 s in delay and in predicted time; a failed key is as before; no key of the snapshot is pruned |
| Differ.SelectionExact | internal/ingest/differ.go:81-98 | An event is selected if and only if its key is forgotten or it differs from the last acknowledged one, however many polls were skipped |
| Differ.FailedSelectedAgain | internal/ingest/poller.go:109-113 | After a failed publication the next event of the key is judged as if the poll had not happened; the same event is always selected again |
| Differ.SnapshotKept | internal/ingest/differ.go:117-128 | A poll shorter than the window prunes no key of its own snapshot |
| Differ.AbsentKept | internal/ingest/differ.go:117-128 | A key without an event in the snapshot is forgotten if and only if it was last seen more than half an hour ago, and is untouched otherwise |
| Differ.AbsentForgotten | internal/ingest/differ.go:117-128 | The same over any number of polls without the key |
| Differ.LastSeenExactly | internal/ingest/differ.go:81-113 | A selected key counts as seen at its commit when acknowledged and at the comparison otherwise |
| Differ.UnselectedSeen | internal/ingest/differ.go:81-98 | A key whose event is not selected keeps its state and counts as seen at the comparison |
| Consumer.WithRetry | cmd/processor/main.go:326-344 | The store is that after the calls made; all but the last failed; success means the last succeeded; giving up means all attempts were used or the session ended after the last |
| Consumer.SessionBudget | cmd/processor/main.go:246-262 | A session starts at the committed offset; there and behind every mark it has three attempts, and gives up with the third failure and no earlier |
| Consumer.DetectedUnlessBehind | cmd/processor/main.go:265-297 | A message is searched for broken transfers when it is marked, unless the consumer is catching up |
| Consumer.CatchUpExactly | cmd/processor/main.go:347-370 | Catching up begins above 1000 messages of lag and ends below 100; in between the flag stays |
| Consumer.StepKeeps | cmd/processor/main.go:224-299 | Every step of the consume protocol keeps: all offsets below each mark and below the commit are done, and each claim applied exactly the parseable offsets it passed |
| Consumer.CommittedAreApplied | cmd/processor/main.go:224-299 | Over any run of retries, failures, claim restarts, lingering sessions, late commits, redeliveries and catch-up switches, every offset from the first commit to the committed one is unparseable, or was matched and applied by a successful ProcessEvent of its own |
| Consumer.ClaimsApplyInOrder | cmd/processor/main.go:224-299 | Each claim applies exactly the parseable offsets from its start, once each, in increasing order, and marks an offset only after applying it |
| Consumer.AppliedIsReceived | cmd/processor/main.go:251-262 | A successful call for an observation stays among those received until its key is retracted |
| Consumer.AppliedIsReflected | cmd/processor/main.go:251-262 | After any successful call for an observation that nothing has retracted or let expire since, the key is stored and at least as recent as the event |
| Consumer.CommittedAreReflected | cmd/processor/main.go:251-262 | Every committed observation has a successful call of its own, and each of these is reflected in that sense |
| ClaimLoop.Handler.ConsumeClaim | cmd/processor/main.go:224-299 | The message loop performs a run of the protocol: everything before the returned position is marked, and on failure the next message is unmarked and all its attempts failed |
| ClaimLoop.Handler.Process | cmd/processor/main.go:246-297 | One message is enriched, applied with retries, matched, searched for broken transfers unless catching up, and only then marked |
| ClaimLoop.DeliveriesStored | cmd/processor/main.go:326-344 | The store after n attempts is that of the history extended by n deliveries |
| Enrich.EventMessage.EnrichEvent | cmd/processor/enrich.go:14-60 | The guards, the row lookup and the candidate loop fill exactly the delay and the scheduled arrival, and report a hit if and only if they did |
| Enrich.DelayRecovered | cmd/processor/enrich.go:28-57 | For every scheduled second in (0, 129600) and true delay below 43200 in magnitude the event gets exactly that delay, across any midnight, and scheduled arrival plus delay is the prediction |
| Enrich.ScheduledMeaning | cmd/processor/enrich.go:28-41 | The timetable second is that of the departure for a departure event and of the arrival for an arrival at the trip's first call there, the other of the two where that one is zero, and missing when both are |
| Enrich.ScheduledOnlyByCall | cmd/processor/enrich.go:28-33 | A trip that does not call at the stop has no timetable second |
| Enrich.RecoveryExactly | cmd/processor/enrich.go:47-57 | For all scheduled seconds and delays: the true delay is recovered if and only if the predicted instant is at most one midnight away and the delay is within half a day on the side where a nearer candidate exists |
| Enrich.EnrichedArrivalTod | internal/transfer/detector.go:68-71 | After enrichment the detector measures margins from the timetable's own time of day, except at the stroke of midnight, which it takes for missing |
| Enrich.OthersUntouched | cmd/processor/enrich.go:15-41 | Events that carry a delay or a schedule, retractions and events unknown to the timetable pass unchanged, and no other field ever changes |

## Left out

- Kafka, Redis, HTTP, gRPC and protobuf client code: what remains is atomic commands, an ordered log with offsets, and plain
  values.
- CSV and calendar parsing: the build starts from parsed rows and a set of active services.
- Time zones, daylight saving and wall clocks: a fixed offset and given clock readings; a non-positive timestamp reads the
  given present moment.
- The TransitGraph object is a value rather than a class, because nothing changes it after the build; its index loops are
  methods that return the maps they fill. The order of equal keys under sort.Slice is not captured.
- The heap index stored in a queue item is not modelled, because nothing reads it.
- First start of a consumer group without a committed offset: the newest-offset default can skip messages there, so the
  consume theorems start from an existing commit.
- Interleaving of two sessions inside one ProcessEvent: a call is one step of the consume protocol, although its read and its
  write are two commands.
- The propagation semaphore and goroutines, sums of partition lags, publishing of impacts and predictions: the lag is an
  arbitrary input of the catch-up switch.
- Averages of the history stores: an oracle that gives an average and a count; float32 and int32 narrowing and
  floating-point rounding are not modelled.
- The live-delay snapshot of the engine (internal/propagation/engine.go:160-181) is an input of the walk.
- Durations of time-to-live: any key may expire at any moment, except that Add still refuses a pending whose time is over.
- Commands that fail inside an interleaving: the pending protocol's commands work, though keys may expire and processes may
  stop between any two of them; failing commands are covered call by call (`PendingStore.PopAllClaims`).
- Two matchers on one route inside the full pending protocol: it has one per agency and route, as the comment at
  internal/evaluation/evaluator.go:245-248 has it. A lingering session breaks that; `PendingSessions` says what then holds of
  the reads and writes of one stored pending.
- ClaimLoop.Handler.Process: records the offsets handed to OnDelayEvent and EvaluateDelay, not their effects, which are the
  subject of `PendingStore` and `Transfers`.
- Several events of one trip and stop in one snapshot: Diff compares them all with the same old state, so the drift theorem
  asks for distinct keys.
- CascadeOrder.LargestQueued: is about blending being off; the form with blending is `CascadeDescending.LargestQueuedBlended`.
- CascadeOrder.BoundedInversion: is about blending being off, because an observed average may be any number.
- PrimarySelection.PrimaryExactly: asks that no cascade out of a seeded stop reaches the seeded delays and that the cap has
  room for the seeded stations; without this the primary is known only as the least of the seeded stops reported
  (`SeededStops.PrimaryIsLeastReported`).
- PrimarySelection.FirstAlwaysReported: asks the same of the cascades.
- PrimarySelection.StoredPrimary: asks the same, and that the first stop leads; otherwise some walk has another primary.
- PrimarySelection.DefaultsLead: is about the defaults with blending off, because an observed average may be any number.
- PrimarySelection.DefaultPrimaryExactly: asks the same.
- SeededStops.PrimaryIdentity: asks what PrimaryExactly does.
- Differ.BoundedDrift: counts a publication as failed when an error came back, even if the broker kept the message.
- Events whose Redis value does not parse: only values this code wrote are stored.
- Alert broker, gRPC handlers, metrics, logging, configuration loading (the configuration of a walk is
  the effective one), command-line tools and field copying in the
  normalizer: they would add only easy members.
