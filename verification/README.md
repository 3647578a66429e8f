# A verified model of HYPIC's segment cache and of the tools around it

HYPIC is a fork of SGLang that adds a position-independent segment cache. This
project models, in Dafny 4.11:

* **The segment cache** (`python/sglang/srt/pic`): an index of computed prompt
  segments, each with KV slots and a state slot; requests look segments up, lock the
  hits, allocate slots for the misses, register them, generate tokens and finish;
  unlocked entries are evicted in LRU order. `PicCache` is the state machine,
  `PicAdmission` says what an admission, a registration and a release do to each segment,
  `PicLedger` follows every slot, `PicInflight` the in-flight counters, `PicMemory` the
  scheduler's memory check over both, `PicLocks` every lock, `PicEviction` says what an
  eviction takes, `PicScenarios` and `PicMasking` run the cases that go wrong, and
  `PicCacheObject` is the object updated in place.
* **The multi-turn benchmark** (`bench_multiturn.py`): a sender thread, concurrent
  requests and a handler thread that share a ready queue, a response queue and two
  counters, with an optional barrier between rounds. Every interleaving of the atomic
  actions is a run of one state machine (`Multiturn*`).
* **The serving benchmark** (`bench_serving.py`) and the timed-user benchmark
  (`bench_mix.py`): requeueing of conversations (`Serving`, `ServingRun`) and the
  start-time queue with its statistics (`TimedUsers`).
* **The trace converter** (`convert_otel_2_perfetto.py`): spans are laid out on lines so
  that none overlap (`SpanIntervals`, `TraceLayout`, `TraceOptimality`, `TraceOrder`,
  `TraceArrivals`, `TraceHiding`, `TraceConverter`).
* **The line-retrieval data** (`gen_data.py`, `bench_sglang.py`): redirection chains
  that are resolved in place while they are read (`LineRedirects`, `LineRetrieval`).
* **The wheel index, the dataset filter and the stream latencies** (`WheelIndex`,
  `ChatFilter`, `StreamLatency`).

`Tallies`, `Sorting` and `Wrappers` hold what they share.

Concurrent code is a state machine over atomic steps, and the results are about every
sequence of steps. The classes hold the same state in mutable fields; each method is
proved to take the state to what the corresponding step function gives, and the objects
of the two benchmarks stay in states that the protocol can reach, so that the results
about runs hold of them. Random draws, clock readings, token counts, replies and the
order of scheduling are inputs or free choices of a step.

## Where the code falls short of what it is meant to do

Each of these is a theorem about the code as it is, with the exact condition where one is named as such.

* A cache request is registered after its prefill and again when it finishes with
  insertion. The second time its own entry is found and the slots are freed although the
  entry keeps them (`PicScenarios.FinishFreesTheEntry`). With the other requests settled
  and nothing overwritten, free list and index hold every slot as often as before a run
  if and only if the request was registered exactly once (or had nothing to register)
  and was not a short prompt of one segment, whose slots are never freed
  (`PicLedger.RequestIsExactIff`).
* An entry whose hash comes back with other tokens is overwritten and its slots are lost
  (`PicScenarios.CollisionLosesSlots`). After a run of settled requests nothing is
  missing if and only if that did not happen (`PicLedger.SettledRunIsExact`).
* The in-flight counters are meant to count the prompt slots that requests hold. In the
  addition mode they keep counting segments that are in entries by now, until the request
  finishes (`PicInflight.AdditionShowsRunning`). In the transition mode every registration
  after the first takes them down again, until they are clamped at zero: after every run
  they are what is held, less what was handed over again, plus what the clamp has swallowed,
  which is the largest amount by which those two ever differed
  (`PicInflight.TransitionCounterIs`). For every step there is an exact condition under which
  an exact counter stays exact (`PicInflight.StepCountsIff`).
* The memory check adds up free slots, entries and in-flight counters. It leaves out the
  slots that running requests decode with, and it is also asserted while requests run. What
  was handed over again hides missing slots from it. In the transition mode it raises the
  alarm, after every run, if and only if more KV slots were lost or are decoded with than the
  clamp has swallowed, or over three more state slots (`PicMemory.TransitionAlarmIff`). Before
  any request is registered twice the first generated token fails it
  (`PicMemory.FirstTokenFailsTheCheck`), and so do four requests that prefill, by their own
  state slots (`PicMemory.CrowdFailsTheCheck`). After ordinary requests, which are all
  registered twice, it is silent about as many slots as they handed over again: when one has
  lived its ordinary life and a segment no longer than its own is overwritten on a hash
  collision, the slots of that segment are gone and no alarm is raised
  (`PicMasking.LossIsHidden`). In the addition mode the cached segments of running requests
  are counted twice and hide as much (`PicMemory.AdditionLeakIs`).
* A request whose segment is already in the index refers to the entry without locking
  it, and unlocks it when it finishes. In the mode without the transition operator a
  newly inserted entry is not locked either. Locks count the live users of an entry if
  and only if registrations avoid this (`PicLocks.RegisterPairsIff` for one segment,
  `PicLocks.PairedThroughoutIff` for runs); otherwise an entry is evicted while a running
  request refers to it (`PicScenarios.EvictionTakesTheUsed`).
* The overlap test of the trace converter looks at two neighbours only. On a list it is
  exact for every query if and only if no stored interval is hidden behind them
  (`SpanIntervals.NeighbourTestExact`), and it misses an overlap of one query exactly when
  both neighbours leave the query free and an interval further left has not ended
  (`SpanIntervals.MissesIff`). A span of exactly 1000 ns has start and end equal after the
  converter's trim and stays on its line untested; inside a longer span it makes two live
  spans share that line (`TraceHiding.EmptySpanHidesClash`). Shorter spans end before they
  start, are tested like the others and hide nothing: a process without a span of exactly
  1000 ns has no overlap on any line (`TraceOptimality.LayoutIsSafe`). In general a layout
  has an overlap if and only if some placement met a hidden span
  (`TraceHiding.LayoutIsApartIff`).
* For a process whose spans are longer than 1000 ns the number of lines is the largest
  number of live spans if its spans arrive in start order, which is so if and only if no
  request opens its first span before another one and has a span of the process start after
  one of the other's (`TraceArrivals.StartOrderIff`); interleaved requests can need more lines
  (`TraceOrder.StartOrderIsNeeded`).
* The handler of the multi-turn benchmark leaves when no response came in time and the
  progress bar is full, but the bar moves before the response is in the queue. In a run
  without failures, its look at the full bar leaves a round unhandled if and only if a reply
  is in the queue by then or on its way there (`MultiturnRuns.LookLosesIff`), and wherever it
  waits for the last reply of a run, it can lose it like this
  (`MultiturnRuns.LastReplyCanBeLost`).
* A multi-turn run in which a request fails in a way that the progress bar does not show, or
  in which a client fails before its last round, does not end: however it goes on, the bar does
  not get full and neither thread leaves (`MultiturnOutcome.FailureNeverEnds`). The bar is full
  if and only if there was a reply to every round and none was hidden
  (`MultiturnOutcome.BarIsFullIff`).
* `push` of the timed-user benchmark computes a position and inserts at another one. The
  queue stays ordered if and only if it was empty or the new start is at most the last
  one (`TimedUsers.AsWrittenKeepsOrderIff`).
* The dataset filter ends if and only if nothing is asked for or some conversation
  survives the limits (`ChatFilter.EndsIff`).
* Stream latencies add up to the elapsed time if and only if no chunk reports fewer
  tokens at a later clock reading (`StreamLatency.TimeIsAccountedIff`).
* A wheel's name is read back from its link if and only if it has no angle bracket and a
  stem (`WheelIndex.NameOfMadeLinkIff`).

## Model

| member | source | states |
|---|---|---|
| PicLedger.BalanceStep | python/sglang/srt/pic/picache.py:326-601 | no step of the cache (admission, allocation, registration, decoding, finishing, eviction) changes, for any slot, the sum of its occurrences in free list, index and overwritten entries and of what the requests owe of it |
| PicLedger.BalanceRun | python/sglang/srt/pic/picache.py:326-601 | the same over every run, for every slot |
| PicLedger.RequestIsExactIff | python/sglang/srt/pic/picache.py:326-507 | after a run whose requests have all finished, all but one settled, with nothing overwritten: every slot is on the free list or in an entry exactly as often as before the run if and only if the remaining request was registered exactly once or has nothing to register, and is not a single short segment |
| PicLedger.SettledRunIsExact | python/sglang/srt/pic/picache.py:205-235 | after a run whose requests have all finished and settled, every slot is on the free list or in an entry as often as before, if and only if no registration overwrote an entry under the same hash |
| PicLedger.LosesIff | python/sglang/srt/pic/picache.py:205-235 | registering a segment loses slots if and only if its hash is in the index under different tokens |
| PicLedger.RunLosesIff | python/sglang/srt/pic/picache.py:205-235 | over a run, slots of entries are lost if and only if some registration overwrote one |
| PicInflight.RegisterCountsIff | python/sglang/srt/pic/picache.py:406-411 | in either mode, for the KV and the state counter: a registration keeps a counter equal to the prompt slots held by requests if and only if there is nothing to hand over, or the transition mode takes it off for the first time or from zero, or the addition mode has handed it over before |
| PicInflight.FinishCountsIff | python/sglang/srt/pic/picache.py:419-507 | finishing, with or without insertion, keeps an exact counter exact if and only if (transition) it does not register a second time what another request's count would pay for, or (addition) the segments are handed over just now and none is stranded, or there is nothing to get wrong |
| PicInflight.StepCountsIff | python/sglang/srt/pic/picache.py:139-145 | every step of the cache, in either mode: from an exact counter, the clamped counter is exact afterwards if and only if the condition of that step holds; only registering and finishing have one |
| PicInflight.AdditionShowsRunning | python/sglang/srt/pic/picache.py:426-445 | in the addition mode a counter is, after every run, the prompt slots of the running requests, including those that entries hold by now |
| PicInflight.TransitionCounterIs | python/sglang/srt/pic/picache.py:139-145 | in the transition mode, after every run and however often requests were registered: a clamped counter is what is held, less what was handed over again, plus the largest excess of the latter over the former in any state of the run, which is at most what was handed over again |
| PicMemory.LeakIs | python/sglang/srt/managers/scheduler_components/invariant_checker.py:307-330 | for each pool, after every run in either mode: its size less free slots, entries and counter equals what was lost with overwritten entries, plus what running requests decode with, plus what the counter lacks of what is held, less what was handed over again |
| PicMemory.TransitionLeakIs | python/sglang/srt/managers/scheduler_components/invariant_checker.py:307-330 | in the transition mode, after every run: what the check misses is what was lost and what is decoded with, less what the clamp has swallowed |
| PicMemory.TransitionAlarmIff | python/sglang/srt/managers/scheduler_components/invariant_checker.py:307-346 | in the transition mode, after every run: the alarm is raised if and only if more KV slots were lost or are decoded with than the clamp has swallowed, or over three more state slots |
| PicMemory.TokensFailTheCheck | python/sglang/srt/managers/scheduler_components/invariant_checker.py:232-242 | in the transition mode, after every run: the check asserted while requests run fails when one of them has more KV slots of generated tokens than the clamp has swallowed |
| PicMemory.FirstTokenFailsTheCheck | python/sglang/srt/managers/scheduler_components/invariant_checker.py:232-242 | corollary: as long as no request was registered twice, the first generated token fails it |
| PicMemory.CrowdFailsTheCheck | python/sglang/srt/managers/scheduler_components/invariant_checker.py:331-337 | in the transition mode, after every run: so do more than three running requests over what the clamp has swallowed of state slots, by the state slot that each gets with its other slots |
| PicMemory.AdditionLeakIs | python/sglang/srt/managers/scheduler_components/invariant_checker.py:307-330 | in the addition mode, after every run: what the check misses is what was lost and is decoded with, less the cached segments of running requests once per registration, plus what finished requests never handed over, less what they handed over again |
| PicMemory.IdleAlarmIff | python/sglang/srt/managers/scheduler_components/invariant_checker.py:307-346 | in either mode, after a run whose requests have all finished, each registered at least once (or with nothing to register) and none stranded: the counters are zero, and the alarm is raised if and only if more KV slots were lost than were handed over again, or over three more state slots |
| PicMemory.IdleCheckPasses | python/sglang/srt/managers/scheduler_components/invariant_checker.py:307-346 | corollary for requests registered exactly once: the alarm is raised if and only if a KV slot or more than three state slots were lost, and none was, and free list and index hold every slot as before, if and only if nothing was overwritten |
| PicMemory.IdleAlarmMeansLoss | python/sglang/srt/managers/scheduler_components/invariant_checker.py:307-346 | in the transition mode, all requests finished, however often registered: an alarm means that some registration overwrote an entry |
| PicScenarios.FinishFreesTheEntry | python/sglang/srt/pic/picache.py:381-425 | for every cacheable one-segment prompt and free list, in both modes without rope: admitted, allocated, registered and finished with insertion, the request leaves its KV slots both on the free list and in an entry |
| PicMasking.LossIsHidden | python/sglang/srt/managers/scheduler_components/invariant_checker.py:307-346 | for any one-segment requests c, d and e, in both modes without rope: c lives its ordinary life, d and then e, with the hash of d and other tokens, come and go; the slots of d are gone from free list and index (up to those c gave back twice), and the idle check raises the alarm if and only if d is longer than c |
| PicScenarios.CollisionLosesSlots | python/sglang/srt/pic/picache.py:205-235 | for any two one-segment prompts with equal hashes and different tokens, one after the other: both requests settle and every slot of the first is in neither place |
| PicScenarios.EvictionTakesTheUsed | python/sglang/srt/pic/picache.py:381-401 | for any two requests with the same one-segment prompt, in both modes without rope: both are admitted before either registers, both register, the second finishes, and an eviction takes the entry that the first, still running, refers to |
| PicLedger.RegisterOneStock | python/sglang/srt/pic/picache.py:381-391 | whether a segment is inserted, redundant or overwrites a collision, the accounted slots grow by exactly its footprint |
| PicLedger.DropAllStock | python/sglang/srt/pic/picache.py:588-596 | eviction moves slots from the index to the free list and changes no slot's count |
| PicLocks.RegisterPairsIff | python/sglang/srt/pic/picache.py:381-401 | registering a segment keeps one lock per live user of every entry, and every used entry in the index, if and only if: a redundant copy is of an entry the request already uses; a new entry is locked; an overwritten one has no other user |
| PicLocks.PairedStep | python/sglang/srt/pic/picache.py:326-620 | every clean step keeps the lock count of each entry equal to its number of live users, and used entries in the index |
| PicLocks.PairedRun | python/sglang/srt/pic/picache.py:326-620 | the same over every clean run |
| PicLocks.PairedThroughoutIff | python/sglang/srt/pic/picache.py:326-620 | from a state with paired locks, a run keeps one lock per live user in every state, and after every registered segment, if and only if every registration of it is clean |
| PicLocks.EvictionSparesTheUsed | python/sglang/srt/pic/picache.py:578-601 | after any clean run, no eviction takes an entry that a live request uses |
| PicLocks.QuietIsUnlocked | python/sglang/srt/pic/picache.py:611-620 | once all requests of a clean run have finished no entry is locked |
| PicLocks.DuplicateStealsLock | python/sglang/srt/pic/picache.py:381-386 | from every state with paired locks: a request whose one missing segment is in the index, used by one other request, finishes with insertion and leaves that entry an eviction candidate while it is in use |
| PicLocks.AdmitKeepsPairing | python/sglang/srt/managers/schedule_batch.py:1220-1245 | matching a prompt and locking its hits adds one lock to exactly the entries that the request then refers to |
| PicLocks.ReleaseKeepsPairing | python/sglang/srt/pic/picache.py:611-620 | unlocking on finishing gives up exactly the locks of the request |
| PicAdmission.AdmitIs | python/sglang/srt/pic/picache.py:246-285 | for every prompt: the request refers to exactly the entries that hold a segment of the prompt that is long enough and not the last; exactly these get one lock and are read, nothing else changes; and the request waits for exactly the other segments, in order |
| PicAdmission.RegistrationIs | python/sglang/srt/pic/picache.py:326-411 | for every hash: the index changes under it if and only if a missing segment that is long enough and not the last of several has it; then it has the last such segment, and the request refers to that entry, which is the old one, read, if all such segments agree with it, and otherwise new, with the slots granted for it, locked in the transition mode |
| PicAdmission.GrantIs | python/sglang/srt/pic/pic_alloc.py:40-107 | a missing segment gets a KV slot for every token, and a state slot unless it is short and not the last; it is handed over if and only if it is long enough and not the last of several |
| PicAdmission.ReleaseGivesBack | python/sglang/srt/pic/picache.py:419-507 | the free list grows by exactly the slots of the last segment of several, of the short ones before it, of the generated tokens, and the request's own state slot |
| PicAdmission.ReadyRun | python/sglang/srt/pic/picache.py:326-601 | every run keeps one entry for each hash, fresh identities, and grants that fit the prompts, so that the four results above hold in all its states |
| PicEviction.EvictTakesUnlocked | python/sglang/srt/pic/picache.py:584-596 | eviction removes exactly the chosen entries, all of them unlocked; every locked entry stays as it was |
| PicEviction.EvictIsLru | python/sglang/srt/pic/picache.py:584-590 | no unlocked entry that stays was used less recently than one that went |
| PicEviction.EvictMakesRoom | python/sglang/srt/pic/picache.py:588-601 | either both needs are met, and dropping the last victim would not meet them, or no unlocked entry is left |
| PicCacheObject.PICache.MatchSegment | python/sglang/srt/pic/picache.py:193-203 | a lookup hits exactly when hash and tokens agree; a hit updates that entry's access time and nothing else |
| PicCacheObject.PICache.InsertSegment | python/sglang/srt/pic/picache.py:205-235 | the matching entry, read, or a new unlocked entry in the place of one under the same hash, whose slots are then lost; nothing else changes |
| PicCacheObject.PICache.CacheUnfinishedReq | python/sglang/srt/pic/picache.py:326-411 | the loop over the missing segments, the locks of new entries and the in-flight counters, as specified |
| PicCacheObject.PICache.CacheFinishedReq | python/sglang/srt/pic/picache.py:419-576 | registration, freeing of query, short segments and generated tokens, the in-flight counters and unlocking, as specified; the index keeps one entry per hash |
| PicCacheObject.PICache.DecLockRef | python/sglang/srt/pic/picache.py:611-620 | every entry referred to loses one lock if it has one, the others none; the result is the change of the total |
| PicCacheObject.PICache.Evict | python/sglang/srt/pic/picache.py:578-601 | sorting and the loop with early exit evict the specified victims and return their KV and state counts |
| MultiturnRuns.InvStep | benchmark/hicache/bench_multiturn.py:402-544 | every atomic step of sender, requests and handler keeps the whole invariant (queues, contents, counters, barrier, question supply) |
| MultiturnRuns.InvRun | benchmark/hicache/bench_multiturn.py:402-544 | the invariant over every interleaving |
| MultiturnRuns.AtMostOneRequest | benchmark/hicache/bench_multiturn.py:402-544 | in every reachable state each client has at most one request among ready, popped, in flight, answered, being handled and held back |
| MultiturnRuns.WindowIsRespected | benchmark/hicache/bench_multiturn.py:404-412 | sent minus completed is the number of unfinished requests and never exceeds `max_parallel` |
| MultiturnRuns.PayloadsAreStable | benchmark/hicache/bench_multiturn.py:448-516 | the payload of an outstanding request is still its client's history: the shared list is not changed under it |
| MultiturnRuns.PromptsExtend | benchmark/hicache/bench_multiturn.py:448-516 | in every reachable state: the first prompt of a client is the given one, and each later prompt is the one before it, then the answer that came for it (its token ids, or an assistant message with its text, by the API), then the question taken for this turn (token ids or a user message), and nothing else; a client never exceeds its rounds |
| MultiturnRuns.QuestionsAreSpent | benchmark/hicache/bench_multiturn.py:484-495 | in every run each question is taken by at most one client: those left and those taken are the given ones, one for one |
| MultiturnOutcome.ResponsesMoveUp | benchmark/hicache/bench_multiturn.py:439-443 | over every run, a response in the queue moves up by one with each response handled, and is not overtaken |
| MultiturnOutcome.ReadyMovesUp | benchmark/hicache/bench_multiturn.py:197-208 | under `fifo`, the same of ready requests and the sender, with and without the barrier |
| MultiturnOutcome.MetricsCountRounds | benchmark/hicache/bench_multiturn.py:466-482 | with the barrier, in every reachable state: the metrics of a round have as many entries as clients have finished it |
| MultiturnOutcome.WorkersLeaveIff | benchmark/hicache/bench_multiturn.py:414-541 | a step ends the sender if and only if it sent a request, or found none, with the bar full, and the handler if and only if it looked at a full bar |
| MultiturnOutcome.BarIsFullIff | benchmark/hicache/bench_multiturn.py:388-415 | in every run, whatever fails: the progress bar is full if and only if every client has had a reply, if only a failure, to each of its rounds and no failure was hidden from the bar; neither thread leaves before that |
| MultiturnOutcome.FailureNeverEnds | benchmark/hicache/bench_multiturn.py:388-447 | after a failure that the bar does not show, or a client's failure before its last round, however the run goes on: the bar does not get full and neither thread leaves |
| MultiturnRuns.HandlerSurvives | benchmark/hicache/bench_multiturn.py:466-525 | per-round metrics, the question list and `clients_per_round` are never indexed out of range |
| MultiturnRuns.BarrierIsSafe | benchmark/hicache/bench_multiturn.py:513-538 | with the barrier, a request of round r is released only when every client has finished its rounds before r, or all its rounds, also when clients have different totals |
| MultiturnRuns.OutstandingInBarrierRound | benchmark/hicache/bench_multiturn.py:518-538 | between responses, everything outstanding is in the current barrier round and what is held back in the next |
| MultiturnRuns.QuietMeansFinished | benchmark/hicache/bench_multiturn.py:402-544 | without failures, nothing left to do means all rounds of all clients done, nothing held back, and as many successes counted as requests planned |
| MultiturnRuns.SenderStopsLast | benchmark/hicache/bench_multiturn.py:414-415 | without failures, the sender leaves its loop only with nothing ready, in flight or held back |
| MultiturnRuns.WorkShrinks | benchmark/hicache/bench_multiturn.py:402-544 | every step but the polling of the two threads lowers a bound on the remaining work, failures included |
| MultiturnRuns.NeverStuck | benchmark/hicache/bench_multiturn.py:402-544 | without failures an unfinished run always has a step that lowers that bound or leads to one, unless the handler has left or is about to: no deadlock |
| MultiturnRuns.LookLosesIff | benchmark/hicache/bench_multiturn.py:539-541 | without failures, when the wait of the handler has expired and the bar is full: its look at the bar leaves a round unhandled if and only if a reply is in the queue or about to be put |
| MultiturnRuns.LeavingLosesIff | benchmark/hicache/bench_multiturn.py:539-541 | without failures, when the handler has left: nothing is ready or in flight, and the unhandled rounds are exactly those of the replies it did not take, at most one per client |
| MultiturnRuns.LastReplyCanBeLost | benchmark/hicache/bench_multiturn.py:388-400 | from every failure-free state in which the handler waits and only the last reply of the run is missing, there is a run in which the handler leaves without it |
| MultiturnRuns.SingleRoundAwaitsLast | benchmark/hicache/bench_multiturn.py:404-412 | such a state is reached for every client with one round |
| MultiturnRuns.EnqueueDoesNotCrash | benchmark/hicache/bench_multiturn.py:484-525 | the supply of follow-up questions covers every further round |
| MultiturnBarrier.BarrierStep | benchmark/hicache/bench_multiturn.py:518-538 | every step keeps the barrier's count and the rounds of all clients in line |
| MultiturnContent.CountersStep | benchmark/hicache/bench_multiturn.py:404-412 | every step keeps the two counters equal to the requests they stand for |
| MultiturnLinks.MovesKeepLinks | benchmark/hicache/bench_multiturn.py:183-208 | moving one client from one queue to another keeps every queue duplicate-free and equal to the clients in that phase |
| Multiturn.ResolveRounds | benchmark/hicache/bench_multiturn.py:234-250 | the round bounds that result from the flags satisfy 1 <= min <= max, and exactly the other combinations are rejected |
| MultiturnWorkload.ReadyQueue.Pop | benchmark/hicache/bench_multiturn.py:197-208 | None if and only if empty; otherwise one element leaves, the first one under fifo, and the rest keep their order |
| MultiturnWorkload.WorkloadGenerator.SenderCheck | benchmark/hicache/bench_multiturn.py:405-415 | the window test of the sender is the step `Check` |
| MultiturnWorkload.WorkloadGenerator.SenderPop | benchmark/hicache/bench_multiturn.py:406-412 | taking a request, or sleeping when there is none, is the step `Pop` or `PopEmpty` |
| MultiturnWorkload.WorkloadGenerator.SenderSend | benchmark/hicache/bench_multiturn.py:407-415 | starting the request and counting it is the step `Send`; the object stays in a reachable state |
| MultiturnWorkload.WorkloadGenerator.Reply | benchmark/hicache/bench_multiturn.py:388-393 | an answer or a failure moves the progress bar, and its response is about to be put |
| MultiturnWorkload.WorkloadGenerator.PutResponse | benchmark/hicache/bench_multiturn.py:394 | the response is in the queue |
| MultiturnWorkload.WorkloadGenerator.HandlerGet | benchmark/hicache/bench_multiturn.py:439-443 | the handler takes the oldest response that is in the queue, or its wait expires |
| MultiturnWorkload.WorkloadGenerator.HandlerLook | benchmark/hicache/bench_multiturn.py:539-541 | after an expired wait the handler leaves if and only if the progress bar is full |
| MultiturnWorkload.WorkloadGenerator.HandlerCountFailure | benchmark/hicache/bench_multiturn.py:444-447 | a failed response is counted and its client is given up |
| MultiturnWorkload.WorkloadGenerator.HandlerCountSuccess | benchmark/hicache/bench_multiturn.py:448-482 | the history is extended, the round moves on and the metrics of that round are counted; no index error occurs and the object stays in a reachable state |
| MultiturnWorkload.WorkloadGenerator.HandlerEnqueue | benchmark/hicache/bench_multiturn.py:484-538 | the next request is built and goes to the ready queue or behind the barrier, whose condition is then evaluated; no index error occurs and the object stays in a reachable state |
| MultiturnWorkload.WorkloadGenerator.HandlerRelease | benchmark/hicache/bench_multiturn.py:534-538 | held requests are released one by one, then the barrier moves on |
| Serving.RequeueIsSafe | benchmark/hicache/bench_serving.py:99-190 | in every run, failures included: a conversation is queued at most once and never while a task has it, and `put` never blocks; its turns are issued once each and in order, each with the given input lengths so far plus the output lengths that came back, not the planned ones; and its messages are the given questions and the texts that came back, in turn |
| Serving.QueueMovesUp | benchmark/hicache/bench_serving.py:263-277 | over every run, a conversation in the queue moves up by one with each request taken, and is not overtaken |
| Serving.NeverStarves | benchmark/hicache/bench_serving.py:263-283 | without failures, an empty queue before the last request means a turn is in flight; when none is, exactly the planned number of turns was issued and every conversation is over |
| Serving.IdleIsCompleteIff | benchmark/hicache/bench_serving.py:172-283 | failures included, once nothing is queued or in flight: the requests taken are the turns issued, and as many as planned if and only if every conversation had its last turn issued; the others were given up after a failure |
| Serving.YieldsAreLimited | benchmark/hicache/bench_serving.py:263-277 | whatever the conversations are, no more requests are taken than asked for |
| Serving.InvRun | benchmark/hicache/bench_serving.py:414-493 | the queue, the conversations and the number of yielded requests stay consistent over every run |
| Serving.FlattenKeepsTotal | benchmark/hicache/bench_serving.py:414-421 | splitting shared prefixes keeps the number of requests, one per conversation |
| Serving.QueueStep | benchmark/hicache/bench_serving.py:186-190 | every step keeps queue membership equal to the phase, and a task's put has room |
| ServingRun.RequestFuncInput.BeginTurn | benchmark/hicache/bench_serving.py:99-116 | the user message is appended and the prompt length is the sum over the earlier turns plus this input |
| ServingRun.RequestFuncInput.EndTurn | benchmark/hicache/bench_serving.py:172-190 | the answer's text is appended, its actual length takes the place of the planned one, and the turn moves on only if there is a next one |
| ServingRun.Benchmark.GetRequest | benchmark/hicache/bench_serving.py:263-277 | the oldest conversation is yielded and counted |
| ServingRun.Benchmark.FinishTask | benchmark/hicache/bench_serving.py:172-190 | a success ends the conversation or puts it back into the queue, which always has room; the object stays in a reachable state |
| ServingRun.Benchmark.StartTask | benchmark/hicache/bench_serving.py:99-116 | the turn of the conversation object begins and its prompt length is recorded; other conversations are untouched |
| ServingRun.Benchmark.FailTask | benchmark/hicache/bench_serving.py:191-197 | a failed conversation is lost and not in the queue |
| TimedUsers.AsWrittenKeepsOrderIff | benchmark/hicache/bench_mix.py:259-267 | inserting as the code does keeps an ordered queue ordered if and only if it was empty or the new start is at most the last |
| TimedUsers.AsWrittenReverses | benchmark/hicache/bench_mix.py:259-267 | any two users pushed in time order end up reversed |
| TimedUsers.PositionKeepsOrder | benchmark/hicache/bench_mix.py:262-266 | inserting at the computed position always keeps the order |
| TimedUsers.QueueRunKeepsOrder | benchmark/hicache/bench_mix.py:259-275 | with the computed position the head is the earliest user over every run of pushes and pops |
| TimedUsers.DrawRounds | benchmark/hicache/bench_mix.py:199-207 | the rounds drawn are the first cumulative ratio above the draw, or the last |
| TimedUsers.AccountsBalance | benchmark/hicache/bench_mix.py:195-267 | in every run, inputs minus outputs of a round is the number of users in that round, and the user statistics count the users by their rounds |
| TimedUsers.TokensAreRecorded | benchmark/hicache/bench_mix.py:209-239 | over every run, the input and output tokens of a round are the sums of the prompt lengths drawn for it and of the tokens that came back in it |
| TimedUsers.PromptIsRecorded | benchmark/hicache/bench_mix.py:211-240 | over every run, a user's prompt is the first one, then the answer and the next prompt of each further round, in order |
| TimedUsers.IndicesInRange | benchmark/hicache/bench_mix.py:225-242 | no per-round list is indexed out of range |
| TimedUsers.UserGenerator.TotalRounds | benchmark/hicache/bench_mix.py:199-207 | the loop computes the drawn number of rounds |
| TimedUsers.UserGenerator.Gen | benchmark/hicache/bench_mix.py:195-227 | a new user and the updated statistics |
| TimedUsers.UserGenerator.Push | benchmark/hicache/bench_mix.py:230-267 | the finished round is counted and the user is retired or queued for the next one |
| TimedUsers.UserGenerator.Enqueue | benchmark/hicache/bench_mix.py:259-267 | the search loop inserts at the last index it looked at |
| TimedUsers.UserGenerator.Pop | benchmark/hicache/bench_mix.py:270-276 | the head leaves if its start has passed |
| SpanIntervals.NeighbourTestExact | scripts/convert_otel_2_perfetto.py:58-70 | on a sorted list the two-neighbour test agrees with overlap for every query if and only if empty intervals are covered and none is hidden |
| SpanIntervals.MissesIff | scripts/convert_otel_2_perfetto.py:58-70 | for one query of positive length on a sorted list: the test misses an overlap if and only if the left neighbour has ended, the right one starts after the query, and an interval further left has not ended |
| SpanIntervals.EmptySpanHidesOverlap | scripts/convert_otel_2_perfetto.py:58-70 | a list on which the test misses an overlap |
| SpanIntervals.DisjointIsExact | scripts/convert_otel_2_perfetto.py:58-70 | on disjoint intervals of positive length the test is exact |
| SpanIntervals.ChainedHidesNone | scripts/convert_otel_2_perfetto.py:58-70 | on a list where each interval ends before the next starts, a query of any length that passes the test overlaps nothing |
| SpanIntervals.InsortKeepsChained | scripts/convert_otel_2_perfetto.py:72-73 | inserting an interval of any length that passes the test keeps the list so |
| SpanIntervals.BisectLeft | scripts/convert_otel_2_perfetto.py:72-73 | everything before the position is smaller and nothing from it on is |
| TraceLayout.PlaceSafe | scripts/convert_otel_2_perfetto.py:281-293 | placing a span keeps the lines of a process free of overlaps and in step with the records, if the span is of another process or its start and end differ |
| TraceLayout.FindLineValid | scripts/convert_otel_2_perfetto.py:95-120 | lines stay numbered 1..n with exactly one slot record each |
| TraceLayout.ChosenLineIsFree | scripts/convert_otel_2_perfetto.py:95-120 | where lines have no overlaps, a span whose start and end differ is only given a line on which it overlaps nothing |
| TraceHiding.PlaceCollidesIff | scripts/convert_otel_2_perfetto.py:95-120 | on every board a run can reach, whatever the lengths of the spans on it: placing a span of positive length creates an overlap if and only if the chosen line hides one from the test |
| TraceHiding.LayoutIsApartIff | scripts/convert_otel_2_perfetto.py:269-309 | for spans of every length: no two spans of positive length overlap on a line of the layout if and only if no placement met a hidden span |
| TraceHiding.EmptySpanHidesClash | scripts/convert_otel_2_perfetto.py:269-309 | for every long span, span with equal start and end inside it and later span before its end, as one request: the first and the last get the same line |
| TraceLayout.LinesAfterPlace | scripts/convert_otel_2_perfetto.py:95-120 | a placement adds a line exactly when the chosen one is new |
| TraceOptimality.LayoutIsSafe | scripts/convert_otel_2_perfetto.py:269-309 | if no span of a process has start and end equal after the trim, no two of its spans overlap on a line, across all requests and whatever the spans of the others; spans that end before they start included |
| TraceOptimality.LayoutIsComplete | scripts/convert_otel_2_perfetto.py:269-309 | for spans of every length: the run fails exactly on a request without spans, and otherwise gives each span exactly one line and places nothing else |
| TraceOptimality.LinesCoverLive | scripts/convert_otel_2_perfetto.py:269-309 | where the spans of a process do not overlap on a line, there are never fewer lines than live spans |
| TraceArrivals.LinesAreOptimal | scripts/convert_otel_2_perfetto.py:269-309 | for every input in which the requests take turns at a process whose spans have positive length, the number of its lines is the largest number of its spans live at once |
| TraceArrivals.SmgLinesAreOptimal | scripts/convert_otel_2_perfetto.py:295-309 | the gateway process gets that optimal number if its own spans have positive length |
| TraceArrivals.OrderedIs | scripts/convert_otel_2_perfetto.py:269-280 | the placed requests are the given ones, one for one, with the spans of each sorted by start; they come by their earliest spans, and requests that open at the same time keep their order |
| TraceArrivals.StartOrderIff | scripts/convert_otel_2_perfetto.py:269-309 | the spans of a process arrive in start order if and only if the requests take turns at it: a span of a request never starts after one of a request that opens later, or was given later and opens at the same time, nor after one of the gateway |
| TraceOrder.StartOrderIsNeeded | scripts/convert_otel_2_perfetto.py:269-309 | a whole layout of two interleaved requests with three lines for two live spans |
| TraceOrder.OpensIff | scripts/convert_otel_2_perfetto.py:95-120 | where the spans of a process have positive length and are disjoint on its lines, a span of positive length opens a line if and only if it clashes with a recorded span on every line there is |
| TraceOrder.LineIs | scripts/convert_otel_2_perfetto.py:95-120 | for every span of a request, on every board: it gets the line of the last span of its process in the same request, if there is one and its start and end are equal or that line passes the test; otherwise the first line that passes, or a new one if none does |
| TraceConverter.SpanLayoutContainer.CheckOverlap | scripts/convert_otel_2_perfetto.py:58-70 | bisection and the two neighbour looks compute the test |
| TraceConverter.SpanLayoutContainer.InsertSpan | scripts/convert_otel_2_perfetto.py:72-73 | the interval goes to its sorted place |
| TraceConverter.LayoutRun.FindLine | scripts/convert_otel_2_perfetto.py:95-120 | the sticky line, the first free line or a new line, recorded as specified |
| TraceConverter.LayoutRun.PlaceSpan | scripts/convert_otel_2_perfetto.py:281-293 | choosing a line and inserting the span is one placement |
| TraceConverter.GenerateLayout | scripts/convert_otel_2_perfetto.py:269-309 | the two loops give the specified layout, or the error for an empty request |
| LineRedirects.RevisitNeverEnds | benchmark/line_retrieval/gen_data.py:66-74 | a walk that comes back to a visited line never ends |
| LineRedirects.Chase | benchmark/line_retrieval/gen_data.py:63-74 | the chase returns no chain if and only if the redirections never end, and then stops at the first line that it meets twice; otherwise it returns the exact repeat-free chain |
| LineRedirects.ResolveAll | benchmark/line_retrieval/gen_data.py:56-76 | although values are overwritten while later chases read them, every line that is not in a ring ends with the original value of its chain's end, agrees with its target, and rings are exactly the endless lines; an endless line ends with the original value of the line where it enters its ring, so that those on a ring keep their own |
| LineRedirects.GroupByHops | benchmark/line_retrieval/gen_data.py:78-83 | a line is in group h if and only if its chain needs h lookups; groups are ascending |
| LineRetrieval.WriteLines | benchmark/line_retrieval/gen_data.py:28-54 | the printed lines say exactly what the redirections are |
| LineRetrieval.GenerateLines | benchmark/line_retrieval/gen_data.py:16-83 | the data file is consistent: lines, values, links and groups belong to the same redirections, and a line is in group h if and only if its chain needs h lookups |
| LineRetrieval.ChainIsAnswered | benchmark/line_retrieval/gen_data.py:56-83 | a prefix that holds a chain answers it with one lookup per line and with no fewer |
| LineRetrieval.SelectQuery | benchmark/line_retrieval/bench_sglang.py:36-66 | it fails exactly when no line of the group has its whole chain up to the chosen line and itself lies before it; otherwise the query is such a line, with its value as label, and the four parts are, one after the other, exactly the lines up to the chosen one |
| LineRetrieval.DestinationIs | benchmark/line_retrieval/bench_sglang.py:41-51 | the query is the one at the given fraction of the fitting lines of the group, rounded down and at most the last, in their order in the group |
| LineRetrieval.QueryIsAnswerable | benchmark/line_retrieval/bench_sglang.py:36-66 | the label of every selected query is found from the four parts, which are the prefix, after exactly h lookups, reading the text only |
| WheelIndex.ReadBackIff | scripts/update_nightly_whl_index.py:79-87 | reading a written page in text mode gives back its links if and only if each is a link line without line ends in it |
| WheelIndex.ReadLine | scripts/update_nightly_whl_index.py:79-87 | for every line, line end of the three kinds and rest of the page: reading takes the line if and only if it starts with `<a href=`, and then reads the rest |
| WheelIndex.ReadLast | scripts/update_nightly_whl_index.py:79-87 | the same of a last line without an end |
| WheelIndex.SplitJoin | scripts/update_nightly_whl_index.py:149-150 | splitting joined lines gives the lines back |
| WheelIndex.UpdateIsIdempotent | scripts/update_nightly_whl_index.py:79-150 | running the update again on its own output gives the same page, character for character |
| WheelIndex.UpdateLosesNoFile | scripts/update_nightly_whl_index.py:108-121 | the files of the new page are those of the old one and of the build, no more and no fewer |
| WheelIndex.NewestLinkWins | scripts/update_nightly_whl_index.py:108-121 | the new link replaces an older one to a file of the same name |
| WheelIndex.NameOfMadeLinkIff | scripts/update_nightly_whl_index.py:91-118 | the pattern reads a generated link's file name back if and only if it has no angle bracket and a stem |
| WheelIndex.FileNameIs | scripts/update_nightly_whl_index.py:113-118 | for every text: the pattern finds a name if and only if the text shows one (`>`, a name without `<` that has a stem and ends in `.whl`, `</a>`), and then the first one shown |
| WheelIndex.LinkIs | scripts/update_nightly_whl_index.py:56-97 | the link of a wheel points to the download site, the release tag (with the build date if there is one), the file and its hash, and shows the file name |
| WheelIndex.PageIs | scripts/update_nightly_whl_index.py:50-150 | the lines of a page are the document type, the heading with the CUDA version, which starts with `cu`, and the links in order |
| WheelIndex.UpdateFailsIff | scripts/update_nightly_whl_index.py:44-106 | the update fails if and only if there is no `dist` directory or no wheel in it, with the error of each case |
| WheelIndex.DedupeDistinct | scripts/update_nightly_whl_index.py:111-121 | no two links of a page are for the same file |
| WheelIndex.DedupeKeepsOrder | scripts/update_nightly_whl_index.py:111-121 | the kept links keep their order |
| WheelIndex.DedupeLinks | scripts/update_nightly_whl_index.py:111-121 | the loop with its set computes the first link to each file |
| ChatFilter.FilterChat | benchmark/hicache/data_processing.py:47-91 | the nested loops return the survivors drawn in turn, exactly as many as wanted and none without a turn, with the token totals of what is returned |
| ChatFilter.FilterTalk | benchmark/hicache/data_processing.py:56-87 | one conversation keeps exactly the turns within the limits, with their tokens |
| ChatFilter.KeptIs | benchmark/hicache/data_processing.py:56-87 | the samples kept of a conversation are those of exactly the turns whose prompt length and output length (the fixed one if given) are within the limits, in order, with these lengths |
| ChatFilter.DrawnInTurn | benchmark/hicache/data_processing.py:52-87 | request k is survivor k mod m |
| ChatFilter.EndsIff | benchmark/hicache/data_processing.py:52-87 | the outer loop ends if and only if nothing is wanted or some conversation survives |
| ChatFilter.SweepAppends | benchmark/hicache/data_processing.py:53-87 | one sweep appends the survivors in order, as many as are still wanted |
| StreamLatency.TimeIsAccountedIff | benchmark/hicache/bench_warm_cache.py:141-159 | for clocks that do not run backwards: first-token time plus inter-token latencies equal the time of the last counted chunk if and only if no chunk, once the first token is timed, reports fewer tokens than the one before at a later reading than the last counted one |
| StreamLatency.MovingClockIff | benchmark/hicache/bench_warm_cache.py:141-159 | with a clock that moves from chunk to chunk that is exactly when counts never fall |
| StreamLatency.GrowingLosesNothing | benchmark/hicache/bench_warm_cache.py:146-148 | counts that never fall lose no time, also when chunks at the start time leave the zero sentinel in place |
| StreamLatency.OneLatencyPerToken | benchmark/hicache/bench_warm_cache.py:141-159 | there is one latency per token after the first chunk that is read later than the start |
| StreamLatency.LatencyIs | benchmark/hicache/bench_warm_cache.py:146-155 | for counts that never fall, token by token: its latency is the time between its chunk and the last one before that brought tokens, divided by the number of tokens its chunk brings |
| StreamLatency.FirstTokenIs | benchmark/hicache/bench_warm_cache.py:142-145 | the first-token time is that of the first chunk read at another time than the start |
| StreamLatency.FallingCountLosesTime | benchmark/hicache/bench_warm_cache.py:149-155 | a stream whose count falls, and the time it loses |
| StreamLatency.Measure | benchmark/hicache/bench_warm_cache.py:118-159 | the loop computes the specified readings |

## Left out

- The rope modes of the segment cache (private and public slots), scatter requests, injected segments and `reset`.
- Which free slot an allocation takes: the free lists are a multiset, and an allocation may take any free slots of the right number.
- Decode-side requests, which free their whole range.
- Admission before allocation fails: a request that is dropped after locking and before allocation is not a step of the model.
- HTTP, asyncio transport, sleeps, heartbeats, tokenizers, JSON and printing: replies, token counts and timings are inputs of a step.
- The semaphore of the serving benchmark: the model allows every number of concurrent tasks, so its results hold for each limit.
- Performance metrics other than the number of entries per round, and percentiles over them.
- The few-shot examples that `gen_data.py` puts into its suffix, and the scoring of answers.
- Span trees, events and links of the trace converter, which only copy fields.
- The root package index and the hash of a wheel file; the hash is an input.
- Loading and sampling of the datasets, and `build_prompts` of the warm-cache benchmark, which only concatenates random token lists.
- GPU kernels, the model executor and the rest of SGLang.
- TraceConverter.LayoutRun.FindLine: the containers of a run are held by value in its graph, so that two lines sharing one container object is not expressible.
- TraceArrivals.LinesAreOptimal: sufficient condition only; when interleaved requests happen to get the optimal number is not characterised.
- WheelIndex.UpdateIsIdempotent: names and arguments are taken to hold no line feed and no carriage return.
- PicCacheObject.PICache.CacheFinishedReq: the decode-side branch, which frees the prompt range as well, is not modelled.
- TimedUsers.IndicesInRange: there are as many ratios as rounds, which the loading of the configuration asserts (`bench_mix.py:114`).
- PicCacheObject.PICache.MatchSegment: the hit count of an entry, which the LRU order does not read, is not kept.
- PicCacheObject.PICache.DecLockRef: an entry that has left the index and is still referred to is not unlocked or counted; nothing looks at its lock again.
- TraceHiding.LayoutIsApartIff: a span without length on top of a longer one is not counted as an overlap, because the converter puts it there on purpose.
- TimedUsers.UserGenerator.Gen: the number of the user in front of the first prompt is part of the given prompt.
- WheelIndex.LinkIs: the download site is an argument of the model, a constant of the script.
