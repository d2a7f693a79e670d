# Whoosh'd: a verified model of the broker's state machines

Whoosh'd is a local inference broker: it admits chat and generate requests against a global and a per-lane limit,
queues what cannot run yet, hands free slots to queued callers, forwards a cleaned request to an adapter, and describes
the serving runtime with a canonical identity document. Beside the serving path it carries two contract schedulers for
batched decoding. This project models those parts in Dafny and proves what every run of them keeps.

How the modules follow the program:

| module | models |
|---|---|
| `TokenStep` | `token_step_scheduler.py`, `fake_token_step_backend.py`: the shared decode loop under cancellation, time-out, failure and shared-failure plans |
| `Batching` | `batching.py`: the greedy batch analyzer |
| `Context`, `ContextExact`, `Capacity` | `capacity_context.py`, `capacity_controller.py`, `admission.py`: costing, limits and the two decision points |
| `Scheduling`, `RequestQueues`, `Runtime` | `scheduler.py`, `queue.py`, `runtime/__init__.py`: selection, the grant protocol and the request ledger, as objects |
| `Broker`, `BrokerSafety`, `BrokerDepth`, `BrokerOrder`, `BrokerFairness`, `BrokerPassing`, `BrokerLimits`, `BrokerExecution`, `BrokerSteps`, `BrokerHistory` | the step system of `app.py` over those objects: arrivals, polls, starts, cancellations, completions and the clock in any order, and what holds over every run |
| `Continuous`, `ContinuousProgress`, `ContinuousContract`, `ContinuousObject`, `ContinuousRuns`, `ContinuousExact` | `continuous_scheduler.py` and the validators of `continuous_batching.py` |
| `Demux` | `continuous_streaming.py` |
| `Canonical`, `CanonicalJson`, `CanonicalExact`, `CanonicalReader` | `qualification_attestation.py`: normalization, JSON printer, UTF-8, and a reader written from the standards |
| `Boundary`, `BoundaryExact` | `backend_request_policy.py`, `build_forward_body` of `http_forwarding.py` |
| `ModelIdentity`, `ModelIdentityExact` | model identity matching of `capacity_controller.py` |

Objects that change in place are classes whose methods are proved equal to specification functions; the theorems are
about those functions. The modules named `Exact`, `Steps`, `History` and `Reader` say what those functions compute in
terms of their inputs alone. A run is a fold of a total step function over a sequence of events; events carry whatever the
code takes from outside (ids, time stamps, clock, cache readiness, controller inputs), so a theorem over all event
sequences is a theorem over all runs.

## What the model shows about the code

- The ledger's count of active jobs stays within its limits in every run, because a grant removes, checks the
  candidate's own lane, and reserves in one step (`BrokerSafety.CapacitySafety`). The count is not the number of requests
  that really execute: a cancelled request gives its slot back at once and goes on, so more may execute
  (`BrokerExecution.CancelledGoesOn`), by no more than the cancelled ones (`BrokerExecution.ExecutingBounded`).
- `runtime.queue_depth` never exceeds `max_queue_depth`, but the deque itself can: an entry whose request was cancelled
  leaves the count at once and the deque only when its caller polls (`BrokerDepth.DequeCanExceedMaximum`). The excess is
  exactly the number of such entries (`BrokerDepth.DequeLength`).
- The bypass limit protects the scheduler's oldest candidate, and counts only strictly later choices: that bound holds in
  every run whatever the stamps and lanes (`BrokerPassing.StrictPassOversBounded`). More is not promised: a saturated
  lane lets a live request be overtaken even when no bypass is allowed (`BrokerLimits.LanesBreakTheBound`), equal stamps
  let the oldest be passed over beyond the limit (`BrokerLimits.TiesPassTheLimit`), and a younger request is counted and
  overtaken past the limit after a lane has hidden the older one (`BrokerLimits.LimitProtectsOnlyTheOldest`). With
  strictly increasing stamps and no lane ceilings the full bound holds (`BrokerPassing.BoundedWithoutCeilings`).
- The HIGH-pressure override queues even into a full queue (`Capacity.OverrideIgnoresQueue`), but no pressure the
  contract can report is classified HIGH (`Capacity.ContractNeverHigh`).
- Slots of the continuous scheduler are single-use: at most `max_slots` requests are ever served in a scheduler's life
  (`ContinuousRuns.SlotsAreSingleUse`). Admitting an id again is harmless unless its request holds a slot at that moment;
  then two slots end up with one owner (`ContinuousRuns.ReadmissionOwnsTwoSlots`). Slot ownership holds along a run
  exactly when no admission does that (`ContinuousRuns.OwnershipExactly`).
- A first stated output limit may lower the reserved output (`Context.FirstLimitMayLower`).
- A backend request that is already sanitized is not sanitized again for another adapter
  (`Boundary.PassThroughIgnoresAdapter`); its body fits the other adapter exactly when that one declares every extension
  the request gives (`Boundary.ReuseFitsExactly`).

## Model

| member | source | states |
|---|---|---|
| `TokenStep.RunSchedule` | whooshd/token_step_scheduler.py:33-169 | terminates on all inputs with distinct ids; each request gets exactly the tokens and reason of its own ending; each counter equals the number of results with that reason and they sum to the request count; decode steps are the maximum any request forces; the shared-failure counter is one exactly when some request ends at a shared failure; every new sequence ends released and older sequences are untouched |
| `TokenStep.EndingFromIsEnding` | whooshd/token_step_scheduler.py:91-118 | walking the steps finds the declarative ending: the least step up to the budget with a shared failure or an own plan, with precedence shared failure, cancel, timeout, fail, else the budget and "stop" |
| `TokenStep.EndingUnique` | whooshd/token_step_scheduler.py:91-128 | the declarative ending determines step and reason |
| `TokenStep.PeerIsolation` | whooshd/token_step_scheduler.py:91-128 | two runs whose plans look the same to one request give it the same result, whatever the other requests and plans are |
| `TokenStep.IndexPlan` | whooshd/token_step_scheduler.py:54-66 | looking a step up in the index gives exactly the ids planned there |
| `TokenStep.ApplyPlan` | whooshd/token_step_scheduler.py:78-89 | ends exactly the routed unfinished sequences named, and counts each once |
| `TokenStep.ApplyStep` | whooshd/token_step_scheduler.py:105-108 | the three plans in precedence keep every request on its own path and the counters equal to the state classes |
| `TokenStep.DecodeRound` | whooshd/token_step_scheduler.py:114-118 | one shared decode advances every live request by one step and no other, and changes no counter |
| `TokenStep.SharedFailureEnds` | whooshd/token_step_scheduler.py:97-103 | a shared failure is the ending of every request that survived to it and finishes all |
| `TokenStep.ReasonsPartition` | whooshd/token_step_scheduler.py:150-158 | results with the four reasons add up to all results |
| `TokenStep.Backend.DecodeStep` | whooshd/fake_token_step_backend.py:115-134 | any handles, known or not, repeated or not: the states and tokens of decoding them one after the other |
| `TokenStep.DecodeEachPointwise` | whooshd/fake_token_step_backend.py:115-134 | over distinct handles each is decoded alone; a token is emitted exactly by those that are not ended and below their budget |
| `TokenStep.SharedFailuresCounted` | whooshd/token_step_scheduler.py:97-103 | the shared-failure counter tells whether some result ends at a shared failure step |
| `TokenStep.PlanStage` | whooshd/token_step_scheduler.py:105-108 | one plan at one step keeps tracking, clears that plan, and adds its hits to its own counter alone |
| `TokenStep.Backend.Prefill` | whooshd/fake_token_step_backend.py:105-113 | a new sequence under the next handle, all others unchanged |
| `TokenStep.Backend.CancelSequence` | whooshd/fake_token_step_backend.py:136-143 | a sequence that is not finished, known or not, becomes cancelled; a finished one stays |
| `TokenStep.Backend.ReleaseSequence` | whooshd/fake_token_step_backend.py:169-170 | any handle is marked cleaned up |
| `TokenStep.ReleaseAll` | whooshd/token_step_scheduler.py:144-148 | every handle is released, once each, and counted |
| `Batching.Analyze` | whooshd/batching.py:115-195 | the groups are a partition of the queue positions into pairwise compatible groups within the size limit, in queue order, and no valid partition has fewer groups; each group's ids, model, backend, total of stated prompt and output tokens, eligibility and reasons come from its own members |
| `Batching.TotalIsSum` | whooshd/batching.py:164-167 | the total is the sum of all stated prompt tokens and output limits |
| `Batching.ReasonsExactly` | whooshd/batching.py:221-249 | each incompatibility, with the difference it reports |
| `Batching.CompatibleIsSameKey` | whooshd/batching.py:221-249 | compatibility of two positions is equality of a key, hence an equivalence, which is why comparing with the anchor is enough |
| `Batching.PartitionsNeedAtLeast` | whooshd/batching.py:141-182 | every valid partition has at least as many groups as the key counts need |
| `Batching.NeedAfterRemoval` | whooshd/batching.py:144-160 | taking a group out saves at most one group, and exactly one when it is full or exhausts its key |
| `Batching.Gather` | whooshd/batching.py:145-160 | one anchor's group keeps order, is valid, and lowers the need by exactly one |
| `Context.TextAndMedia` | whooshd/capacity_context.py:189-224 | joined non-empty text chunks, their number and the number of media parts |
| `Context.CostMonotone` | whooshd/capacity_context.py:345-406 | appending messages or parts, lengthening fields or raising limits lowers no cost component |
| `Context.OverLimitExactly` | whooshd/capacity_context.py:457-577 | over limit if and only if the output, whole-input or total bound is broken |
| `Context.OverLimitStays` | whooshd/capacity_context.py:345-577 | a request over limit stays over limit however it grows |
| `Context.FirstLimitMayLower` | whooshd/capacity_context.py:300-342 | stating a first limit keeps the reservation from falling exactly when some stated limit is at least the default |
| `ContextExact.CostExactly` | whooshd/capacity_context.py:345-406 | every component of the cost from the request's own fields: characters joined with one separator, a token for every four begun, the larger stated limit or the default, media times their estimate |
| `ContextExact.TextExactly` | whooshd/capacity_context.py:189-224 | the collected text is the non-empty texts, one per line, and media are the parts that are no text |
| `ContextExact.ReasonExactly` | whooshd/capacity_context.py:457-577 | an if-and-only-if for each reason in terms of the five bounds |
| `Context.JoinLength` | whooshd/capacity_context.py:224-224 | the length of the joined text from the lengths of its chunks |
| `Capacity.EffectiveLimit` | whooshd/capacity_controller.py:458-497 | between one and the operator's ceiling, and the ceiling itself in fixed mode |
| `Capacity.LimitOnlyLowered` | whooshd/capacity_controller.py:455-497 | the limit in every case: the ceiling, the calibrated value clamped to it, and half of that, rounded down but not below one, under high or critical pressure |
| `Capacity.PressureClasses` | whooshd/admission.py:407-419 | which class each reported pressure has |
| `Capacity.ReasonsExactly` | whooshd/capacity_controller.py:606-716 | an if-and-only-if for every reason and action in terms of the counters and bounds |
| `Capacity.AvailableExactly` | whooshd/admission.py:440-469 | the release check in the same terms |
| `Capacity.RunExactly` | whooshd/capacity_controller.py:606-664 | RUN if and only if ready, within context limits, below both capacity limits and not overridden |
| `Capacity.RejectExactly` | whooshd/capacity_controller.py:606-716 | REJECT if and only if overflow, not ready, or neither room to run nor to wait; the lane is the reason exactly when it is saturated |
| `Capacity.DecisionPointsAgree` | whooshd/admission.py:372-469 | what admission runs is what the release check releases, but for context overflow and the override |
| `Capacity.QueueHasRoom` | whooshd/capacity_controller.py:606-716 | QUEUE if and only if the request fits and has no room but a place in the queue, or room the override withholds; into a full queue only in the second case |
| `Capacity.VerdictMonotone` | whooshd/capacity_controller.py:606-716 | fewer active jobs, lane jobs or queued requests never make a verdict worse |
| `Capacity.OverrideIgnoresQueue` | whooshd/capacity_controller.py:634-649 | an input on which the override queues into a full queue |
| `Capacity.ContractNeverHigh` | whooshd/admission.py:407-419 | no reported pressure fires the override, so QUEUE always finds room |
| `Capacity.AdmissionExactly` | whooshd/admission.py:85-312 | an if-and-only-if for each of the nine admission outcomes |
| `Scheduling.OldestIndex` | whooshd/scheduler.py:161-161 | the first of the oldest candidates |
| `Scheduling.FirstReady` | whooshd/scheduler.py:189-193 | the first cache-ready candidate in queue order, if any |
| `Scheduling.BumpPointwise` | whooshd/scheduler.py:208-213 | exactly the candidates older than the chosen one gain one bypass |
| `Scheduling.FifoChoosesOldest` | whooshd/scheduler.py:158-169 | FIFO picks the oldest, and the earliest queued of equally old ones |
| `Scheduling.PassedOverOnlyBelowLimit` | whooshd/scheduler.py:171-222 | the oldest is passed over only for a cache-ready one and only below the limit |
| `Scheduling.CountedExactlyWhenOlder` | whooshd/scheduler.py:206-213 | passing over is counted exactly when the stamps differ |
| `Scheduling.TiesEscapeTheLimit` | whooshd/scheduler.py:171-222 | a decision leaves all counts alone if and only if nobody is strictly older than the chosen candidate |
| `Scheduling.LimitProtectsOldestOnly` | whooshd/scheduler.py:177-213 | every candidate gains one exactly when it is older than the chosen one, whatever its own count |
| `Scheduling.DecideExactly` | whooshd/scheduler.py:111-222 | every decision: the candidate taken, the reason, and all notes, with counts as numbers of ready and of older candidates |
| `Scheduling.Scheduler.ChooseNext` | whooshd/scheduler.py:111-222 | decision and new state equal the specification |
| `Scheduling.Scheduler.CountBypasses` | whooshd/scheduler.py:208-213 | the loop's new counts, and one fairness bypass per older candidate |
| `Scheduling.Scheduler.RemoveRequest` | whooshd/scheduler.py:224-226 | the request's count is dropped |
| `Runtime.CountersExactly` | whooshd/runtime/__init__.py:159-250 | the three counters as numbers of records and reservations |
| `Runtime.OccupiedCounts` | whooshd/runtime/__init__.py:159-228 | without double counting, the job counters are the sizes of the occupied slot sets, in total and per named lane |
| `Runtime.StartingKeepsSlots` | whooshd/runtime/__init__.py:892-912 | starting hands the reserved slot over and takes none |
| `Runtime.RuntimeLedger.ReserveCapacity` | whooshd/runtime/__init__.py:187-198 | at most one reservation per request, and whether it is new |
| `Runtime.RuntimeLedger.MarkExecuting` | whooshd/runtime/__init__.py:892-912 | only accepted or queued records start; the reservation is released then |
| `Runtime.RuntimeLedger.CompleteRequest` | whooshd/runtime/__init__.py:914-924 | an earlier terminal status survives completion |
| `Runtime.RuntimeLedger.CancelRequest` | whooshd/runtime/__init__.py:926-935 | cancelled, and the reservation given back |
| `RequestQueues.EligibleExactly` | whooshd/queue.py:343-365 | an entry is eligible if and only if it is queued, before its own deadline and its own lane has room |
| `RequestQueues.WithoutExactly` | whooshd/queue.py:393-403 | removal takes out exactly the entry with the id |
| `RequestQueues.WithoutKeepsOrder` | whooshd/queue.py:393-403 | removal keeps every order of the deque |
| `RequestQueues.RequestQueue.Enqueue` | whooshd/queue.py:256-267 | the entry goes to the back |
| `RequestQueues.RequestQueue.RemoveById` | whooshd/queue.py:393-403 | removal by id, and the scheduler forgets only what was removed |
| `RequestQueues.RequestQueue.SelectAndReserve` | whooshd/queue.py:277-391 | refusals record a decision and change nothing else; a grant removes, reserves and marks the chosen entry in one step |
| `RequestQueues.RequestQueue.PollWaiter` | whooshd/queue.py:503-600 | one waiter iteration: verdict, queue and ledger |
| `Broker.AlwaysOwned` | whooshd/queue.py:373-403 | over every run each request is in one legal place of the protocol and the books agree with each other |
| `Broker.NextOwned` | whooshd/app.py:1223-1507 | every step of every handler keeps that |
| `Broker.PollOwned` | whooshd/queue.py:503-594 | a poll keeps that, whoever it grants |
| `BrokerSteps.ChatExactly` | whooshd/app.py:1223-1507 | when a chat is admitted, queued or refused, and everything each changes; a queued entry's deadline is one time-out from its arrival |
| `BrokerSteps.GenerateExactly` | whooshd/app.py:687-717 | when a generate call is admitted; it never waits |
| `BrokerSteps.PollExactly` | whooshd/queue.py:503-600 | everything one poll does: who gives up, who returns True, when a selection happens, to which entries a grant may go, and what it changes |
| `BrokerSteps.StartExactly` | whooshd/app.py:1407-1446 | a released caller runs, streams or fails, unless it was cancelled meanwhile |
| `BrokerSteps.FinishExactly` | whooshd/runtime/__init__.py:914-948 | the status an execution ends with |
| `BrokerSteps.CancelExactly` | whooshd/app.py:1572-1590 | a cancellation marks a live request, frees its slot and changes nothing else |
| `BrokerHistory.EntryOrigin` | whooshd/queue.py:256-267 | over every run each entry comes from one chat, with its stamp and lane and a deadline one time-out after its arrival |
| `BrokerHistory.RecordOrigin` | whooshd/runtime/__init__.py:843-867 | each record comes from one arrival and keeps its lane |
| `BrokerHistory.WaitsForTheTimeout` | whooshd/queue.py:496-600 | True is returned less than one time-out after the arrival; False, unless cancelled, no sooner than that |
| `BrokerHistory.GrantedInTime` | whooshd/queue.py:345-352 | every grant is made less than one time-out after the entry's arrival |
| `BrokerHistory.TokenOrigin` | whooshd/app.py:1588-1590 | only the cancellation endpoint cancels a waiting caller |
| `BrokerHistory.StatusIsCaused` | whooshd/runtime/__init__.py:277-298 | over every run the status of every request has its cause among the events |
| `BrokerSafety.ExecutionOwnership` | whooshd/queue.py:373-403 | a waiting request is in the deque or granted, never both, never neither; every queued entry has a waiting caller; reservations belong to granted callers not yet started; no slot counts twice |
| `BrokerSafety.LeavesForGood` | whooshd/queue.py:386-403 | leaving the deque, returning and being granted are final |
| `BrokerSafety.DeadlineDiscipline` | whooshd/queue.py:345-352 | no grant and no release at or after the entry's own deadline; nobody is granted or returns twice; a returned caller's entry is out of the deque |
| `BrokerSafety.PollPastDeadline` | whooshd/queue.py:521-594 | a poll that begins at or after the deadline returns False in that poll |
| `BrokerSafety.CapacitySafety` | whooshd/queue.py:354-391 | across chat admissions, generate admissions and grants to any entry, active jobs stay within any bound on the limits used, and each lane within max(ceiling, 1) |
| `BrokerSafety.OperatorCeilingHolds` | whooshd/capacity_controller.py:455-497 | the operator's ceiling holds over every run in every mode |
| `BrokerDepth.QueueDepthBounded` | whooshd/admission.py:372-419 | the reported queue depth never exceeds the maximum |
| `BrokerDepth.DequeLength` | whooshd/runtime/__init__.py:230-250 | the deque is the reported depth plus the cancelled entries whose callers have not polled |
| `BrokerDepth.DequeBound` | whooshd/app.py:1588-1590 | when the deque itself stays within the maximum |
| `BrokerDepth.DequeCanExceedMaximum` | whooshd/app.py:1588-1590 | a four-step run in which it does not |
| `BrokerOrder.PerLaneFifo` | whooshd/scheduler.py:158-169 | under FIFO with stamps that never go back, grants within a lane follow arrival over the whole run |
| `BrokerOrder.FifoOvertakesOnly` | whooshd/queue.py:343-391 | an older entry is overtaken only while expired or while its own lane is saturated |
| `BrokerOrder.FifoWithinLane` | whooshd/queue.py:343-391 | within one lane only an expired entry is overtaken |
| `BrokerFairness.BoundedOvertaking` | whooshd/scheduler.py:171-226 | with strictly increasing stamps and no lane holding back a live entry, counts never rise from older to newer, never exceed the limit, and at most `max_bypass` later arrivals are granted before any request |
| `BrokerFairness.OldestPassedOverBounded` | whooshd/scheduler.py:171-226 | with any lanes, a request is passed over at most `max_bypass` times while it is the oldest candidate |
| `BrokerLimits.LanesBreakTheBound` | whooshd/queue.py:354-365 | an eight-step run with strictly increasing stamps in which a live request, held back by its lane, is overtaken more often than `max_bypass` |
| `BrokerLimits.TiesPassTheLimit` | whooshd/scheduler.py:206-213 | a ten-step run in which, with equal stamps, the oldest candidate is passed over more often than `max_bypass` |
| `BrokerLimits.LimitProtectsOnlyTheOldest` | whooshd/scheduler.py:177-213 | a ten-step run with strictly increasing stamps in which a request is counted and overtaken past the limit after a lane hid an older one |
| `BrokerPassing.BoundedWithoutCeilings` | whooshd/scheduler.py:171-226 | where no lane has a ceiling and stamps strictly increase, at most `max_bypass` later arrivals are granted before any request |
| `BrokerPassing.StrictPassOversBounded` | whooshd/scheduler.py:171-226 | over every run, any stamps and lanes: a request is passed over for a strictly later one at most `max_bypass` times while it is the scheduler's oldest candidate |
| `BrokerPassing.PassedOlderIsCounted` | whooshd/scheduler.py:177-213 | such a pass-over is counted and happens only below the limit |
| `BrokerExecution.ActiveJobsExactly` | whooshd/runtime/__init__.py:159-180 | over every run active jobs are the requests under execution, less the cancelled ones that go on, plus granted ones whose callers have not returned |
| `BrokerExecution.ExecutingBounded` | whooshd/runtime/__init__.py:926-935 | what executes exceeds the operator's ceiling by no more than the cancelled requests that go on |
| `BrokerExecution.CancelledGoesOn` | whooshd/app.py:1588-1590 | a three-step run with two requests executing on one slot |
| `BrokerFairness.OvertakenIsBumped` | whooshd/scheduler.py:206-213 | being overtaken and being counted are the same |
| `BrokerFairness.BumpedBelowLimit` | whooshd/scheduler.py:177-213 | a count rises only below the limit |
| `BrokerFairness.DecidedCounts` | whooshd/scheduler.py:206-213 | the counts after a decision |
| `Continuous.SlotOwnership` | whooshd/continuous_scheduler.py:104-236 | live slotted requests and owned slots correspond one to one; waiting and terminal requests own none |
| `Continuous.AdmitInv` | whooshd/continuous_scheduler.py:104-107 | admission keeps the invariant if and only if it does not name a request that holds a slot |
| `Continuous.ReadmissionOrphansSlot` | whooshd/continuous_scheduler.py:104-107 | admitting a slotted id again leaves a slot whose owner does not hold it |
| `Continuous.EndInv` | whooshd/continuous_scheduler.py:111-158 | cancel, timeout and fail keep it |
| `Continuous.AdmitPendingInv` | whooshd/continuous_scheduler.py:169-182 | admission to slots keeps it |
| `Continuous.WorkedInv` | whooshd/continuous_scheduler.py:184-220 | prefill and decode keep it |
| `Continuous.DrainInv` | whooshd/continuous_scheduler.py:222-230 | drain keeps it |
| `Continuous.DrainSlotsExactly` | whooshd/continuous_scheduler.py:222-242 | exactly the slots of draining requests lose their owner; no slot state changes |
| `Continuous.TickInv` | whooshd/continuous_scheduler.py:162-167 | a tick keeps it |
| `ContinuousProgress.TickDrops` | whooshd/continuous_scheduler.py:162-230 | with both limits at least one, a tick with work to do strictly lowers the total rank |
| `ContinuousProgress.TicksSettle` | whooshd/continuous_scheduler.py:162-230 | as many ticks as the rank leave only finished requests and requests waiting with no empty slot |
| `ContinuousProgress.TerminalIsAbsorbing` | whooshd/continuous_scheduler.py:169-230 | a tick leaves the whole record of a finished request as it was |
| `ContinuousProgress.QuietStays` | whooshd/continuous_scheduler.py:162-230 | a settled scheduler stays settled |
| `ContinuousContract.ValidateExactly` | whooshd/continuous_scheduler.py:290-322 | validation reports two violations per chunk held by a finished request and nothing else, so none exactly when there are no such chunks |
| `ContinuousContract.ValidateSlots` | whooshd/continuous_batching.py:134-148 | the loop's violations, slot by slot |
| `ContinuousContract.ValidateTerminal` | whooshd/continuous_batching.py:151-162 | the loop's violations, handle by handle |
| `ContinuousContract.ValidateDemux` | whooshd/continuous_batching.py:165-181 | the loop's violations, chunk by chunk |
| `ContinuousObject.TokenLevelScheduler.Admit` | whooshd/continuous_scheduler.py:104-107 | the new state; the invariant if and only if the id holds no slot |
| `ContinuousObject.TokenLevelScheduler.End` | whooshd/continuous_scheduler.py:111-158 | only a live request ends, its slot is released; the invariant |
| `ContinuousObject.TokenLevelScheduler.TakeOutputs` | whooshd/continuous_scheduler.py:252-258 | the held chunks are handed out and cleared; the invariant |
| `ContinuousObject.TokenLevelScheduler.ProcessAdmission` | whooshd/continuous_scheduler.py:169-182 | the loop over the pending ids |
| `ContinuousObject.TokenLevelScheduler.ProcessPrefill` | whooshd/continuous_scheduler.py:184-197 | the loop over the requests within the prefill limit |
| `ContinuousObject.TokenLevelScheduler.ProcessDecode` | whooshd/continuous_scheduler.py:199-220 | the loop over decoding requests within the decode limit |
| `ContinuousObject.TokenLevelScheduler.ProcessDrain` | whooshd/continuous_scheduler.py:222-230 | the loop over draining requests |
| `ContinuousObject.TokenLevelScheduler.Tick` | whooshd/continuous_scheduler.py:162-167 | the four phases in order; the invariant |
| `ContinuousObject.TokenLevelScheduler.Cancel` | whooshd/continuous_scheduler.py:111-123 | a live request ends as cancelled |
| `ContinuousObject.TokenLevelScheduler.Timeout` | whooshd/continuous_scheduler.py:125-137 | a live request ends as timed out |
| `ContinuousObject.TokenLevelScheduler.FailRequest` | whooshd/continuous_scheduler.py:139-151 | a live request ends as failed |
| `ContinuousExact.PrefillExactly` | whooshd/continuous_scheduler.py:184-197 | position by position: a request advances exactly while fewer starts than the limit precede it, and how |
| `ContinuousExact.DecodeExactly` | whooshd/continuous_scheduler.py:199-220 | position by position: a decoding request emits its next chunk, or drains after its last, exactly while fewer chunks than the limit precede it |
| `ContinuousExact.AlwaysFits` | whooshd/continuous_scheduler.py:111-230 | over every run progress and finish reason of every request fit its phase; no request goes past the limit, and a draining or completed one has reached it |
| `ContinuousExact.CompletedDelivers` | whooshd/continuous_scheduler.py:205-230 | over every run with distinct ids, drained plus held chunks of a completed request are exactly chunks 0 to the limit |
| `ContinuousExact.EndExactly` | whooshd/continuous_scheduler.py:111-151 | each way to end a request, with its phase and reason |
| `ContinuousRuns.AlwaysGood` | whooshd/continuous_scheduler.py:104-258 | over every run with distinct ids the invariant holds and drained plus held chunks of each request are exactly those it produced, in order |
| `ContinuousRuns.OwnershipExactly` | whooshd/continuous_scheduler.py:104-258 | ownership holds all along a run if and only if no admission in it names a request that holds a slot |
| `ContinuousRuns.DistinctNeverReadmits` | whooshd/continuous_scheduler.py:104-107 | distinct ids guarantee that |
| `ContinuousRuns.OwnershipOverRuns` | whooshd/continuous_scheduler.py:104-322 | slot ownership and the meaning of `validate` in every state of every run that admits no slotted request again |
| `ContinuousRuns.DrainedFeedsAStream` | whooshd/continuous_scheduler.py:211-258 | chunks drained over a whole run, fed to a new stream, are reproduced with no rejection |
| `ContinuousRuns.SlotsAreSingleUse` | whooshd/continuous_scheduler.py:222-242 | at most `max_slots` requests ever get a slot, and the others produce nothing |
| `ContinuousRuns.ReadmissionOwnsTwoSlots` | whooshd/continuous_scheduler.py:104-107 | a run with a repeated id in which one request owns two slots |
| `Demux.RouteExactly` | whooshd/continuous_streaming.py:100-135 | a chunk is accepted exactly when its stream is open and expects its index; the new stream and the list of violations in each case |
| `Demux.TerminalExactly` | whooshd/continuous_streaming.py:139-177 | each way to end a stream, with its state, event and finish reason; ending twice is reported |
| `Demux.DrainExactly` | whooshd/continuous_streaming.py:181-187 | draining hands out the pending events and leaves the rest of the stream |
| `Demux.StreamHistory` | whooshd/continuous_streaming.py:100-187 | over every sequence of operations, drained plus pending events are chunks 0 to n-1, then at most one terminal event with index n, and nothing after |
| `Demux.StepSound` | whooshd/continuous_streaming.py:100-187 | every operation keeps that |
| `Demux.PeersUntouched` | whooshd/continuous_streaming.py:90-187 | an operation on one id leaves all other streams alone |
| `Demux.FeedReproduces` | whooshd/continuous_streaming.py:100-135 | chunks 0, 1, 2, ... fed to a new stream are its events, text by text, and nothing is reported if request and slots are active |
| `Demux.StreamingDemux.RouteChunk` | whooshd/continuous_streaming.py:100-135 | new streams and violations |
| `Demux.StreamingDemux.End` | whooshd/continuous_streaming.py:139-177 | one terminal event, only on an open stream |
| `Demux.StreamingDemux.Open` | whooshd/continuous_streaming.py:90-93 | opening twice changes nothing |
| `Demux.StreamingDemux.Take` | whooshd/continuous_streaming.py:181-187 | pending events are handed out and cleared |
| `Canonical.NormalizeObject` | whooshd/qualification_attestation.py:189-219 | the recursive loop: the normalized document or the first error in iteration order |
| `Canonical.AcceptedExactly` | whooshd/qualification_attestation.py:181-219 | normalization succeeds if and only if the document fits the layout, said without item order |
| `Canonical.NormalizedSameExactly` | whooshd/qualification_attestation.py:189-219 | accepted documents have equal normal forms if and only if they differ only in item order and NFC-equal text |
| `Canonical.NormalizedKeysDistinct` | whooshd/qualification_attestation.py:200-219 | no dictionary of a normal form has a key twice |
| `CanonicalJson.SameBytesExactly` | whooshd/qualification_attestation.py:222-240 | two accepted documents have the same bytes if and only if they differ only in item order and NFC-equal text, and if and only if their normal forms are equal |
| `CanonicalReader.AcceptedReads` | whooshd/qualification_attestation.py:222-240 | the bytes of an accepted document, read by a reader written from section 7 of RFC 8259 and section 3 of RFC 3629 that allows no white space, give a document equal to the normalized one with keys ascending in code-point order |
| `CanonicalReader.PrintedReads` | whooshd/qualification_attestation.py:229-236 | a printed document is read back, whatever follows it |
| `CanonicalReader.QuoteReads` | whooshd/qualification_attestation.py:229-236 | a quoted text is read back |
| `CanonicalReader.EscapeForms` | whooshd/qualification_attestation.py:229-236 | how each character is written: escaped only where section 7 of RFC 8259 requires it |
| `CanonicalReader.PlainTextIsPlain` | whooshd/qualification_attestation.py:229-236 | text that needs no escape is written as it is |
| `CanonicalReader.TextDecodes` | whooshd/qualification_attestation.py:240-240 | decoding the encoded text gives the text |
| `CanonicalExact.CanonicalizeExactly` | whooshd/qualification_attestation.py:222-240 | a document has bytes if and only if it fits the layout, names schema and profile, and holds no lone surrogate once normalized |
| `CanonicalExact.EvidenceExactly` | whooshd/qualification_attestation.py:181-186 | which texts are evidence |
| `CanonicalExact.LayoutTexts` | whooshd/qualification_attestation.py:161-178 | the nine fields that hold one text |
| `CanonicalExact.LayoutPairs` | whooshd/qualification_attestation.py:161-178 | the seven fields that hold two |
| `CanonicalExact.OnlyTheseFields` | whooshd/qualification_attestation.py:161-178 | there are no others |
| `CanonicalJson.AlikeIsAccepted` | whooshd/qualification_attestation.py:222-240 | a fitting document alike to an accepted one is accepted with the same bytes |
| `CanonicalJson.PrintInjective` | whooshd/qualification_attestation.py:229-236 | equal text means equal documents |
| `CanonicalJson.PrintOrderFree` | whooshd/qualification_attestation.py:229-236 | equal documents print the same text |
| `CanonicalJson.PrintPrefixFree` | whooshd/qualification_attestation.py:229-236 | no printed document is a proper prefix of another |
| `CanonicalJson.EscapeUnique` | whooshd/qualification_attestation.py:229-236 | a quoted string determines its text and where it ends (section 7 of RFC 8259) |
| `CanonicalJson.SortExactly` | whooshd/qualification_attestation.py:229-236 | sorting by key forgets the order and nothing else |
| `CanonicalJson.Utf8Unique` | whooshd/qualification_attestation.py:240-240 | UTF-8 text is determined by its bytes |
| `BoundaryExact.BodyExactly` | whooshd/http_forwarding.py:75-155 | the body of an accepted request holds, under each key, exactly the value the ingress request gives for it, with one object per message holding exactly its given fields, and nothing else |
| `BoundaryExact.MessageRendered` | whooshd/http_forwarding.py:143-155 | a message object holds role, content, a non-empty name, given tool calls and a given tool-call id, and no other key |
| `BoundaryExact.ClassExactly` | whooshd/backend_request_policy.py:180-210 | every extra is forwarded, stripped or refused, by its declaration, its control prefix, or its spelling, prefix or whole word like an inference control |
| `BoundaryExact.TokensAreWords` | whooshd/backend_request_policy.py:192-210 | the tokens of a name are its whole words of letters and digits |
| `BoundaryExact.RefusedNames` | whooshd/backend_request_policy.py:273-306 | a request is accepted if and only if no extra is refused, and the refused names are reported |
| `BoundaryExact.ReportedNames` | whooshd/backend_request_policy.py:259-315 | which names an accepted request forwards and strips |
| `BoundaryExact.NonInterference` | whooshd/backend_request_policy.py:242-315 | two accepted requests that agree on canonical fields and declared extensions have the same body |
| `Boundary.KeysWithin` | whooshd/http_forwarding.py:75-133 | body keys are canonical fields and extensions declared by the adapter the request was sanitized for, also when the body is built later for another adapter |
| `Boundary.ReuseFitsExactly` | whooshd/backend_request_policy.py:249-258 | a body built from a sanitized request for a second adapter fits it if and only if that adapter declares every extension given for the first |
| `Boundary.ForwardedOrStripped` | whooshd/backend_request_policy.py:273-291 | in an accepted request an extra is forwarded if and only if the adapter declares it, and stripped otherwise, never both |
| `Boundary.RefusedExactly` | whooshd/backend_request_policy.py:273-306 | a request is refused if and only if one of its extras is, whatever the values |
| `Boundary.CanonicalExtraRefused` | whooshd/backend_request_policy.py:180-210 | an extra spelled like a canonical field is refused by every adapter |
| `Boundary.SanitizeChatRequest` | whooshd/backend_request_policy.py:242-315 | the loop over extras: outcome, allowed extensions and the three name sets |
| `Boundary.BuildForwardBody` | whooshd/http_forwarding.py:75-133 | the body, whatever order the extensions are visited in |
| `Boundary.PassThroughIgnoresAdapter` | whooshd/backend_request_policy.py:249-258 | an input where another adapter's extension reaches the body |
| `Boundary.SanitizeIsIdempotent` | whooshd/backend_request_policy.py:318-330 | sanitizing again changes nothing, and the body is the one the first adapter would get |
| `ModelIdentity.MatchingIsPartialEquivalence` | whooshd/capacity_controller.py:137-166 | matching is symmetric, transitive, and reflexive exactly on values that have a name |
| `ModelIdentity.SpellingsMatchExactly` | whooshd/capacity_controller.py:81-166 | any of `org/name`, `org/name/snapshots/rev` and any path ending in `models--org--name/snapshots/rev` matches any of another repository if and only if both parts agree up to case |
| `ModelIdentity.CacheSnapshotIdentity` | whooshd/capacity_controller.py:104-122 | a cache snapshot in any directory names its repository |
| `ModelIdentity.SnapshotIdentity` | whooshd/capacity_controller.py:104-134 | a snapshot path names its repository |
| `ModelIdentity.RepositoryIdentity` | whooshd/capacity_controller.py:104-134 | a repository id names itself, lower-cased |
| `ModelIdentityExact.TrimIgnored` | whooshd/capacity_controller.py:104-106 | white space around a name and slashes after it do not matter |
| `ModelIdentityExact.PathIdentity` | whooshd/capacity_controller.py:124-127 | a filesystem path has no repository, only its last segment |
| `ModelIdentityExact.SlashedIdentity` | whooshd/capacity_controller.py:129-131 | any other text with a slash is a repository |
| `ModelIdentityExact.BareIdentity` | whooshd/capacity_controller.py:133-134 | a bare name is itself |
| `ModelIdentityExact.CacheDirectoryIdentity` | whooshd/capacity_controller.py:111-122 | a cache directory names its repository if it has an owner and a name, whatever lies below it |
| `ModelIdentity.AsciiIsCaseMap` | whooshd/capacity_controller.py:81-134 | lower-casing of ASCII text meets what is assumed of lower-casing |

## Left out

- HTTP transport, SSE reads, adapters, subprocess supervision, health probes, the CLI, launchd files and log scrubbing: input and output, and text plumbing.
- Handlers, headers, error envelopes, provenance and reports, apart from the order of their steps around admission, queue and execution.
- Live batch claiming: it looks up an entry that has already left the deque, so it adds no step to a run.
- asyncio wake-ups and signals: any poll may happen at any time, which covers them; one poll reads the clock once.
- A caller that disconnects while it waits and never polls again: such a run is one in which its poll never comes.
- ThreadWake: which entries are cache-ready is given to each poll as a set.
- Profile loading, its modification-time cache and the host checks: the controller is given their outcome.
- The tokenizer path of costing and `estimate_prompt_cost`: only the character fallback is modelled; serialized fields are given as text.
- The cost-status and budget labels of a context evaluation: constant texts beside the reasons.
- NFC tables, case folding, Unicode lower-casing and SHA-256: parameters, or absent. What is assumed of lower-casing in `ModelIdentity` is that it works on the two sides of a slash separately, creates no slash and empties no text; `Boundary.ForwardedOrStripped` assumes that it fixes the canonical names.
- `demux_bleed_detected`, `snapshot` methods, observability counters and constant report fields: easy members.
- The backend's parallel dictionaries are one map from handle to sequence, with the dictionaries' defaults for a handle they do not hold.
- Tokens are the triple (id, sampler, step) the token text is built from; the final joined string is that list.
- `QueueEntry.granted` is a set of ids in the queue; `Entry.ticket` numbers arrivals for the statements and is read by no operation.
- Request ids are fresh and lane ceilings are fixed along a run, as the id generator and the configuration provide.
- Error messages and paths of rejected identity documents; a document with a lone surrogate raises when encoded and is an error here.
- JSON values of message parts and extras are kept as given; `str()` of a non-string extra name cannot arise from JSON and is not modelled.
- Context.CostMonotone: a request that states its first output limit is excluded, because the code may then reserve less; `Context.FirstLimitMayLower` says exactly when.
- BrokerFairness.BoundedOvertaking: stamps are strictly increasing and no lane holds back a live entry, because the bound fails otherwise (`BrokerLimits.TiesPassTheLimit`, `BrokerLimits.LanesBreakTheBound`).
- ContinuousRuns.AlwaysGood: ids are distinct, because a second admission of an id starts its chunks again at zero.
