# Verified models of the orchestrator's hard cores

This project models, in Dafny, the parts of the orchestrator whose correctness depends on state,
order and interleaving, and proves what they promise over every input, every run and every reachable
state.

* **The peer-observation pipeline.** `StateTransition` specifies one call of the state-transition
  manager as a function on values, and `FaultyTransition` a call in which an audit write fails;
  `StateTransitionManager` is the object that updates its caches,
  buffer, logs and tables in place and is proved equal to them. Around it stand its parts
  (`Equivocation`, `Reputation`, `XorDistance`, `KBuckets`, `WitnessGates`, `AuditChain`, `LruCache`,
  `Observations`), what the Sybil signal means in terms of keys (`SybilSignals`), the theorems about whole
  runs (`AdmissionRuns` and `DecisionRuns`, which between them say for every submission whether it is
  admitted, held or refused and what the gates answer, `ReplayRuns`, `WatermarkInvariant`, `WatermarkRuns`,
  `TrustRuns`, `Reordering`, `AuditRuns`, `FaultyRuns`), and its reference-counted locks (`PeerLocks`).
* **Paid execution.** `Tier5Budget` specifies the ledger's transactions, `Tier5BudgetLedger` is the
  object, `Tier5BudgetRuns` holds the theorems over any interleaving of clients, `Tier5Execution`
  the service that reserves, dispatches and settles, and `Tier5Aftermath` what becomes of a run that
  was not settled. `PipelineLoader`, `TieredPipeline` and
  `PipelineRuns` cover recipe validation and the stage and candidate loops against an arbitrary
  dispatcher.
* **Smaller protocols.** `Supervisor` and `SupervisorRuns` (cancellation, containment and a job's
  lifecycle), `SingleFlight`, `StrayProbes` and `ProbeCache` (the cloud probe cache), `TokenBucket` and `ChunkedBody` (the TLS proxy), `RankFusion` (memory retrieval).

Concurrent code is a state machine whose actions are the code between two points where the scheduler
may switch; a claim about it is a claim about every sequence of enabled actions. Hashing, signing,
identifiers, clocks, the dispatcher and failing writes are parameters or choices of the environment.
Time is a `real`, money is whole micro-USD, floating-point arithmetic is exact.

## Results that correct the source's own statements

* The XOR distance is documented as an ultrametric (orchestrator/distance_bucket.py:48-79). It is not:
  keys 2, 0 and 1 violate the bound (`XorDistance.DistanceIsNotUltrametric`). It holds exactly when the
  leading bit of the shorter hop is also set in the longer one (`XorDistance.UltrametricExactly`); the
  bit length, which is what the correlation test uses, does satisfy it for all keys.
* `AuditLog.append` verifies the chain before it appends, not after. A signer that the verifier rejects
  leaves a log on which every later append fails (`AuditChain.AppendKeepsChainExactly`). Reopening the
  file rebuilds the in-memory chain if and only if that chain verifies and no failed append left
  anything in the file, a whole row or part of one (`AuditChain.ReplayRebuildsExactly`).
* The flush is documented to restore an entry whose processing raises, so that the gap can be retried.
  An expired entry whose record cannot be written is lost (`FaultyRuns.RestoredEntryIsNext`), and a
  restored one leaves the buffer on the next submission of its key if and only if that submission is not
  accepted; otherwise it keeps its slot without ever being applied
  (`FaultyRuns.RestoredEntryStrandsExactly`). The order of accepted observations survives all the same
  (`FaultyRuns.AcceptedAreOrderedDespiteFaults`).
* `execute` settles and releases in a handler for ordinary exceptions around the runner. A call that is
  cancelled while it waits for the runner escapes it, and so does a cost that is infinite as a float,
  whose conversion raises after the handler. `execute` also marks, settles and releases under the run id
  of the *caller*, even when the idempotency key replays a reservation made under another one.
  Settlement is as promised if and only if the two ids agree, the call was not cancelled and the cost
  was not infinite (`Tier5Execution.SettledAsPromisedExactly`; one input for each:
  `Tier5Execution.OtherRunIdLeavesTheHold`, `Tier5Execution.CancellationLeavesTheHold`,
  `Tier5Execution.InfiniteCostLeavesTheHold`).
* What such a call leaves depends on whether something was committed. If so, the run is DISPATCHED: no
  later call for its key reaches the runner, and of the service's calls and sweeps only a sweep ends it,
  charging the whole hold (`Tier5Aftermath.CommittedRunsAwaitTheSweep`). If not, it is RESERVED: a later
  call under the same key, fingerprint and run id dispatches on the same hold and settles or releases it
  (`Tier5Aftermath.UncommittedRunsCanBeRetried`, `Tier5Aftermath.RetryEndsACancelledRun`), and failing
  that a sweep releases it.
* A released budget run can acquire markers, exactly when it is marked late
  (`Tier5BudgetRuns.MarkersComeFromMarking`, `Tier5BudgetRuns.ReleasedRunsCanBeMarked`).
* SUCCEEDED and FAILED are not final: a cancel that reaches the worker while it reports its outcome adds
  CANCELLED. Without failing appends an event follows a report if and only if a cancel was delivered
  (`SupervisorRuns.ReportsAreFinalExactly`, `SupervisorRuns.SucceededIsNotAbsorbing`,
  `Supervisor.FailedIsNotAbsorbing`).
* A containment annotation whose append failed after the line was written is retried blindly. A job has
  at most one annotation if and only if no attempt wrote after such a failure
  (`SupervisorRuns.AnnotatedOnceExactly`, `Supervisor.FailedButWrittenAnnotationsRepeat`).
* A probe that was queued although its submission raised can run beside another one. From any reachable
  state two probes of a backend can come to run together, without a further such submission, if and only
  if a refresh of that kind is still scheduled or probing (`StrayProbes.ProbesClashExactly`,
  `SingleFlight.StrayRefreshBreaksSingleFlight`).
* The chunked reader takes a single line after the last chunk, so a message with trailer fields is not
  consumed to its end (`ChunkedBody.ConsumesExactlyWithoutTrailers`).

## Model

| member | source | states |
|---|---|---|
| Observations.IsNewerIsStrictOrder | orchestrator/monotonic_gate.py:72-92 | superseding is irreflexive, asymmetric and transitive |
| Observations.IsNewerExactly | orchestrator/monotonic_gate.py:72-92 | an observation supersedes another if and only if its (epoch, sequence) is lexicographically later, or equal with a time stamp more than thirty seconds later |
| Observations.ExpiresAfterItsDeadline | orchestrator/membership.py:363-375 | an observation is expired if and only if its time stamp plus its time to live has passed; a missing or negative time to live never expires |
| LruCache.TouchEffect | orchestrator/state_transition_manager.py:135-139 | a touch keeps the cap and the order consistent, the touched key holds its value exactly when the cap is positive, other keys keep their values or go, and nothing goes while there is room or the key was present |
| LruCache.KeepsTheMostRecent | orchestrator/state_transition_manager.py:135-139 | after any history of touches the cache holds exactly the last so many distinct keys, in the order of their last touch |
| Equivocation.WindowIsSuffix | orchestrator/equivocation.py:47-86 | after any history each (peer, epoch) bucket is the last at most 50 observations of that key |
| Equivocation.EvidenceIsExact | orchestrator/equivocation.py:47-86 | the evidence is exactly the same-observer, same-provenance, opposite-type retained priors, one item each |
| Equivocation.EvidenceInOrder | orchestrator/equivocation.py:47-86 | the evidence comes in the order of the retained priors |
| Equivocation.SelfContradictionIsCaught | orchestrator/equivocation.py:47-86 | with both conflicting entries retained, every further report of that observer from that provenance is contradicted |
| Equivocation.EquivocationLog.RecordObservation | orchestrator/equivocation.py:47-86 | the in-place loop appends to the trimmed bucket and returns the evidence of the specification |
| Reputation.PenaltiesAreFinal | orchestrator/reputation.py:77-135 | in a ledger fed by equivocations only, a caught witness weighs nothing for ever and everyone else stays neutral |
| Reputation.WeightIsEarned | orchestrator/reputation.py:47-135 | after any history of outcomes the weight is the neutral one without outcomes, and otherwise a tenth of the right ones less five times the wrong ones, never below zero |
| Reputation.ReputationLedger.RecordOutcomeFor | orchestrator/reputation.py:47-83 | only the named observer's weight moves, and for a known observer and an outcome weight that is not negative it never falls after a right outcome and never rises after a wrong one |
| Reputation.ReputationLedger.RecordEquivocationBy | orchestrator/reputation.py:85-109 | the observer's weight is zero afterwards exactly when it was unknown or scored at most 25, and nobody else's moves |
| XorDistance.XorComposes | orchestrator/distance_bucket.py:48-79 | combining two hops gives the direct distance |
| XorDistance.XorTriangle | orchestrator/distance_bucket.py:48-79 | the triangle inequality |
| XorDistance.DistanceIsNotUltrametric | orchestrator/distance_bucket.py:48-79 | three keys that violate the documented max bound |
| XorDistance.UltrametricExactly | orchestrator/distance_bucket.py:48-79 | the max bound holds if and only if the leading bit of the shorter hop is set in the longer one |
| XorDistance.BitLengthIsUltrametric | orchestrator/distance_bucket.py:113-118 | the bit length of the distance obeys the max bound for all keys |
| XorDistance.CorrelatedMeansSharedPrefix | orchestrator/distance_bucket.py:147-164 | two keys are correlated exactly when they are equal once the proximity bits are dropped |
| XorDistance.CorrelatedAgree | orchestrator/distance_bucket.py:147-164 | and that is, bit by bit, when they agree on every bit from the proximity bits up |
| XorDistance.BitLengthExact | orchestrator/distance_bucket.py:113-118 | the bit length is the exponent of the least power of two above the number |
| XorDistance.CorrelationIsEquivalence | orchestrator/distance_bucket.py:147-164 | correlation is reflexive, symmetric and transitive |
| KBuckets.BucketsAreMostRecent | orchestrator/distance_bucket.py:113-145 | after every update history a bucket is the k most recently updated distinct peers of its class, in update order |
| KBuckets.TableInvariants | orchestrator/distance_bucket.py:113-168 | no peer twice or outside its class, no bucket over k, at most 257 k entries |
| KBuckets.KBucketTable.UpdatePeer | orchestrator/distance_bucket.py:120-138 | the in-place update equals the specification |
| WitnessGates.TallyIsBestPerBucket | orchestrator/state_transition_manager.py:488-511 | each provenance bucket counts once, with its heaviest witness |
| WitnessGates.ScoreBoundedByBuckets | orchestrator/state_transition_manager.py:488-511 | with weights up to one the score is at most the number of distinct buckets, however many witnesses there are |
| WitnessGates.ScoreNeedsTwoBuckets | orchestrator/state_transition_manager.py:488-511 | a score above one needs witnesses with positive weight in two buckets |
| WitnessGates.CorrelatedPairsExact | orchestrator/state_transition_manager.py:513-533 | the two loops list exactly the correlated pairs of the peer and its witnesses |
| WitnessGates.ObserversAreDistinct | orchestrator/state_transition_manager.py:413-426 | the recorded witnesses are the observers of the witnesses, each once |
| SybilSignals.CorrelatedPairsCount | orchestrator/state_transition_manager.py:513-533 | the pairs that the loops list are as many as the pairs of distinct positions among the peer and its witnesses whose keys agree from the proximity bits up |
| SybilSignals.SignalExactly | orchestrator/state_transition_manager.py:513-557 | there is a signal if and only if such a pair of positions exists or a witness is stored in the distance class of the peer, and it is strong if and only if there are at least two such pairs or at least two such entries |
| WatermarkInvariant.EvaluateInvariant | orchestrator/state_transition_manager.py:168-359 | one call keeps: seen keys at or below the watermark, held keys of the epoch at least two above it; the watermark only grows, by exactly one within an epoch; flushed results advance it in order and only the last may be an expired one; other peers can only be evicted |
| WatermarkInvariant.SeenBranchUnreachable | orchestrator/state_transition_manager.py:303-330 | the flush never meets an entry that was already seen |
| WatermarkRuns.RunTracks | orchestrator/state_transition_manager.py:182-207 | the invariant and the ascent of the watermark over every run in which the peer stays cached |
| WatermarkRuns.AcceptedAreOrdered | orchestrator/state_transition_manager.py:182-207 | any two accepted observations of a peer in a run are strictly ordered by the monotonic gate |
| WatermarkRuns.FewPeersStayCached | orchestrator/state_transition_manager.py:135-139 | with no more peers than the cache holds, nobody is evicted, so the two results above apply |
| WatermarkRuns.FreshRunsAreOrdered | orchestrator/state_transition_manager.py:168-207 | from a fresh manager, over any run about no more peers than its caches hold, any two accepted observations of a peer are strictly ordered |
| WatermarkRuns.SupersededEntriesStay | orchestrator/state_transition_manager.py:303-356 | a call about its peer keeps a held entry of a superseded epoch and reports nothing flushed for it |
| WatermarkRuns.SupersededNeverApplied | orchestrator/state_transition_manager.py:182-207 | over any run in which the peer stays cached, every result about a key of a superseded epoch is a refusal |
| WatermarkRuns.SupersededStaysHeld | orchestrator/state_transition_manager.py:303-356 | and a held entry of such a key is still held, unchanged, unless the peer's buffer was evicted |
| TrustRuns.AcceptedNeedCleanWitnesses | orchestrator/state_transition_manager.py:367-403 | in every run each accepted observation has two witnesses in distinct provenance buckets that had not been caught equivocating, and the ledger records exactly the caught ones |
| TrustRuns.ScoreBounded | orchestrator/state_transition_manager.py:488-511 | in every state such a run reaches, the score is at most the number of distinct buckets |
| TrustRuns.ContradictedObserverIsLockedOut | orchestrator/state_transition_manager.py:367-377 | while both conflicting entries are retained, the gates catch each report of that observer from that provenance, a call's direct result about it is not accepted, and the observer is on the ledger |
| DecisionRuns.DecisionsAreExact | orchestrator/state_transition_manager.py:361-466 | over any run from a fresh manager, direct and flushed results alike: a gated report is an equivocation, lacks quorum, is approved or is flagged if and only if, from the trace alone, it contradicts one of the last 49, is not vouched for by enough clean buckets, is free of close keys and stored witnesses, or is not; its signal is strong exactly when there are two of them; nothing else is accepted |
| DecisionRuns.ResultsCarryTheirReasons | orchestrator/state_transition_manager.py:361-466 | the evidence of a gated result names exactly the contradicted reports among the last 49, its score is there exactly when the two quorum sets are large enough and counts the clean buckets, and exactly an accepted one has a signal |
| DecisionRuns.ScoreCountsCleanBuckets | orchestrator/state_transition_manager.py:488-511 | the score is the neutral weight times the number of provenance buckets with an uncaught witness |
| DecisionRuns.CaughtExactly | orchestrator/state_transition_manager.py:361-377 | over any run from a fresh manager, a direct or flushed report that reaches the gates is caught if and only if it contradicts one of the last 49 that reached them for its peer and epoch |
| DecisionRuns.ContradictedObserverStaysLockedOut | orchestrator/state_transition_manager.py:361-377 | over any run, while two opposite reports of an observer from one provenance are among those 49, no direct or flushed report of it from there is accepted |
| DecisionRuns.RetainedIsWindow | orchestrator/equivocation.py:47-86 | after any history a report is compared with exactly the last 49 observations of its peer and epoch |
| AdmissionRuns.AdmissionIsExact | orchestrator/state_transition_manager.py:168-289 | in every tracked state a submission reaches the gates, is held back, is a duplicate or is stale exactly under the stated conditions on the watermark, the held entries, its deadline and the buffer limit |
| AdmissionRuns.HeldIsFiled | orchestrator/state_transition_manager.py:265-289 | holding back files the submission under its key, keeps the first payload, and changes nothing else |
| AdmissionRuns.BuffersStayBounded | orchestrator/state_transition_manager.py:265-289 | over any run no peer has more entries held than the maximum |
| ReplayRuns.ReplaysAreDuplicates | orchestrator/state_transition_manager.py:168-187 | over any run from a fresh manager, a submission whose peer, epoch, sequence and observer are among the last so many distinct ones that moved a watermark is a duplicate that changes nothing, and any other one only when a different observation is held under its key |
| Reordering.ReorderingIsInvisible | orchestrator/state_transition_manager.py:168-359 | every admissible delivery order of a contiguous batch accepts each item once, ascending, and ends in the in-order state with an empty buffer |
| Reordering.DeliveryOrderIrrelevant | orchestrator/state_transition_manager.py:168-359 | two admissible orders agree on the final state and on every decided result |
| AuditChain.AppendKeepsChainExactly | orchestrator/audit_log.py:178-229 | a verifying chain stays verifying through an append if and only if the new signature verifies |
| AuditChain.NextEntryAttests | orchestrator/audit_log.py:178-229 | a new entry says what was asked at the time given and carries the signature of the signer over everything else |
| AuditChain.LastHashDeterminesChain | orchestrator/audit_log.py:66-69 | with an injective hash, two verifying chains with the same last hash are equal entry by entry |
| AuditChain.EditsAreDetected | orchestrator/audit_log.py:235-265 | changing any one entry without the final hash breaks verification |
| AuditChain.AppendAllKeepsChain | orchestrator/audit_log.py:178-229 | any number of appends keeps the chain verifying and extends it by one entry each |
| AuditChain.ReopenExactly | orchestrator/audit_log.py:103-162 | opening a file yields a chain exactly when its lines are the rows of that chain and the chain verifies |
| AuditChain.ReplayRebuildsExactly | orchestrator/audit_log.py:103-162 | over any appends and for any signer and verifier, reopening rebuilds the in-memory chain if and only if that chain verifies and no failed append left anything in the file: a row, a row without its newline, or part of one |
| AuditChain.SoundLogsReopen | orchestrator/audit_log.py:103-162 | with a signer that the verifier accepts, only the writes matter |
| AuditChain.AuditLog.VerifyChain | orchestrator/audit_log.py:235-265 | the loop decides exactly whether every link, hash and signature holds |
| AuditChain.AuditLog.Append | orchestrator/audit_log.py:178-229 | memory and file after each way the write can go |
| StateTransitionManager.Manager.TallyWitnesses | orchestrator/state_transition_manager.py:488-500 | the vote loop computes the heaviest weight of each bucket |
| StateTransitionManager.Manager.WeighVotes | orchestrator/state_transition_manager.py:488-511 | the loops compute the specified score |
| StateTransitionManager.Manager.CollectPairs | orchestrator/state_transition_manager.py:513-533 | the two correlation loops compute the specified pairs |
| StateTransitionManager.Manager.CheckSybilCorrelation | orchestrator/state_transition_manager.py:513-557 | the pairs and the signal of the specification, whose meaning is that of SybilSignals.SignalExactly |
| StateTransitionManager.Manager.ApplyObservation | orchestrator/state_transition_manager.py:361-466 | the gates in order: new state, result and audit record, or the state a failing write leaves |
| StateTransitionManager.Manager.FlushReorderBuffer | orchestrator/state_transition_manager.py:291-359 | the drain loop equals the recursive specification, a failing write that puts the entry back included, and records every flushed result |
| StateTransitionManager.Manager.Buffer | orchestrator/state_transition_manager.py:209-289 | holding back, refusing and deduplicating entries ahead of the watermark, or raising when the refusal cannot be recorded |
| StateTransitionManager.Manager.EvaluateObservation | orchestrator/state_transition_manager.py:168-207 | a call changes the object's state exactly as specified, whichever of its audit writes fails, and appends exactly its decided results to the audit log |
| FaultyTransition.FaultlessIsEvaluate | orchestrator/state_transition_manager.py:168-359 | without a failing write the fault-aware call is the specified call |
| FaultyRuns.FaultyCallIsSteady | orchestrator/state_transition_manager.py:291-359 | whichever audit write of a call fails, seen keys stay at or below the watermark, it moves up one legal step per audited advancing result, and other peers can only be evicted |
| FaultyRuns.RaisingGatesKeepTheirRecords | orchestrator/state_transition_manager.py:361-377 | a failing write at the gates keeps their equivocation record and penalty as if it had succeeded, and loses only what comes after |
| FaultyRuns.FirstWriteFailing | orchestrator/state_transition_manager.py:168-359 | a call whose first write fails has no result and changes nothing but the records of the gates, if it got there |
| FaultyRuns.AcceptedAreOrderedDespiteFaults | orchestrator/state_transition_manager.py:168-359 | over any run with failing audit writes in which the peer stays cached, accepted observations of a peer are strictly ordered |
| FaultyRuns.RestoredEntryIsNext | orchestrator/state_transition_manager.py:309-342 | a drain that raises stops at the entry directly above the watermark, which is still held if and only if it has not expired |
| FaultyRuns.RestoredEntryStrandsExactly | orchestrator/state_transition_manager.py:334-359 | an entry directly above the watermark leaves the buffer on the next submission of its key if and only if that submission is not accepted |
| AuditRuns.RunsAreAudited | orchestrator/state_transition_manager.py:361-576 | over any run the chain keeps its past, verifies, and grows by exactly one signed entry per decided result, flushed ones included, in order, with the status name and the distinct witnesses of what was decided |
| PeerLocks.EntryLivesWithItsTasks | orchestrator/state_transition_manager.py:153-166 | over every interleaving a peer is in the lock table exactly while one of its evaluations waits or runs, and its count is their number |
| PeerLocks.OnePeerRunsAlone | orchestrator/state_transition_manager.py:153-166 | overlapping evaluations of a peer share one lock and never run together |
| PeerLocks.WaitersAreNeverStuck | orchestrator/state_transition_manager.py:153-166 | a waiting evaluation can take its lock or an evaluation of its peer can finish |
| Tier5Budget.StepKeepsInv | orchestrator/tier5_budget.py:205-396 | every transaction keeps the ledger's invariant, never raises a run's money, freezes terminal rows and keeps identities and markers |
| Tier5BudgetRuns.DailyLimitHolds | orchestrator/tier5_budget.py:205-282 | over every interleaving, held plus settled of a day never exceeds the limit |
| Tier5BudgetRuns.RowsAreConsistent | orchestrator/tier5_budget.py:284-396 | RESERVED means no marker, DISPATCHED and CONSUMED_UNKNOWN mean a marker, terminal rows hold nothing, no run exceeds its policy cap |
| Tier5BudgetRuns.RunEvolves | orchestrator/tier5_budget.py:205-396 | the invariant and the monotone evolution of every row over any run |
| Tier5BudgetRuns.WorstCaseIsNeverExceeded | orchestrator/tier5_budget.py:205-282 | from its reservation on, a run never carries more than its worst case |
| Tier5BudgetRuns.TerminalRunsAreFrozen | orchestrator/tier5_budget.py:311-396 | a terminal run never changes again |
| Tier5BudgetRuns.ReleaseNeedsNoMarker | orchestrator/tier5_budget.py:338-396 | no step releases a run that has a marker at that moment |
| Tier5BudgetRuns.MarkersComeFromMarking | orchestrator/tier5_budget.py:284-309 | a run has a marker exactly when it had one or was marked since, whatever its state |
| Tier5BudgetRuns.ReleasedRunsCanBeMarked | orchestrator/tier5_budget.py:298-302 | a concrete run that is released and then marked |
| Tier5BudgetRuns.RepeatedKeysReplay | orchestrator/tier5_budget.py:205-282 | a repeated key returns its run as it stands or is refused for another fingerprint, and changes nothing |
| Tier5BudgetRuns.FreshRequestsAreGrantedExactly | orchestrator/tier5_budget.py:245-282 | a new request is granted if and only if its worst case fits the day, its explicit cap, or the default with one unit kept back |
| Tier5BudgetRuns.RefusalsSayWhy | orchestrator/tier5_budget.py:245-282 | a request under a new key is refused for its amount if and only if it does not fit, for its run id if and only if it fits but the id is taken, and changes nothing |
| Tier5BudgetRuns.FreshGrantHoldsTheWorstCase | orchestrator/tier5_budget.py:245-282 | a fresh grant adds exactly one row, RESERVED, holding the whole worst case with nothing settled, under the identity of the request, its cap and the time of the call |
| Tier5BudgetRuns.OpenWorstCasesStayWithinTheLimit | orchestrator/tier5_budget.py:205-282 | over every interleaving, the worst cases that were requested for the runs of a day still RESERVED or DISPATCHED, plus everything settled for that day, never exceed the limit |
| Tier5BudgetRuns.MalformedRequestsAreRefused | orchestrator/tier5_budget.py:205-236 | a request is refused as malformed if and only if one of its names is blank or an amount is not positive |
| Tier5BudgetRuns.UnknownRunsAreRefused | orchestrator/tier5_budget.py:284-371 | a run id without a run can be neither marked nor settled nor released |
| Tier5BudgetRuns.MarkingDispatchesExactly | orchestrator/tier5_budget.py:284-309 | marking records the stage whatever the state, and dispatches exactly a RESERVED run, on the same hold |
| Tier5BudgetRuns.SettlingChargesExactly | orchestrator/tier5_budget.py:311-336 | settling an open run charges its hold less what is verified unused, all of it when that is missing or out of range, and touches no other run |
| Tier5BudgetRuns.ReleasingFreesExactly | orchestrator/tier5_budget.py:338-371 | a release succeeds if and only if the run is RESERVED without a marker, and then frees the whole hold |
| Tier5BudgetRuns.SweepingEndsExactly | orchestrator/tier5_budget.py:373-396 | a sweep releases exactly the stale RESERVED runs and charges exactly the stale DISPATCHED ones with their whole hold |
| Tier5BudgetRuns.SweptRunsAreCounted | orchestrator/tier5_budget.py:373-396 | the two numbers it reports are how many of each there were |
| Tier5BudgetLedger.Ledger.ReserveFunds | orchestrator/tier5_budget.py:205-282 | the new tables and the answer, every error included; the invariant is kept |
| Tier5BudgetLedger.Ledger.Mark | orchestrator/tier5_budget.py:284-309 | the marker is inserted whatever the state, the state moves only from RESERVED |
| Tier5BudgetLedger.Ledger.SettleRun | orchestrator/tier5_budget.py:311-336 | the settled row, or the unchanged terminal one |
| Tier5BudgetLedger.Ledger.Release | orchestrator/tier5_budget.py:338-371 | release only without marker and from RESERVED |
| Tier5BudgetLedger.Ledger.Recover | orchestrator/tier5_budget.py:373-396 | the two update loops change exactly the stale rows and report how many |
| Tier5Execution.RoundHalfEven | orchestrator/tier5_execution.py:201-202 | the nearest integer, ties to even |
| Tier5Execution.SettledAsPromisedExactly | orchestrator/tier5_execution.py:132-211 | known cost charges the lesser of cost and hold, unknown cost or a failure after a marker the whole hold, a failure before any marker nothing, if and only if the key's run was reserved under the caller's run id, the call was not cancelled and the cost was not infinite |
| Tier5Execution.KnownCostIsCharged | orchestrator/tier5_execution.py:200-206 | a known cost of at least zero charges the whole hold when its micro-USD reach it, and otherwise the nearest whole number of micro-USD, the even one of two |
| Tier5Execution.OtherEndingsAreCharged | orchestrator/tier5_execution.py:174-206 | an unknown or negative cost or a failure after a commit charges the whole hold, a failure before any commit nothing |
| Tier5Execution.AnswersTellWhatHappened | orchestrator/tier5_execution.py:132-211 | the caller is told why it was refused, the run as it stands when its key is past its reservation, and else how the call ended, with the row of its run when that was settled |
| Tier5Execution.UnhandledCallKeepsTheHold | orchestrator/tier5_execution.py:174-206 | a cancelled call, or one with an infinite cost, leaves its run RESERVED, or DISPATCHED once something was committed, with the whole hold |
| Tier5Execution.CancellationLeavesTheHold | orchestrator/tier5_execution.py:174-198 | a call under its own run id that is cancelled and leaves the ledger as it was |
| Tier5Execution.InfiniteCostLeavesTheHold | orchestrator/tier5_execution.py:200-206 | a call that dispatches, reports an infinite cost and leaves its run DISPATCHED with the whole hold |
| Tier5Aftermath.CommittedRunsAwaitTheSweep | orchestrator/tier5_execution.py:143-159 | when something was committed, the run keeps its hold through any later calls for its key, with any endings, and other traffic; no such call reaches the runner; the first sweep that finds it stale charges it in full |
| Tier5Aftermath.UncommittedRunsCanBeRetried | orchestrator/tier5_execution.py:135-211 | when nothing was committed, a later call under the same key, fingerprint and run id dispatches on the same hold, which then ends as promised if and only if that call is neither cancelled nor infinite in cost |
| Tier5Aftermath.UncommittedRunsAreReleasedByTheSweep | orchestrator/tier5_budget.py:373-396 | when nothing was committed and nobody touched the run, the first sweep that finds it stale releases it in full |
| Tier5Aftermath.RetryEndsACancelledRun | orchestrator/tier5_execution.py:135-198 | a cancelled call whose retry releases the hold without a sweep |
| Tier5Execution.OtherRunIdLeavesTheHold | orchestrator/tier5_execution.py:132-211 | a call under another run id that leaves the hold in place |
| Tier5Execution.MarkedKeysNeverDispatchAgain | orchestrator/tier5_execution.py:135-159 | once the run behind a key has a marker, no later call for it reaches the runner or changes the ledger |
| Tier5Execution.Service.RunExecution | orchestrator/tier5_execution.py:104-211 | the service's steps on the ledger object, every ending and other clients' transactions included |
| PipelineLoader.LoadStages | orchestrator/tiered_pipeline.py:522-569 | the stage loop succeeds exactly when every row is valid, and builds the stages and their token sum |
| PipelineLoader.LoadRecipe | orchestrator/tiered_pipeline.py:507-610 | a recipe is accepted if and only if it meets the whole acceptance condition, and is then fit for the run loop |
| PipelineLoader.LoadBackends | orchestrator/tiered_pipeline.py:488-506 | every candidate has an eligible tier and a backend, or loading fails |
| TieredPipeline.Load | orchestrator/tiered_pipeline.py:412-610 | a runner is produced exactly for a registered and acceptable configuration with models and recipes; every recipe is the one its rows and settings describe, and every backend the registry's |
| TieredPipeline.TryCandidates | orchestrator/tiered_pipeline.py:777-840 | the candidate loop equals its specification |
| TieredPipeline.RunAllStages | orchestrator/tiered_pipeline.py:765-870 | the stage loop equals its specification |
| PipelineRuns.Run | orchestrator/tiered_pipeline.py:724-888 | the run method: for a loaded configuration its calls and result are those of a safe run, as stated in the next row |
| PipelineRuns.LoadedRunsAreDisciplined | orchestrator/tiered_pipeline.py:765-888 | for every loaded configuration and dispatcher: each call is the next in-scope candidate of the current stage with its cap and a prompt built from earlier answers, the run stops exactly when no call may follow, no lookup fails, and the result is the account of the trace |
| PipelineRuns.TokensStayWithinCaps | orchestrator/tiered_pipeline.py:522-593 | at every point of every run the answered calls stay within the recipe's and the approval's token caps |
| PipelineRuns.CallsAreScopedAndFailStop | orchestrator/tiered_pipeline.py:780-845 | only in-scope candidates are called, and no model after a failure that is not safe to fall back from or an empty output |
| PipelineRuns.CallsAreApproved | orchestrator/tiered_pipeline.py:623-636 | every call of every run goes to a model whose backend in the registry, with case folded, is an item of the scope of the approval |
| PipelineRuns.UnapprovedRunsMakeNoCall | orchestrator/tiered_pipeline.py:777-845 | when no candidate of the first stage has such a backend, an admitted run whose first prompt fits makes no call and answers an approval error |
| PipelineRuns.CallsNeedAValidApproval | orchestrator/tiered_pipeline.py:638-763 | with an approved first candidate whose prompt fits, a model is called if and only if the pipeline is enabled, the prompt is not blank, the gate agrees and the approval is present, not revoked, not expired, complete, made for this recipe and tier, and covers its tokens and cost |
| PipelineRuns.RefusalsInOrder | orchestrator/tiered_pipeline.py:638-763 | a run refused before its first stage answers the error of the first check that fails: disabled, blank prompt, unknown recipe, approval, gate |
| PipelineRuns.PromptsCarryAnswers | orchestrator/tiered_pipeline.py:675-722 | every call carries the original request and, for a stage with an upstream one, the text with which an earlier call of that stage was answered |
| PipelineRuns.ResultTotalsAreExact | orchestrator/tiered_pipeline.py:846-888 | the totals of a result are the sums of what its answers reported, and missing as soon as one did not report |
| Text.Utf8LengthExact | orchestrator/tiered_pipeline.py:219-221 | the size that bounds a prompt is the number of its UTF-8 octets |
| Supervisor.LatestStatusPerJob | orchestrator/supervisor.py:283-290 | the fold maps each job to its last event |
| Supervisor.CancelledIsAbsorbing | orchestrator/supervisor.py:538-721 | over every interleaving and however appends fail, every event after a CANCELLED one is CANCELLED |
| Supervisor.OneAnnotationLast | orchestrator/supervisor.py:586-663 | an annotated job's last event is an annotation, only annotations follow one, and there are at most as many as attempts, or at most one while no annotation append failed after writing |
| SupervisorRuns.AnnotatedOnceExactly | orchestrator/supervisor.py:623-663 | a job has one annotation per attempt whose line was written, and at most one if and only if no attempt wrote after one that had failed although its line was written |
| SupervisorRuns.EventsComeInOrder | orchestrator/supervisor.py:858-935 | over every interleaving a job's events come in the order QUEUED, RUNNING, SUCCEEDED, FAILED, CANCELLED, each at most once save the last |
| SupervisorRuns.ReportsAreFinalExactly | orchestrator/supervisor.py:901-935 | without failing appends, and once a due callback has run, an event follows SUCCEEDED or FAILED if and only if a cancel was delivered to the started worker, and it is CANCELLED |
| SupervisorRuns.CancelRequestsTakeEffect | orchestrator/supervisor.py:665-721 | over any run, once a cancel caller of either kind found the worker not done, a cancelling action stays enabled until it is done, a worker that has not started can no longer start, and when such an action is taken and no append fails the last event is CANCELLED once its callback has run |
| SupervisorRuns.NothingIsCancelledUnasked | orchestrator/supervisor.py:530-721 | a worker ends cancelled, and a job has a CANCELLED event, only if some cancel caller came |
| SupervisorRuns.ConfirmedCancelsStand | orchestrator/supervisor.py:665-721 | once a cancel caller has resumed on a cancelled worker without a failing append of its own, or come back to a cancelled job with a child still mapped, the last event is CANCELLED and the cleanup exists ever after, whatever the worker and its callback failed to record |
| SupervisorRuns.DeliveredCancelsEnd | orchestrator/supervisor.py:901-935 | a cancel delivered during the failure report ends the worker cancelled with nothing on record; at any other point the worker records CANCELLED itself and ends cancelled exactly when that append succeeds |
| SupervisorRuns.AttemptsTellTheTruth | orchestrator/supervisor.py:586-663 | a written annotation says in-process exactly when no child is mapped, and verified exactly when the killed child has exited and its tree was contained; once it is durable the cleanup is over and exactly the killed child is forgotten |
| SupervisorRuns.AttemptsAreThree | orchestrator/supervisor.py:623-663 | a failed attempt is repeated until three have been made |
| SupervisorRuns.RunningChildIsKept | orchestrator/supervisor.py:723-738 | a mapped child gives way to another one only after it has exited, and is cleared only by name |
| SupervisorRuns.SucceededIsNotAbsorbing | orchestrator/supervisor.py:901-917 | a cancel during the success report adds CANCELLED after SUCCEEDED |
| Supervisor.ChildOutlivesAnnotation | orchestrator/supervisor.py:754-801 | containment drops a mapped child only in the step that made its annotation durable |
| Supervisor.CancelledJobsGetAnnotated | orchestrator/supervisor.py:538-663 | without failures, a cancelled job whose callback ran and whose cleanup is over is annotated |
| Supervisor.FailedIsNotAbsorbing | orchestrator/supervisor.py:858-935 | a cancel during the failure report adds CANCELLED after FAILED |
| Supervisor.FailedButWrittenAnnotationsRepeat | orchestrator/supervisor.py:623-663 | a run with two annotations |
| SingleFlight.OneProbePerBackend | orchestrator/connectivity.py:237-298 | two probes of a backend never run together unless one was queued by a submission that raised |
| StrayProbes.ProbesClashExactly | orchestrator/connectivity.py:237-356 | from any reachable state, with a clock that never runs backwards and without a further raising submission, two probes of a backend can come to run together if and only if such a refresh is still scheduled or probing |
| SingleFlight.UnresolvedFuturesAreLed | orchestrator/connectivity.py:257-298 | every unresolved future has a leader with a step to take |
| SingleFlight.ResolvedOnce | orchestrator/connectivity.py:257-284 | a future's value never changes once set |
| SingleFlight.ValueIsLeadersOutcome | orchestrator/connectivity.py:257-284 | that value is the result the refresh ended with, or the excuse, which stands only for a refresh that was never scheduled or was queued by a submission that raised |
| ProbeCache.CachedAnswersAreExact | orchestrator/connectivity.py:237-284 | over every interleaving, a caller is answered from the cache if and only if the last published refresh of the backend ended with that result less than 60 seconds ago, or 15 when it was a failure |
| SingleFlight.MarkersHaveLeaders | orchestrator/connectivity.py:339-356 | no in-flight marker outlives its leader |
| SingleFlight.StrayRefreshBreaksSingleFlight | orchestrator/connectivity.py:347-356 | a run with two probes of one backend after a raising submission |
| TokenBucket.WindowBound | orchestrator/alphaclaw_tls_proxy.py:417-428 | for every call sequence with a nondecreasing clock, the lines granted in any window are at most burst plus rate times its length, in those numbers |
| TokenBucket.TakesExactly | orchestrator/alphaclaw_tls_proxy.py:417-428 | a line is granted if and only if what had accrued, up to the burst, is at least one token; exactly that one is taken |
| TokenBucket.DropsAreConserved | orchestrator/alphaclaw_tls_proxy.py:417-428 | reported drops plus pending ones equal the denied calls, and tokens stay between 0 and burst |
| TokenBucket.WaitingIsRewarded | orchestrator/alphaclaw_tls_proxy.py:417-428 | once a token's worth of time has passed the next line is granted |
| TokenBucket.ConnectionTelemetry.TakeToken | orchestrator/alphaclaw_tls_proxy.py:417-428 | the in-place update equals the specification and keeps the bounds |
| ChunkedBody.ReadChunkedBody | orchestrator/alphaclaw_tls_proxy.py:754-786 | the reader loop equals the recursive specification, every error included |
| ChunkedBody.DecodeIsBounded | orchestrator/alphaclaw_tls_proxy.py:754-786 | on any input the body is within the limit and the rest is a suffix of the stream |
| ChunkedBody.SizeLineReads | orchestrator/alphaclaw_tls_proxy.py:764-770 | a size line with any digits, zeros and extension reads back as its value |
| ChunkedBody.HexReadsBack | orchestrator/alphaclaw_tls_proxy.py:764-770 | the hexadecimal digits of a number, in either case, read back as that number |
| ChunkedBody.DecodeInvertsEncode | orchestrator/alphaclaw_tls_proxy.py:754-786 | decoding any chunking per section 7.1 of RFC 9112 within the limit returns the body, and what is left is known exactly |
| ChunkedBody.ConsumesExactlyWithoutTrailers | orchestrator/alphaclaw_tls_proxy.py:773-775 | exactly the encoded bytes are consumed if and only if there are no trailers |
| ChunkedBody.OversizeIsRefused | orchestrator/alphaclaw_tls_proxy.py:776-778 | every chunking of a body beyond the limit is refused |
| ChunkedBody.CutShortIsTruncated | orchestrator/alphaclaw_tls_proxy.py:757-786 | a stream that ends where a size line is due or inside the data of a chunk is truncated, whatever was read before |
| ChunkedBody.BadSizesAreMalformed | orchestrator/alphaclaw_tls_proxy.py:764-772 | a blank size line, one that does not start with a digit or a sign, and a negative size are malformed, whatever was read before |
| RankFusion.FusionIsSorted | orchestrator/memory_rrf.py:46-67 | the fused ranking of any lists has no duplicates, descending score with ties by first appearance, and nothing left out that outscores something kept |
| RankFusion.ScoresAreReciprocalRanks | orchestrator/memory_rrf.py:46-60 | with distinct keys in each list, a key scores one over its rank plus the constant plus one, summed over the lists that have it |
| RankFusion.MergeRanksByShares | orchestrator/memory_rrf.py:42-67 | the merged keys come in order of these sums, and a key cut off has no more than any key kept |
| RankFusion.TiesByFirstAppearance | orchestrator/memory_rrf.py:46-67 | keys with equal sums come in order of first appearance, keyword hits first |
| RankFusion.FirstHitIsFirst | orchestrator/memory_rrf.py:46-60 | a key stands for the first hit that has it |
| RankFusion.KeysIdentifyHits | orchestrator/memory_rrf.py:48-54 | with fresh random identifiers, two hits share a key if and only if they have the same row id |
| RankFusion.FusionWithoutVectors | orchestrator/memory_rrf.py:42-43 | with distinct keyword keys, fusing with an empty list is the fallback: the keyword list cut to size |
| RankFusion.MergeIsSorted | orchestrator/memory_rrf.py:42-67 | the same for the keys of the merge, in both branches, with distinct keyword keys or any vector hits |
| RankFusion.MergeIsDistinctExactly | orchestrator/memory_rrf.py:42-67 | for all inputs the merged keys are distinct if and only if there are vector hits or the returned keyword keys are distinct |
| RankFusion.RepeatedKeywordHit | orchestrator/memory_rrf.py:42-43 | a repeated keyword key that is returned twice without vector hits and once with one |
| RankFusion.FusionIsParetoConsistent | orchestrator/memory_rrf.py:42-67 | a hit nowhere behind another and ahead of it somewhere is ahead of it in the merge |
| RankFusion.BothListsBeatOne | orchestrator/memory_rrf.py:42-67 | a hit in both lists at rank r or better is ahead of any single-list hit at rank r or worse in the merge |
| RankFusion.Merge | orchestrator/memory_rrf.py:42-67 | the loops and the sort return the first-seen hits of the ranked keys, and in either branch hits that carry the merged keys in order |

## Left out

- Several failing audit writes in one call: the first one raises out of the call, so there is no second. A torn row is taken to be unreadable together with whatever is written after it.
- Result texts of the manager: reason strings, `detected_at`, the quorum-vote and per-observer details and the metadata of a result; no decision reads them.
- The order of entries inside one peer's reorder buffer, which nothing reads; a pending buffer is a map.
- Provenance parsing and the witness depth of an observation; the provenance bucket is an arbitrary function, so every result holds for the real one. The deduplication key is a tuple, which the printed form equals for ids without a colon.
- The clock inside one manager call: a call uses one time throughout.
- Tier5Execution.SettledAsPromisedExactly: assumes no sweep and no duplicate touching the run, as two calls with one key that both find it RESERVED may both dispatch.
- Tier5Aftermath.CommittedRunsAwaitTheSweep: leaves aside transactions issued directly in the run's name and calls that pass its run id with another key.
- Lock contention of the ledger: an unavailable database changes nothing and is not a step. The `created_at` and marker times, which nothing reads, are dropped.
- The request fingerprint: an arbitrary string here; its keyed hash would only add easy members.
- Tier5Execution.RoundHalfEven: rounds exact reals, not binary floating-point products; a product that overflows is the infinite cost. The pipeline's own sum of costs is over exact reals.
- YAML shape checks, unknown keys, alias overrides from the environment, approval files, revocation files and trace lines of the pipeline; the frugality gate is a boolean and case folding an arbitrary function.
- A job id submitted twice: a job starts with an id that is new to the event log.
- Submission, replay and the list projection of jobs, result artifacts, gossip and Periscope emission; cancelling the cleanup task itself at shutdown.
- The remote probes, and the deadlines and time-outs of the health map.
- Sockets, threads, TLS, the Content-Length branch of the proxy, and all HTTP endpoints.
- TokenBucket.WindowBound: over exact arithmetic, for a rate that is not negative.
- RankFusion.Merge: exact reciprocals and a rank constant that is not negative; random identifiers for hits without a row id are a parameter.
- orchestrator/gate.py, orchestrator/cost_guard.py, model transport, discovery, launchers, embeddings and redaction.
