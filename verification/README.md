# Verified model of the resource-claim autoscaler

A Kubernetes operator that sizes LLM inference workloads: it predicts latency for a candidate
(replicas, GPUs per replica, compute, memory), searches for a configuration that meets the latency
targets, and applies it by writing ResourceClaimTemplates and patching the Deployment or StatefulSet
that uses them. This project models the four connected parts of it and proves what they keep.

| modules | what they model |
|---|---|
| `RealMath`, `Erlang`, `QueueAnalyzer` | the queueing arithmetic: factorials, `erlangC`, wait and end-to-end latency |
| `LatencyEstimator`, `ResourceEstimator` | the closed formulas for prefill, inter-token latency, thread occupancy and memory |
| `ResourceOptimizer`, `SearchOptimality`, `FewestGPUs`, `SqueezeCounterexample` | the nested first-fit search with its compute squeeze, against an exhaustive search and the fewest GPUs |
| `SpecConstraints`, `OptimizerInputs` | building the search's problem from an autoscaler spec, a GPU of the registry and measured traffic |
| `SearchAnswers` | what every answer of the search promises, in terms of limits, gigabytes, arrivals and targets |
| `DeviceRequests` | writing, checking and reading back the device requests of a template |
| `PodClaims`, `TemplateNames`, `TemplateLifecycle`, `ClusterOperator` | templates, claims, the workload's references and the recorded status, as a state machine and as the code that writes them |
| `ScalingDecision`, `ScalingLimit`, `DecisionLoop`, `GracePeriod`, `ScalingRounds` | what a scaling round decides, caps, and is allowed to write |
| `SearchedCompute` | whether the decision loop settles on what the search answers |
| `MonitorModel`, `ServiceMonitor` | timers, trigger channels and per-event loops of the service monitor |

Code that changes things step by step is written as classes and methods with loops; each such method
is tied to a function of its inputs, and the theorems are about those functions. Protocols (the template
lifecycle, overlapping rounds, the monitor) are state machines whose theorems quantify over every
sequence of steps. `ServiceMonitor` and `ClusterOperator` tie each call of the imperative code to one such step;
`ScalingRounds` has rounds hold their own copy of the autoscaler and write it back to a shared server, and shows what
is left of them when everything but LastApplyTime is forgotten. `float64` is modelled by `real`, with an explicit +Inf
where the code divides by zero.

## Main results

- **The search is brute force.** `FindOptimalConfiguration` returns the lexicographically first candidate that
  fits memory and budget and passes at full compute, squeezed. The squeeze finds the least passing compute of the whole
  grid, whatever the targets, exactly when the end-to-end latencies of the grid have no peak; one replica, or less than
  one server's load at the lowest grid value, is the easy case. A peak is real: Llama 3 8B on two H200 replicas, where
  10 % passes and the search answers 100 %.
- **Answers keep their promises.** Every answer is within the limits, holds weights, the cache of all prompt and output tokens,
  activations and attention on its GPUs, and says it meets the targets exactly when its own figures do; nothing earlier that
  fits is acceptable.
- **First fit against fewest GPUs.** Whatever passes with fewer GPUs has more replicas of fewer GPUs each. Without an
  end-to-end target first fit is least exactly when no smaller GPU count reaches stability within the replicas for fewer
  GPUs; with one, that condition suffices. It can fail, too: three GPUs answered where two pass.
- **`erlangC`** is (1 - rho/c) times the textbook delay probability, equals (1-r)B/(1-r+rB) with B from the
  Erlang-B recurrence, and erlangC/(1-rho) never decreases below one server's load; hence wait and
  end-to-end latency grow with service time and arrivals. On a stable system the wait is negative exactly when
  the load exceeds one server and infinite exactly when it equals one.
- **Template lifecycle.** Over every run, with any failing API calls but the final status write, the positions that first
  held the original template hold the recorded one, which exists and carries the configuration last applied; all other
  positions are untouched. Without leftover revisions the next decision reads exactly that configuration from it. If that
  status write fails, the references are frozen on the unrecorded name until the finalizer runs. The original survives
  every run, and the workload runs the replicas of the last step that set any. Restoring by name gives back the initial
  references; the finalizer does exactly when every template-based reference began on the original.
- **Grace periods.** In every interleaving of rounds with stale reads and other writers, committed LastApplyTimes are a
  grace period apart and every patch follows its own commit. Undisturbed, a round that scales commits exactly when the
  grace period of its direction has passed.
- **Decide and apply.** For a fixed desired configuration and no step limit, whichever rounds are skipped, blocked or fail,
  the workload is written at most twice, and once more for each lost recording of a new template, exactly when the
  template, once written, is not read as something a round rewrites; else every timely, unblocked round after it writes
  again. Where write and read fit that means compute of a fraction of at most 0.01: with a whole-number step the answers
  of the search settle exactly when the maximum compute has such a fraction, and with a maximum of 99.5 none does. A
  failed replica patch arrives exactly when the resources per replica call for a rewrite. Under a step limit scale-ups
  arrive in ceil(gap/limit) rounds, and scale-downs by more than the limit arrive exactly when the limit covers one
  replica's GPUs.
- **The monitor** never closes a channel twice or sends on a closed one, over every run. While the parent context lives, a
  registered event is asleep exactly when a trigger with a nil spec stalled it; then only a re-arm by name wakes it.
- **Round trips.** Writing and reading back a template agree for every configuration exactly when later
  matching requests are silent.

## Where the code and its documentation disagree

The model follows the code.

- docs/concept/resource_optimization.md:140 and 158 promise the smallest allocation. The search returns the first fit
  (`FewestGPUs.FirstFitUsesMoreGPUs`), and the squeeze stops at the first failure
  (`SqueezeCounterexample.SqueezeMissesCheaperCompute`).
- docs/concept/resource_optimization.md:82 adds TTFT, defined on line 63 to include the queue wait, to the queue wait. The code
  sets TTFT to the prefill latency, as the note on lines 67-68 says, so the wait is counted once.
- docs/concept/resource_optimization.md:91-101 gives the wait as an M/M/c one. The quotient is the code's, but `erlangC`
  lacks the factor 1/(1 - rho/c) and the divisor is the spare rate of one server, not of all of them.
- internal/scaler/scaling_action.go:50-53 describes utilization as usage over allocation; compute utilization is the
  desired percentage itself, so any ratio target in (0, 1] blocks every scale-down under traffic
  (`ScalingDecision.RatioTargetBlocksEveryScaleDown`).

## Model

| member | source | states |
|---|---|---|
| `Erlang.Factorial` | internal/optimizer/queue.go:77-87 | the accumulator loop computes n!, and 1 for n <= 1 |
| `Erlang.IntegerPow` | internal/optimizer/queue.go:67-70 | the power used with integer exponents is repeated multiplication |
| `Erlang.ErlangC` | internal/optimizer/queue.go:61-75 | the loops return exactly (1 - rho/c) times the textbook M/M/c delay probability, and 1 when saturated |
| `Erlang.ErlangBIsTermShare` | internal/optimizer/queue.go:67-72 | the sum of power/factorial terms gives the Erlang-B blocking probability of the standard recurrence |
| `Erlang.WaitFactorViaErlangB` | internal/optimizer/queue.go:62-75 | the result is (1-r)B/(1-r+rB) with r = rho/c and so lies in [0, 1-r] |
| `Erlang.WaitFactorGrowth` | internal/optimizer/queue.go:62-75 | erlangC(rho)/(1-rho) does not decrease in rho on [0, 1), for every server count |
| `QueueAnalyzer.QueueAnalyzer.AddQueuingResults` | internal/optimizer/queue.go:18-59 | fails exactly when load reaches the server count; otherwise every field written is the closed form of the load, with +Inf where the code divides by zero |
| `QueueAnalyzer.QueueFigures` | internal/optimizer/queue.go:18-59 | on a stable system the estimate is kept and the queue figures obey Little's law: arrivals times the wait are in the queue, the system holds the load more; all infinite at a load of one, no wait without load |
| `QueueAnalyzer.QueueAnalyzer.Rates` | internal/optimizer/queue.go:25-38 | the rates the code divides give load, load per server, and the stability test load < servers |
| `QueueAnalyzer.QueueAnalyzer.QueueWait` | internal/optimizer/queue.go:42-45 | the quotient by one server's spare rate is T*T*erlangC/(1-rho) |
| `QueueAnalyzer.RateGap` | internal/optimizer/queue.go:44 | (p/(1/T - a))*T equals T*T*p/(1 - aT), undefined exactly at aT = 1 |
| `QueueAnalyzer.WaitNonNegative` | internal/optimizer/queue.go:40-49 | below one server's load the wait is finite and non-negative for every server count |
| `QueueAnalyzer.WaitMonotone` | internal/optimizer/queue.go:18-59 | there, wait and end-to-end latency do not decrease in service time or arrival rate |
| `QueueAnalyzer.WaitFactorZeroOnlyIdle` | internal/optimizer/queue.go:42 | on a stable system the guard probabilityOfWait > 0 fails exactly without load |
| `QueueAnalyzer.WaitSign` | internal/optimizer/queue.go:30-44 | a system the code calls stable gets a negative wait iff its load exceeds one server, an infinite one iff it equals one |
| `QueueAnalyzer.SingleServer` | internal/optimizer/queue.go:41-44 | one server: erlangC is rho(1-rho) and the wait is T*T*rho |
| `LatencyEstimator.LatencyEstimator.LatencyGrowsWithImpact` | internal/optimizer/latency_estimator.go:89-139 | prefill, inter-token latency, decode and service time are non-negative and do not shrink when the allocation impact grows |
| `LatencyEstimator.LatencyEstimator.LatencyLaw` | internal/optimizer/latency_estimator.go:89-139 | without offsets, prefill above the launch cost is the batch's prompt work less the cached share, and token time the weights and cache read, both divided by the GPUs and scaled by the impact; decode is a token time for each output token |
| `LatencyEstimator.LatencyEstimator.OffsetsShift` | internal/optimizer/latency_estimator.go:119-137 | offsets are added to what the estimates are without them, clamped at zero |
| `ResourceEstimator.ResourceEstimator.MemoryShrinksWithGPUs` | internal/optimizer/resource_estimator.go:198-223 | memory per GPU does not increase with the number of GPUs |
| `ResourceEstimator.ResourceEstimator.OccupancyNonNegative` | internal/optimizer/resource_estimator.go:164-196 | thread occupancy is never negative |
| `ResourceEstimator.ResourceEstimator.MemoryLaw` | internal/optimizer/resource_estimator.go:198-247 | memory per GPU times GPUs is the overhead factor times weights, a cache entry for every prompt and output token of every sequence, activations, and attention past 8192 tokens |
| `ResourceEstimator.ResourceEstimator.OutputTokenCost` | internal/optimizer/resource_estimator.go:199-201 | one more output token costs a cache entry times the batch squared and the overhead, shared by the GPUs |
| `ResourceEstimator.ResourceEstimator.PrefillLaw` | internal/optimizer/resource_estimator.go:146-152 | prefilled tokens are the uncached prompt tokens of the batch, as far as the limit on batched tokens allows |
| `ResourceEstimator.ResourceEstimator.OccupancyLaw` | internal/optimizer/resource_estimator.go:164-196 | occupancy is the share of all GPUs' threads that the larger of prefilled tokens and sequences takes, at most all |
| `ResourceOptimizer.ResourceOptimizer.SetWorkloadParameters` | internal/optimizer/resource_optimizer.go:107-114 | replaces rate and token counts and nothing else the search reads, and the queue analyzer is a new one with the same rate |
| `LatencyEstimator.LatencyEstimator.OffsetsCorrect` | internal/optimizer/latency_estimator.go:81-139 | offsets set to the gap between measured and untuned latencies, as a first round of tuning does when it drops no negative gap, make the estimates come out as measured |
| `ResourceOptimizer.ResourceOptimizer.EvaluateConfiguration` | internal/optimizer/resource_optimizer.go:322-371 | the verdict is stability plus all targets, whatever the memory; the error is exactly instability |
| `ResourceOptimizer.ResourceOptimizer.FindOptimalConfiguration` | internal/optimizer/resource_optimizer.go:180-316 | a feasible result is the lexicographically first candidate, squeezed; otherwise the last candidate at maximum resources with nothing feasible; an error iff there is no candidate |
| `ResourceOptimizer.ResourceOptimizer.SqueezeResources` | internal/optimizer/resource_optimizer.go:260-284 | least aligned memory, and the last grid value before the first failing one |
| `ResourceOptimizer.NothingBeyondBudget` | internal/optimizer/resource_optimizer.go:198-213 | stopping when TotalGPUs/replicas < 1 loses no candidate |
| `ResourceOptimizer.RowDone` | internal/optimizer/resource_optimizer.go:217-222 | after the inner loop every candidate of that replica count lies behind |
| `ResourceOptimizer.Problem.GridIndices` | internal/optimizer/resource_optimizer.go:276-283 | the values the squeeze visits are exactly max - i*step at or above max(occupancy, min) |
| `SearchOptimality.DensityImpactGrows` | internal/optimizer/resource_optimizer.go:496-519 | the allocation impact does not decrease in density on [0, 1] |
| `SearchOptimality.ImpactSign` | internal/optimizer/resource_optimizer.go:496-519 | it is negative iff density is below 0.5, positive iff above 0.8, and runs from the full speedup to a fifth of the contention |
| `SearchOptimality.ImpactBounded` | internal/optimizer/resource_optimizer.go:330-331 | with less compute than occupancy, zero included, the penalty is that of full density |
| `SearchOptimality.ImpactGrows` | internal/optimizer/resource_optimizer.go:330-331 | from any compute down to the occupancy itself, zero included, the impact does not drop |
| `SearchOptimality.EstimateGrows` | internal/optimizer/resource_optimizer.go:330-340 | less compute never lowers prefill, inter-token latency or service time |
| `SearchOptimality.PassesUpward` | internal/optimizer/resource_optimizer.go:276-283 | on a sound scan a pass at one grid value is a pass at every higher one |
| `SearchOptimality.NoFailureBetween` | internal/optimizer/resource_optimizer.go:276-283 | without a peak, everything on the grid before a value that passes, as full compute does, passes |
| `SearchOptimality.PeakMisleads` | internal/optimizer/resource_optimizer.go:276-283 | at a peak, a target between the latencies beside it stops the scan before a value that passes |
| `SearchOptimality.SqueezeOptimalIff` | internal/optimizer/resource_optimizer.go:260-284 | the greedy squeeze equals the exhaustive one for all targets full compute meets iff the grid's end-to-end latencies have no peak |
| `SearchOptimality.SoundLoadHasNoPeak` | internal/optimizer/queue.go:40-57 | one replica, or less than one server's load at the lowest compute, excludes a peak |
| `SearchOptimality.SqueezeIsOptimal` | internal/optimizer/resource_optimizer.go:260-284 | so on a sound scan the greedy squeeze returns what looking at every grid value returns |
| `SearchOptimality.SearchIsBruteForce` | internal/optimizer/resource_optimizer.go:195-287 | nothing that passes anywhere on a sound scan comes before the result, and nothing at its replicas and GPUs passes with less compute |
| `SearchOptimality.AlignedMemory` | internal/optimizer/resource_optimizer.go:260-265 | the memory is the least min + k*step covering the requirement, below max + step, and at most max when max is on that grid |
| `SqueezeCounterexample.SqueezeMissesCheaperCompute` | internal/optimizer/resource_optimizer.go:276-283 | Llama 3 8B on an H200, validated inputs: the scan stops at 100 % although 10 % is on the grid and passes, so there is a peak |
| `FewestGPUs.CheaperIsWider` | internal/optimizer/resource_optimizer.go:195-222 | whatever passes with fewer GPUs in all than the result has more replicas of fewer GPUs |
| `FewestGPUs.FewestWhenNarrow` | internal/optimizer/resource_optimizer.go:195-222 | the result uses the fewest GPUs if it has the most replicas, one GPU a replica, or one replica of two |
| `FewestGPUs.FewestByLoad` | internal/optimizer/resource_optimizer.go:195-274 | for all targets, it does if no smaller GPU count is stable within the replicas for fewer GPUs |
| `FewestGPUs.FewestIff` | internal/optimizer/resource_optimizer.go:195-274 | without an end-to-end target, exactly then |
| `FewestGPUs.FirstFitUsesMoreGPUs` | internal/optimizer/resource_optimizer.go:195-222 | Llama 3 8B on H200s, validated inputs and default targets: three GPUs answered where two on two replicas pass |
| `OptimizerInputs.Inputs.BuildIsValid` | internal/optimizer/resource_optimizer.go:85-114 | what the constructors build from validated parameters, a registered GPU and measured traffic meets the conditions of all results on the search |
| `SpecConstraints.StatedOrDefault` | internal/optimizer/resource_optimizer.go:423-492 | each bound of the spec is taken as stated, else 1/100/1 percent, 8/80/1 GiB, 8 GPUs, 10 replicas; the budget is the product of the two counts when the GPUs are limited |
| `SearchAnswers.CandidateIff` | internal/optimizer/resource_optimizer.go:195-239 | a pair is searched iff it is within the limits and the replica's memory fits the maximum of its GPUs |
| `SearchAnswers.MeetsIff` | internal/optimizer/resource_optimizer.go:322-371 | an evaluation meets the constraints iff its figures are stable and within every target that is set |
| `SearchAnswers.AnswerKeepsLimits` | internal/optimizer/resource_optimizer.go:180-316 | every answer is within replicas, GPUs and budget, and says it meets the constraints iff its own figures do |
| `SearchAnswers.AnswerHoldsReplica` | internal/optimizer/resource_optimizer.go:224-265 | the memory of every answer times its GPUs covers weights, cache of all prompt and output tokens, activations and attention |
| `SearchAnswers.NothingEarlier` | internal/optimizer/resource_optimizer.go:195-316 | nothing in the limits that fits and comes before an answer, or anywhere when it is infeasible, has acceptable figures at full compute |
| `SearchAnswers.CacheNeedsFiveGPUs` | internal/optimizer/resource_estimator.go:199-201 | Llama 3 8B, 64 sequences of 601 tokens, default constraints: the weights fit one GPU, the cache makes it five to eight |
| `SpecConstraints.BudgetNeverBinds` | internal/optimizer/resource_optimizer.go:443-461 | with constraints taken from a spec the GPU budget excludes no candidate |
| `SpecConstraints.RequiredBytesShrink` | internal/optimizer/resource_optimizer.go:224-231 | the rounded-up byte requirement does not increase with GPUs |
| `SpecConstraints.SearchFailsOnlyOnMemory` | internal/optimizer/resource_optimizer.go:309-316 | the search errors iff the largest GPU count, hence every one, exceeds the maximum memory |
| `SpecConstraints.InfeasibleSearchEndsAtMaximum` | internal/optimizer/resource_optimizer.go:294-307 | an infeasible search returns (maxReplicas, MaxGPUsPerReplica) |
| `DeviceRequests.ResourceClaimTemplate.UpdateRequests` | internal/scaler/resourceclaim_handler.go:256-308 | only the first match is rewritten, in place, and the flag says whether there was one |
| `DeviceRequests.ResourceClaimTemplate.MatchesDesiredConfig` | internal/scaler/resourceclaim_handler.go:326-377 | true iff the first device of the class exists and agrees on count and any stated compute and memory |
| `DeviceRequests.MatchesIffReads` | internal/scaler/resourceclaim_handler.go:326-377 | where the first match is all that is read, with a positive count, the check passes iff what is read agrees wherever it is stated; with both capacities stated, iff exactly the desired configuration is read |
| `DeviceRequests.ResourceClaimTemplate.CurrentResources` | internal/scaler/resourceclaim_handler.go:59-124 | the values read are those of all devices the walk visits, later ones overriding |
| `DeviceRequests.LaterRequestsRead` | internal/scaler/resourceclaim_handler.go:89-116 | a further matching request overrides what was read, unless a request was matched by its `Exactly` |
| `DeviceRequests.WrittenPassesCheck` | internal/scaler/resourceclaim_handler.go:202-208 | what was written for a whole-number configuration always passes the check |
| `DeviceRequests.WrittenElsewhereUnchanged` | internal/scaler/resourceclaim_handler.go:256-308 | every other request, sub-request and capacity is kept |
| `DeviceRequests.RoundTrip` | internal/scaler/resourceclaim_handler.go:59-124 | reading back a written template returns the desired count, compute and memory |
| `DeviceRequests.RoundTripIff` | internal/scaler/resourceclaim_handler.go:92-116 | that holds for every desired configuration iff the devices visited after the first carry neither count nor capacities |
| `DeviceRequests.SpoiledRoundTrip` | internal/scaler/resourceclaim_handler.go:99-116 | otherwise some configuration is misread, because a sub-request match ends only the inner loop |
| `DeviceRequests.RoundTripWhenUnambiguous` | internal/scaler/resourceclaim_handler.go:92-116 | an `Exactly` first match, or a class met in one request only, suffices |
| `PodClaims.PodTemplate.UpdateResourceClaims` | internal/scaler/resourceclaim_handler.go:505-523 | exactly the references to the old name become the new one; the flag says whether there were any |
| `PodClaims.PodTemplate.RestoreAnyManagedTemplate` | internal/scaler/resourceclaim_handler.go:525-550 | every template-based reference becomes the original; the flag is false iff all were already |
| `PodClaims.PodTemplate.RestoreTemplate` | internal/scaler/resourceclaim_handler.go:638-673 | by the recorded name when there is one, otherwise every template-based reference |
| `PodClaims.PodTemplate.PointAllAt` | internal/controller/resourceclaimautoscaler_controller.go:703-712 | the finalizer points every template-based reference at the original and leaves direct claims |
| `PodClaims.RetargetChain` | internal/scaler/resourceclaim_handler.go:507-523 | repointing in two hops is repointing in one when the middle name was unused |
| `PodClaims.RestoreByNameIff` | internal/scaler/resourceclaim_handler.go:653-654 | restoring by name undoes a repointing iff the name was unused before |
| `PodClaims.RestoreAnyIff` | internal/scaler/resourceclaim_handler.go:655-658 | restoring every template-based reference gives the list back iff all began on the original |
| `TemplateNames.DecimalValue` | internal/scaler/resourceclaim_handler.go:168-172 | a generation string stands for its generation, so different generations have different strings |
| `TemplateNames.Naming.NamesDistinct` | internal/scaler/resourceclaim_handler.go:168-190 | generated names are at most 63 characters, start with at most 54 of the autoscaler's and a dash, and differ between generations |
| `TemplateLifecycle.NameIsFresh` | internal/scaler/resourceclaim_handler.go:161-216 | the current generation's name is not recorded, not the original and not referred to, so delete-and-recreate removes nothing in use |
| `TemplateLifecycle.PatchTouchesOneName` | internal/scaler/resourceclaim_handler.go:128-321 | whichever call fails, every other template is left alone |
| `TemplateLifecycle.PatchReturnsUsable` | internal/scaler/resourceclaim_handler.go:196-320 | a returned name is the current generation's, of an existing template the check accepts |
| `TemplateLifecycle.ResourceChangeSucceedsIff` | internal/scaler/scaler.go:517-554 | exactly when no needed call fails and a template fits or can be written are references and replicas moved, and the name recorded unless that is refused; otherwise only templates change |
| `TemplateLifecycle.StepReplicas` | internal/scaler/scaler.go:682-692 | every step leaves the workload the replicas it is for, or those before, and the generation grows by one exactly when the spec changes |
| `TemplateLifecycle.ReplicasOverRuns` | internal/scaler/scaler.go:526-692 | over every run the workload has the replicas of the last successful replica or resource change, edit or restore |
| `TemplateLifecycle.RemovedIff` | internal/controller/resourceclaimautoscaler_controller.go:378-555 | exactly when a step takes a template away, by labels, names and failures |
| `TemplateLifecycle.CreatedIff` | internal/scaler/resourceclaim_handler.go:218-320 | exactly when a step makes a template, and the requests, labels and owner it then has |
| `TemplateLifecycle.ClaimsStep` | internal/controller/resourceclaimautoscaler_controller.go:378-555 | claims come, go and become bound by their own steps only and keep their labels |
| `TemplateLifecycle.AppliedIsRead` | internal/scaler/resourceclaim_handler.go:59-124 | over every run, without leftover revisions and read by its first match, the recorded template is read as exactly the configuration last applied |
| `TemplateLifecycle.InvStep` | internal/scaler/scaler.go:507-554 | each change, handler and failure but a lost status write keeps the lifecycle invariant; none lowers the generation |
| `TemplateLifecycle.LifecycleRuns` | internal/scaler/scaler.go:507-554 | over every run whose new names get recorded: original intact, managed positions exactly the original's and naming an existing template with the configuration last applied, other positions untouched, next name unused |
| `TemplateLifecycle.UnrecordedIsFrozen` | internal/scaler/scaler.go:537-545 | a failed final status write leaves the references on a name no later change would repoint |
| `TemplateLifecycle.FrozenRuns` | internal/scaler/scaler.go:517-554 | they then stay so over every run, until the finalizer |
| `TemplateLifecycle.OriginalSurvives` | internal/scaler/resourceclaim_handler.go:554-636 | over every run, recorded or not, the original is neither deleted nor changed |
| `TemplateLifecycle.RestoringAfterRuns` | internal/controller/resourceclaimautoscaler_controller.go:680-720 | after any run restoring by recorded name returns the initial references; the finalizer does iff each template-based one was to the original |
| `TemplateLifecycle.CleanupLeaves` | internal/scaler/resourceclaim_handler.go:566-633 | one pass leaves, of the managed templates, exactly the recorded, the claimed and those whose delete failed, and a second pass changes nothing |
| `TemplateLifecycle.CleanupBoundsTemplates` | internal/scaler/resourceclaim_handler.go:615-633 | after a pass whose deletes succeed there is at most one managed template more than claims |
| `TemplateLifecycle.GeneratedClaimsProtect` | internal/scaler/resourceclaim_handler.go:218-254 | the labels a new template hands to its claims are the ones cleanup selects by |
| `TemplateLifecycle.CleanupBeforeRecording` | internal/scaler/scaler.go:530-545 | a cleanup between the workload patch and the status write deletes the template in use iff it has no claim yet and the delete succeeds |
| `ClusterOperator.ClusterOperator.PatchResourceClaimTemplate` | internal/scaler/resourceclaim_handler.go:128-321 | the sequence of calls, early returns and in-place request update yields the specified templates and result for every failure |
| `ClusterOperator.ClusterOperator.PatchPodOwner` | internal/scaler/resourceclaim_handler.go:404-505 | references and replicas are written together or not at all; the generation counts a real change |
| `ClusterOperator.ClusterOperator.ApplyResourceChanges` | internal/scaler/scaler.go:517-554 | is one resource-change step of the lifecycle, for every failing call, the logged status write included |
| `ClusterOperator.ClusterOperator.ApplyReplicaChanges` | internal/scaler/scaler.go:668-703 | is one replica-change step, so references stay |
| `ClusterOperator.ClusterOperator.CleanupOldResourceClaimTemplates` | internal/scaler/resourceclaim_handler.go:554-636 | collecting claimed names and deleting in any listing order yields the specified templates |
| `ClusterOperator.ClusterOperator.OnClaimBound` | internal/controller/resourceclaimautoscaler_controller.go:482-555 | a claim becoming bound is one step, cleaning up only for managed claims of this autoscaler |
| `ClusterOperator.ClusterOperator.OnClaimDeleted` | internal/controller/resourceclaimautoscaler_controller.go:378-442 | a claim deletion is one step, deleting its template unless recorded or original |
| `ClusterOperator.ClusterOperator.CleanupWorkload` | internal/controller/resourceclaimautoscaler_controller.go:667-765 | is one restore step: replicas and references in a single update |
| `ScalingDecision.Decision.Determine` | internal/scaler/scaling_action.go:212-288 | the branches fill action and flags as decided by total compute, then total memory, then the utilization check |
| `ScalingDecision.DecidesExactly` | internal/scaler/scaling_action.go:212-288 | action and both flags of every decision, from the replicas, GPUs, compute and memory of the two configurations |
| `ScalingDecision.CurrentIs` | internal/scaler/scaling_action.go:187-209 | what status and template say is taken as it is, and the rest assumed: one replica, one GPU, 100 percent, 80 GB |
| `ScalingDecision.Decision.CheckMinTargetUtilization` | internal/scaler/scaling_action.go:88-166 | blocks iff there is traffic and some positive target is met, over all keys in any order |
| `ScalingDecision.UpsOnlyGrow` | internal/scaler/scaling_action.go:226-288 | a chain of scale-ups grows in (compute, memory) all along and never returns to an earlier configuration |
| `ScalingDecision.DownsOnlyShrink` | internal/scaler/scaling_action.go:226-288 | a chain of scale-downs shrinks all along |
| `ScalingDecision.SettledIsNoAction` | internal/scaler/scaling_action.go:226-232 | a configuration equal to the desired one needs nothing |
| `ScalingDecision.RatioTargetBlocksEveryScaleDown` | internal/scaler/scaling_action.go:54-86 | a compute target in (0, 1] blocks every scale-down under traffic |
| `ScalingLimit.ApplySingleTimeScalingLimit` | internal/scaler/scaling_action.go:295-367 | overwrites the desired replicas and GPUs with the capped ones and nothing else |
| `ScalingLimit.Uncapped` | internal/scaler/scaling_action.go:310-325 | without a limit or within it nothing is capped, and compute and memory never are |
| `ScalingLimit.CappedUp` | internal/scaler/scaling_action.go:315-352 | a capped step up lands in [current+L, current+L+g) and never passes the desired total |
| `ScalingLimit.CappedUpExactly` | internal/scaler/scaling_action.go:325-352 | below one desired replica a capped step lands on exactly current+L GPUs in one replica; otherwise on the fewest desired replicas reaching current+L, so only rounding up goes beyond the limit |
| `ScalingLimit.UpReachesDesired` | internal/scaler/scaling_action.go:315-352 | once n*L covers the gap, n steps reach the desired configuration exactly |
| `ScalingLimit.CappedDown` | internal/scaler/scaling_action.go:315-352 | a capped step down lands at the least multiple of g at or above current-L, not below the desired total |
| `ScalingLimit.CappedDownLowersIff` | internal/scaler/scaling_action.go:330-347 | it lowers the total iff rounding up overshoots by less than the limit |
| `ScalingLimit.ScaleDownThatGrows` | internal/scaler/scaling_action.go:330-347 | a decision to scale down can add GPUs: ten asked down to eight become sixteen |
| `ScalingLimit.CappedDownStuckIff` | internal/scaler/scaling_action.go:330-347 | with matching GPUs per replica a capped step changes nothing iff L is below them |
| `ScalingLimit.DownReachesDesired` | internal/scaler/scaling_action.go:315-352 | with L >= g, n steps reach exactly the desired configuration once n*(L-g+1) covers the gap |
| `ScalingLimit.DownArrivesIff` | internal/scaler/scaling_action.go:315-352 | from any configuration more than L above the desired total, iterated capped steps reach the desired configuration iff L >= g |
| `ScalingLimit.CapKeepsMatchingGPUs` | internal/scaler/scaling_action.go:330-352 | flags computed before the cap stay right for replica-only changes |
| `DecisionLoop.Job.AtMostTwoWrites` | internal/scaler/scaler.go:507-554 | over every run, whichever rounds are skipped, blocked or fail, at most two workload writes and one for each lost final status write, unless the template is unsettling: read, once written, as something a round rewrites |
| `DecisionLoop.Job.WritesForever` | internal/scaler/scaler.go:507-554 | on a written unsettling template every timely round writes the workload again, for ever, if traffic does not block a scale-down |
| `DecisionLoop.Job.TwoWritesIff` | internal/scaler/scaler.go:507-554 | for every template, as it is and as written, the bound holds over every run iff the template is not unsettling |
| `DecisionLoop.Job.UnsettlingIff` | internal/scaler/resourceclaim_handler.go:265-299 | where the first match is all that is read, a template is unsettling iff replicas are wanted and the conversion to int64 drops more than 0.01 of the compute, and the next decision is no action iff what it drops adds up to at most 0.01 over all GPUs |
| `DecisionLoop.Job.ResourceWriteSettlesIff` | internal/scaler/scaler.go:507-554 | so after a recorded resource write the next round decides nothing iff the sum is at most 0.01, and writes again iff it is timely and one GPU loses more |
| `DecisionLoop.Job.WholeComputeSettles` | internal/scaler/scaler.go:507-554 | with whole-number compute the template reads as desired and the next decision is no action, whatever the traffic |
| `DecisionLoop.Job.RoundWritesTarget` | internal/scaler/scaler.go:412-420 | with or without a limit, status and workload get the limited replicas, and a recorded resource write is read back as the limited configuration |
| `DecisionLoop.Job.ComputeKeptIff` | internal/scaler/scaler.go:507-554 | the bound on writes holds over every run on all such templates iff at most 0.01 of the compute is dropped |
| `SearchedCompute.AnswerIsValid` | internal/scaler/scaling_action.go:179-184 | what the search answers is whole bytes, non-negative compute and at least one replica and GPU, as the results on the loop ask |
| `SearchedCompute.AnswerFraction` | internal/optimizer/resource_optimizer.go:276-283 | with a whole-number step every answer has the fraction of the maximum compute |
| `SearchedCompute.WholeStepSettlesIff` | internal/optimizer/resource_optimizer.go:463-476 | so for validated inputs with such a step the bound on writes holds for every answer iff the maximum compute has a fraction of at most 0.01 |
| `SearchedCompute.HalfPercentWritesForever` | internal/optimizer/resource_optimizer.go:463-476 | Llama 3 8B on an H200 with a maximum of 99.5 percent: the search answers, and each answer, once applied, is written in every timely round |
| `DecisionLoop.Job.RecordedIsWrittenIff` | internal/scaler/scaling_action.go:226-272 | with the replicas recorded, some round can still write the workload iff a request matches the class, totals are not equivalent, and the resources per replica differ: memory alone when GPUs times compute agree |
| `DecisionLoop.Job.FailedReplicaPatchArrivesIff` | internal/scaler/scaler.go:412-420 | after a replica patch that failed, some run gives the workload the desired replicas iff, with the desired replicas recorded, the totals are not equivalent, the resources per replica differ as above and a request matches the class; otherwise no run changes them again |
| `DecisionLoop.Job.RoundIsLimitedStep` | internal/scaler/scaling_action.go:285-288 | deciding, capping and applying is one limited step when only replicas differ; the utilization check matters downwards only |
| `DecisionLoop.Job.LimitedScaleUpArrives` | internal/scaler/scaling_action.go:315-352 | capped rounds reach the desired replicas once rounds times limit covers the gap, whatever the traffic |
| `DecisionLoop.Job.LimitedScaleDownArrives` | internal/scaler/scaling_action.go:315-352 | capped unblocked rounds reach them once rounds times L-g+1 covers the gap |
| `DecisionLoop.Job.LimitedScaleDownArrivesIff` | internal/scaler/scaling_action.go:315-352 | a scale-down by more than the limit arrives in the end iff the limit covers one replica's GPUs |
| `DecisionLoop.StatusOnlyIff` | internal/scaler/scaling_action.go:218-272 | exactly when a decision acts with neither flag set, in terms of the two configurations |
| `DecisionLoop.Job.StatusOnlyRecurs` | internal/scaler/scaler.go:412-420 | such a round with the replicas recorded leaves everything as it was and acts again, for every number of rounds |
| `DecisionLoop.WholePercentagesNeverStatusOnly` | internal/scaler/scaling_action.go:218-272 | whole percentages on both sides and at least 1 GB exclude it |
| `GracePeriod.StoredKeepsGrace` | internal/scaler/scaler.go:427-449 | storing whole seconds keeps a grace period counted in seconds |
| `GracePeriod.StepKeepsInv` | internal/scaler/scaler.go:396-420 | each step of any evaluator, the clock or another writer keeps the protocol invariant |
| `GracePeriod.CommitsKeepGracePeriods` | internal/scaler/scaler.go:396-420 | in every interleaving any two committed LastApplyTimes are the later action's grace period apart |
| `GracePeriod.FirstCommitKeepsGracePeriod` | internal/scaler/scaler.go:427-445 | the first commit also respects the LastApplyTime the run began with |
| `GracePeriod.PatchesFollowTheirCommit` | internal/scaler/scaler.go:413-420 | every workload patch follows its own evaluator's accepted status write, once |
| `ScalingRounds.Round.CheckGracePeriod` | internal/scaler/scaler.go:427-445 | on the round's copy, scaling up waits iff less than its own grace period has passed, scaling down iff less than its own |
| `ScalingRounds.Round.WriteScalingStatus` | internal/scaler/scaler.go:413-415 | stores the copy iff no other write came first, refreshes it from the answer, and is one status-write step |
| `ScalingRounds.Round.ExecuteScalingChanges` | internal/scaler/scaler.go:507-514 | writes resources and replicas, replicas only, or nothing as the flags say, after the status write |
| `ScalingRounds.Round.RecordTemplate` | internal/scaler/scaler.go:537-545 | the template name goes into a further version unless refused, LastApplyTime unchanged |
| `ScalingRounds.Round.ApplyScalingAction` | internal/scaler/scaler.go:290-424 | undisturbed: commits iff there is an action and LastApplyTime is unset or its direction's grace period ago; then replicas and resources as the flags say, otherwise nothing |
| `MonitorModel.SafeStep` | internal/monitor/service_monitor.go:142-462 | every call, firing and loop step keeps the channel, timer and map discipline |
| `MonitorModel.RunSafe` | internal/monitor/service_monitor.go:142-462 | so does every run |
| `MonitorModel.RunLive` | internal/monitor/service_monitor.go:282-333 | over every run with a live parent context, a registered event has an armed timer, a buffered trigger or a busy loop iff it is not stalled |
| `MonitorModel.MonitorRuns` | internal/monitor/service_monitor.go:142-462 | from the empty monitor: no double close or send on closed, open iff registered, one timer per event, at most one late collection, asleep iff stalled, and no stall with non-nil specs |
| `MonitorModel.RegistryOverRuns` | internal/monitor/service_monitor.go:142-462 | over every run a name is registered iff it was registered since the last stop or unregistering, with the spec given for it last |
| `MonitorModel.StopEndsAll` | internal/monitor/service_monitor.go:156-186 | stopping leaves nothing registered or armed, every channel closed and every loop told to end |
| `MonitorModel.ReplacedEnds` | internal/monitor/service_monitor.go:206-222 | an event replaced by a later registration of its name is closed, disarmed and told to end |
| `MonitorModel.ParentEndsAll` | internal/monitor/service_monitor.go:142-153 | a cancelled parent context tells every loop to end and every timer that it may stay silent |
| `MonitorModel.DoneEnds` | internal/monitor/service_monitor.go:328-331 | a waiting loop told to end ends |
| `MonitorModel.LeftEnds` | internal/monitor/service_monitor.go:282-333 | the loop of an event that left the map ends by its own next steps |
| `MonitorModel.FireDelivers` | internal/monitor/service_monitor.go:250-266 | a firing takes its timer away and, unless it gives way to a cancelled context, leaves one trigger with the cached spec |
| `MonitorModel.RearmReplaces` | internal/monitor/service_monitor.go:358-411 | re-arming replaces the timer of the event now registered under the name |
| `MonitorModel.WakesIff` | internal/monitor/service_monitor.go:358-411 | a stalled event wakes iff it is registered and a call or a finishing loop re-arms its name |
| `MonitorModel.StallLasts` | internal/monitor/service_monitor.go:297-301 | so it sleeps through every run that never re-arms its name |
| `MonitorModel.NonNilSpecsNeverStall` | internal/monitor/service_monitor.go:297-301 | runs that cache only non-nil specs stall no event |
| `MonitorModel.NilSpecStalls` | internal/monitor/service_monitor.go:297-301 | one nil spec is enough to stall a registered event |
| `ServiceMonitor.ServiceMonitor.Start` | internal/monitor/service_monitor.go:142-153 | fails iff already started; otherwise one start step |
| `ServiceMonitor.ServiceMonitor.Stop` | internal/monitor/service_monitor.go:156-186 | retiring the events in any map order is one stop step, leaving no timer |
| `ServiceMonitor.ServiceMonitor.RegisterWithCollector` | internal/monitor/service_monitor.go:201-279 | retires an event of the same name first and is one register step |
| `ServiceMonitor.KeysDistinct` | internal/monitor/service_monitor.go:193-205 | different names or namespaces have different keys |
| `ServiceMonitor.ServiceMonitor.UpdateTriggerTime` | internal/monitor/service_monitor.go:358-411 | re-arms whatever the name is registered to now; fails iff it is not |
| `ServiceMonitor.ServiceMonitor.Unregister` | internal/monitor/service_monitor.go:434-462 | stops the timer, closes the channel and forgets the name; fails iff there is none |
| `ServiceMonitor.ServiceMonitor.OnTimer` | internal/monitor/service_monitor.go:250-266 | a firing returns, sends, or skips a full channel |
| `ServiceMonitor.ServiceMonitor.OnTrigger` | internal/monitor/service_monitor.go:288-316 | a received trigger starts a collection unless its spec is nil; OnChannelClosed, OnContextDone and UpdateCachedSpec are tied to their steps alike |
| `ServiceMonitor.ServiceMonitor.OnCollected` | internal/monitor/service_monitor.go:320-326 | the loop re-arms by name, possibly a later registration, and waits again |

## Left out

Assumptions

- Floating-point rounding, NaN, int32 and int64 overflow: exact reals and integers, +Inf only where the wait formula divides by zero. A zero service time, an infinite service rate in the source, is zero load.
- `math.Pow(promptLen/8192, 1.3)` in the attention memory is a non-negative parameter; `math.Pow` in `erlangC` has integer exponents.
- Estimator fields, arrival rate and service time are non-negative, the compute and memory steps positive, and in `SearchedCompute` the maximum compute non-negative (the source loops for ever on a zero compute step).
- The eight hex characters of SHA-256 separate the revisions a run uses, and no revision is named like the original template.
- One autoscaler per original template, whose references the workload holds when discovered; nobody else deletes templates or edits the references.
- `applyResourceChanges` is one step; `TemplateLifecycle.CleanupBeforeRecording` says what a cleanup in between would do. No evaluation is in flight once the finalizer has restored the workload.
- API objects change only by version-checked updates, and the generation grows exactly when a workload's spec changes.
- A timer firing is atomic: a callback that runs while its channel is being closed is ordered before or after the close.
- `RegisterWithCollector` is called after `Start`, as its interface demands; before it the source panics on a nil context.

Not modelled

- Estimator tuning (`tune*`), the latency-offset feedback, and model and GPU name lookup: the estimator fields and the offsets are inputs.
- Prometheus queries, metric parsing, discovery, defaults, conditions text, logging, `RCAControllerConfig`, the benchmark tool.
- `EvaluateAndScale` around the modelled parts, and the choice of targets and of the grace period from the spec: they are inputs.
- Ready and available replica counts in the status.
- Goroutines, mutexes and real time: each call between two interleaving points is one atomic step, and interleavings and repeated rounds are runs of state machines on values.
- Unsupported owner kinds, for which the source only logs or returns an error.

Stated one way or more weakly than one might wish

- SearchOptimality.SearchIsBruteForce: optimal in the search's own order of replicas, then GPUs, then compute; for total GPUs see `FewestGPUs.FewestIff`.
- FewestGPUs.FewestByLoad: one way only when there is an end-to-end target, because more replicas can then fail where fewer pass.
- MonitorModel.RunLive: does not say when a trigger comes, because time is not modelled.
- DecisionLoop.Job.TwoWritesIff: without a step limit, and for a template that can be read; a round that writes only the status may recur.
- DecisionLoop.Job.LimitedScaleUpArrives: under a step limit only replicas differ from the desired configuration, of at least one percent compute; for changes of GPUs per replica see `ScalingLimit.CappedUp` and, for steps down, `ScalingLimit.DownArrivesIff`.
- TemplateLifecycle.LifecycleRuns: assumes the final status write of each resource change succeeds; `TemplateLifecycle.UnrecordedIsFrozen` says what holds when it does not.
