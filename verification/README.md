# CloudWard, modelled and proved in Dafny

CloudWard is a control plane that reacts to incidents in a Kubernetes platform. It detects, proposes, asks
a policy engine and a human, acts once, verifies, and undoes. Its value lies in bounded, ordered steps that
happen at most once. This project models those steps and proves what they promise over every run, for every
behaviour of the cluster, the policy engine, the clock and, between transactions, the database's other users.

Run `dafny verify dfyconfig.toml` to check all of it.

## Layout

| module | models |
|---|---|
| `Results` | optional values, error codes, results |
| `IncidentStates`, `Incidents` | the state machine; incident rows, their event log and the active gauge |
| `IncidentSessions` | the same under sessions that hold a state read earlier, and under rollbacks |
| `RemediationJournal` | what a retry run waits for, stores and comes to, read off what the outside answered |
| `UnhealthyPodPipeline` | the retry run with its committed and working copy of the rows, while others change the incident |
| `Remediation`, `RemediationRuns` | approvals, execution claims, scaling and replica rollback; every interleaving of them |
| `Quantiles`, `Rightsizing`, `Advice` | sample quantiles, the rightsizing engine, and the engine told from its samples alone |
| `GitOpsValues` | Kubernetes quantities and the values patch |
| `Forwarder`, `ForwarderDelivery` | the node forwarder of security events; exactly which events it delivers |
| `RateLimit` | the fixed-window request limiter |
| `EventStream` | the resumable event stream |
| `DiagnosisRouting`, `DiagnosisBudget` | the model router; the call budget and circuit breaker |
| `Alerts` | alert grouping and incident creation |
| `ClusterAgent` | reports of the in-cluster agent |
| `Quarantine`, `QuarantineService` | the quarantine calls on the cluster; containment of a security event |
| `ScenarioLab`, `ScenarioContainment` | scenario executions: reconciling, stopping, FinOps jobs; a security scenario together with its containment |

Each imperative component is a class whose methods are proved equal to a step function on values; the
lemmas about runs are about those step functions. For each main operation a lemma says, on inputs and rows
and without the step function's parts, exactly what the operation comes to. Clocks, randomness, Kubernetes, OPA, the model provider,
Redis failures and the verifier are parameters: a theorem holds for all they may answer, raising included.
Digests and idempotency keys are the tuples they are computed from, so they are injective.

## Where the code does less than one might expect

Each of these is proved, with the exact condition under which the expected behaviour holds.

- The active-incident gauge is wrong by exactly the number of forced changes that left a terminal state (`Incidents.EveryRun`), and by the changes that were written over an ended incident or rolled back (`IncidentSessions.EverySession`).
- A session that took an incident to be in a state it has left writes over the state it does not know, and breaks the incident's event log; the log leads to the incident's state exactly when nobody has (`IncidentSessions.EverySession`). That is also how an unforced change can leave a terminal state (`IncidentSessions.UnforcedLeavesTerminal`).
- The pipeline keeps no lock between its commits, so a state an operator gives the incident meanwhile is overwritten by the next one. Only its error handler reads again: if it finds the incident RESOLVED by somebody else, the run ends RESOLVED without a successful verification, and in no other case (`UnhealthyPodPipeline.Pipeline.Run`).
- A retry that policy denies is rolled back with its decision: the denial is never stored (`UnhealthyPodPipeline.Pipeline.Run`).
- A pending approval cannot be refused any more once its incident executes, verifies, rolls back, is resolved or is escalated (`RemediationRuns.RefusingWorksExactlyWhileBlockable`).
- Scaling up from zero, or from above the maximum, cannot be rolled back; in the second case it scales down (`RemediationRuns.ScaleThenRollback`).
- A cut can be so small that the same values patch applies twice: under exactly the settings whose least cut of the least CPU request is a millicore at most (`GitOpsValues.PatchesOnceExactlyWhenVisible`, `GitOpsValues.TinyCutPatchesTwice`), and for one recommendation exactly as `GitOpsValues.SecondPatch` says. The default settings rule it out (`GitOpsValues.DefaultPolicyPatchesOnce`).
- The forwarder never drops a repeated event: each event carries its position in the run, so no two fingerprints of a run are equal. `docs/security/runtime-security.md` says it deduplicates; the code is followed (`Forwarder.SecurityForwarder.Run`).
- The fixed-window limiter lets twice its limit through within half a second (`RateLimit.TwiceTheLimitIsReached`). Exactly the intervals that begin with a window are safe (`RateLimit.LimitedExactlyWhenAligned`), and exactly as long as Redis serves within a second (`RateLimit.WindowSurvivesOneSecond`). Counted by the time of service it is three times the limit at most (`RateLimit.ServedIsLimited`).
- An approval can be stored with a decision time after its expiry: the expiry is checked against one reading of the clock and the decision stamped with a later one (`RemediationRuns.GrantedWhileUnexpired`, `RemediationRuns.StampMayBeLate`, `RemediationRuns.LateStampIsReached`).
- A replica rollback that fails after its patch leaves the count restored without a row, and exactly if it changed the count the next rollback of that execution is refused as stale (`RemediationRuns.LostRollbackIsStale`).
- A row that becomes visible after a reader has gone past its id is never streamed (`EventStream.ReceivedExactlyWhenVisible`).
- A firing alert that repeats its last payload after its incident ended raises no incident (`Alerts.FiringLeavesOpenIncident`).
- A key can have two open incidents, but only after a forced change has reopened a superseded one; `Alerts.SecondOpenIncident` says which steps do it (`Alerts.OnlyLinkedAllAlong`, `Alerts.ReopeningMakesTwo`).
- A rejected quarantine erases an earlier quarantine label, a conflicting one leaves its own behind, and a removal clears whichever label it finds (`Quarantine.RejectedApplyRestores`, `Quarantine.ConflictLeavesLabel`, `Quarantine.RemovalReleasesOthers`).
- Once an incident has used its third attempt its quarantine can never be lifted (`QuarantineService.SpentIncidentKeepsQuarantine`); some run lifts it exactly while it has not (`QuarantineService.RemovableExactlyWhileAttemptsRemain`), and one removal succeeds exactly under the conditions of `QuarantineService.RemovedExactlyWhenVerified`.
- The quarantine service commits in the middle of its caller's transaction, so a scenario execution that an operator has cancelled can afterwards become SUCCEEDED (`ScenarioLab.StopIsOvertaken`). A terminal status is final in every run exactly when no call in flight is going to write another one (`ScenarioLab.FinalExactlyWhenAgreed`).

## Model

| member | source | states |
|---|---|---|
| `IncidentStates.StagesNeverFall` | backend/app/incidents/state_machine.py:26-95 | unforced changes never move an incident back to an earlier stage of its life |
| `IncidentStates.ResolutionPassesEveryGate` | backend/app/incidents/state_machine.py:26-84 | an incident that resolves unforced was proposed an action, evaluated by policy and executed, in that order, and was in no terminal state before |
| `Incidents.EveryRun` | backend/app/incidents/service.py:32-267 | after any requests, forced ones included, replaying the log gives every incident's state, each event continuing the one before; the gauge misses the open incidents by exactly the changes that left a terminal state, so it is exact if and only if there were none |
| `Incidents.ForcedChangeFromTerminalMissesGauge` | backend/app/incidents/service.py:237-294 | a forced change out of a terminal state lowers the gauge although nothing closed, or reopens without raising it |
| `Incidents.TerminalIsAbsorbing` | backend/app/incidents/service.py:90-121 | creations and unforced changes never alter an incident that has ended |
| `Incidents.ResolvedIsDated` | backend/app/incidents/service.py:90-132 | in every run an incident has a time of resolution exactly if its log says that it was resolved |
| `Incidents.IncidentService.constructor` | backend/app/incidents/service.py:32-56 | the empty store satisfies the log and gauge laws |
| `Incidents.IncidentService.CreateIncident` | backend/app/incidents/service.py:32-87 | adds one open incident with its event and gauge step, and keeps the log and gauge laws |
| `Incidents.IncidentService.ChangeIncidentState` | backend/app/incidents/service.py:90-200 | succeeds exactly when forced, already there or allowed; changes that row alone; keeps the laws; an error changes nothing |
| `Incidents.IncidentService.ResolveIncident` | backend/app/incidents/service.py:213-234 | always ends RESOLVED, keeping the laws |
| `Incidents.IncidentService.UpdateIncident` | backend/app/incidents/service.py:237-294 | ends in the requested state whatever it was before, keeping the laws |
| `IncidentSessions.EverySession` | backend/app/incidents/service.py:90-200 | whatever sessions write with whatever state they took the incident to be in, and whatever is rolled back: the log leads to the incident's state if and only if no session wrote over a state it did not know, and is broken for good otherwise; the gauge is off by exactly the changes written over an ended incident and the gauge steps of what was rolled back |
| `IncidentSessions.FreshSessions` | backend/app/incidents/service.py:32-267 | the runs in which every request reads the row it changes overwrite nothing |
| `IncidentSessions.UnforcedLeavesTerminal` | backend/app/incidents/service.py:101-106 | an unforced change alters an ended incident exactly when its session took it to be in a state from which another target is allowed |
| `IncidentSessions.EndedStaysUnlessOverwritten` | backend/app/incidents/service.py:90-121 | without forced changes an ended incident never changes unless a session writes over a state it does not know |
| `UnhealthyPodPipeline.Pipeline.Run` | backend/app/remediation/pipeline.py:83-136 | every run, whatever raises and whoever changes the incident between its commits, takes its journal to an end with the world's answers, and leaves the rows that belong to it, escalated if an error reached the handler; it ends in RESOLVED, BLOCKED, ESCALATED or AWAITING_APPROVAL; RESOLVED without a successful verification exactly when the error handler found the incident RESOLVED; the stored changes continue one another exactly when no write of the run went over a state it did not know, and always when nobody else writes |
| `UnhealthyPodPipeline.Pipeline.Handle` | backend/app/remediation/pipeline.py:104-136 | the handler leaves a state that ends the incident, which somebody else wrote, and escalates every other one with the error's code |
| `UnhealthyPodPipeline.Pipeline.Commit` | backend/app/db/session.py:22-22 | a commit writes the session's states over whatever state the incident is in, and overwrites exactly when that is not the one the session knows |
| `UnhealthyPodPipeline.WriteStepsKeep` | backend/app/incidents/service.py:101-132 | the stored log leads to the stored state after such a commit exactly when nothing was overwritten |
| `UnhealthyPodPipeline.Pipeline.Process` | backend/app/remediation/pipeline.py:138-554 | the body of a run takes the journal to an end or to an error, with exactly the rows committed that belong to it |
| `UnhealthyPodPipeline.Pipeline.Remediate` | backend/app/remediation/pipeline.py:381-554 | the retry loop, one attempt after the other as the journal demands them, to an end or to an error |
| `UnhealthyPodPipeline.Pipeline.Execute` | backend/app/remediation/pipeline.py:381-424 | an attempt with a target deletes it and is committed as VERIFYING with a SUCCEEDED execution of that pod; only one without a target is stored FAILED; one that raises leaves the rows of the attempts before |
| `UnhealthyPodPipeline.Pipeline.NextTarget` | backend/app/remediation/pipeline.py:487-525 | the next target is the single unhealthy pod, if policy allows it; with none or several there is no target; a denial is an error |
| `UnhealthyPodPipeline.Pipeline.PrepareRetry` | backend/app/remediation/pipeline.py:487-525 | the next attempt is ready, its decision committed, or an error leaves the rows of the attempts so far |
| `UnhealthyPodPipeline.Pipeline.Propose` | backend/app/remediation/pipeline.py:138-293 | up to the policy evaluation only evidence is committed, and what is held back is classification, runbook and proposal for the selected pod |
| `RemediationJournal.AllowedIsDeleted` | backend/app/remediation/pipeline.py:381-424 | when no error ended a run, each decision that allowed a pod is directly followed by the request to delete that pod, its acceptance and a verification, so requests, acceptances and allowing decisions are equal in number |
| `RemediationJournal.EndIsRead` | backend/app/remediation/pipeline.py:138-554 | exactly when a run is over and what it came to: by its last event, the number of verifications, and the pods and runbook seen |
| `RemediationJournal.OrderlyFits` | backend/app/remediation/pipeline.py:138-554 | at every point of a run the executions stored are the accepted deletions and the attempts without a target, in order, each decision is about the only candidate of the pods last seen, and attempts, verifications and decisions stay in step |
| `RemediationJournal.OrderlyWalks` | backend/app/remediation/pipeline.py:138-554 | the states a run gives its incident are entered by allowed transitions only |
| `RemediationJournal.TriesSucceeded` | backend/app/remediation/pipeline.py:381-424 | the SUCCEEDED executions name exactly the accepted deletions |
| `RemediationJournal.RanIntoError` | backend/app/remediation/pipeline.py:104-136 | what an error leaves, for every state the handler may find the incident in |
| `RemediationJournal.DeletionsHaveOwnDecisions` | backend/app/remediation/pipeline.py:381-525 | there are at least as many decisions as requested deletions, and one more while a decision waits to be used |
| `RemediationJournal.SelectedIsTheOnlyCandidate` | backend/app/remediation/pipeline.py:557-568 | the selected pod is the one unhealthy pod, of the requested name if one was given |
| `Remediation.RemediationStore.EnsureRuntimeApproval` | backend/app/approvals/service.py:72-134 | the first request stores the context it was made in; later ones change nothing |
| `Remediation.RemediationStore.DecideApproval` | backend/app/approvals/service.py:150-242 | a decision moves approval, proposal and incident together, or raises and changes nothing |
| `Remediation.RemediationStore.RefuseApproval` | backend/app/approvals/service.py:178-193 | a refusal closes approval and proposal and blocks the incident, or changes nothing |
| `Remediation.RemediationStore.InvalidateApproval` | backend/app/approvals/service.py:389-397 | a stale approval ends expired or invalidated by the second reading of the clock |
| `Remediation.RemediationStore.ClaimActionExecution` | backend/app/remediation/execution.py:52-138 | claims, reports an existing claim, or raises without a trace |
| `Remediation.RemediationStore.ScaleStagingDeployment` | backend/app/kubernetes/executor.py:376-442 | patches the replica count only within bounds and, when an expected count is given, only over that count |
| `Remediation.RemediationStore.ProcessScaleUp` | backend/app/reliability/workflow.py:354-391 | claim and bounded scale as one transaction that records previous and requested count; a failure after the patch undoes the rows and not the patch |
| `Remediation.RemediationStore.RollbackScaleExecution` | backend/app/remediation/execution.py:223-309 | rolls back by compare-and-set and marks the execution, or changes no row, and the cluster only if the failure came after the patch |
| `RemediationRuns.EveryRunKeeps` | backend/app/approvals/service.py:72-316 | in every interleaving the approvals, claims, attempts, keys and rollback links stay consistent |
| `RemediationRuns.DecisionWrites` | backend/app/approvals/service.py:150-242 | a pending approval is approved if and only if it is to be, by an entitled role at a risk below 70, and everything still is as asked; the rows after approval, refusal and staleness, with their verdict, proposal status and incident state; and exactly when granting raises |
| `RemediationRuns.RequestComesTo` | backend/app/approvals/service.py:72-134 | the first request binds the approval to the proposal as it is and to the time to live; later ones change nothing |
| `RemediationRuns.ClaimComesTo` | backend/app/remediation/execution.py:52-138 | exactly when a claim is made, reported or refused, and the execution and approval it writes |
| `RemediationRuns.ScaleUpComesTo` | backend/app/reliability/workflow.py:354-391 | exactly when a claimed scale-up succeeds, and that it asks for one replica more as far as the bound allows |
| `RemediationRuns.RollbackComesTo` | backend/app/remediation/execution.py:223-309 | exactly when an execution can be rolled back |
| `RemediationRuns.ApprovedExecutesOnce` | backend/app/remediation/execution.py:52-138 | an approved decision was by a role entitled to the action, at risk below 70; its proposal has at most one execution that is not a rollback, ever |
| `RemediationRuns.GrantedWhileUnexpired` | backend/app/approvals/service.py:211-255 | every approval of a run goes back to one decision whose staleness check read the clock before the expiry; the time stored is a later reading, and precedes the expiry exactly when that reading does |
| `RemediationRuns.StampMayBeLate` | backend/app/approvals/service.py:211-232 | however long the answers take the approval is granted, and past the expiry it is stamped late |
| `RemediationRuns.LateStampIsReached` | backend/app/approvals/service.py:211-232 | from an empty store, a request and a decision whose answers outlast the approval store it as approved after its expiry |
| `RemediationRuns.DecisionsAreFinal` | backend/app/approvals/service.py:150-242 | a decision that left PENDING is frozen but for its claim, which is set once |
| `RemediationRuns.ExecutionNeedsApproval` | backend/app/remediation/execution.py:52-138 | no step starts an execution of a proposal whose approval is pending, rejected, expired, invalidated or claimed |
| `RemediationRuns.ApprovingMeansUnchanged` | backend/app/approvals/service.py:244-387 | approving implies that action, risk and parameters are those of the request, nothing ran for the proposal, and a recorded replica count is live |
| `RemediationRuns.RefusingWorksExactlyWhileBlockable` | backend/app/approvals/service.py:150-242 | refusing succeeds exactly while the incident may still be blocked, else the approval stays pending |
| `RemediationRuns.AtMostThreePerIncident` | backend/app/db/models.py:334-341 | claims and rollbacks on one incident never exceed three |
| `RemediationRuns.RolledBackAtMostOnce` | backend/app/remediation/execution.py:223-309 | at most one rollback per execution, which is marked exactly when one exists |
| `RemediationRuns.RollbackIsCompareAndSet` | backend/app/kubernetes/executor.py:393-442 | after any disturbance a rollback writes the previous count only over the count the action asked for, also when it fails after that write |
| `RemediationRuns.LostRollbackIsStale` | backend/app/remediation/execution.py:223-309 | a rollback that failed after its write is refused as stale when repeated, exactly if it changed the count |
| `RemediationRuns.ScaleThenRollback` | backend/app/reliability/workflow.py:373-391 | undisturbed scale and rollback are the identity exactly when the previous count lay between 1 and the maximum |
| `Quantiles.QuantileIgnoresOrder` | backend/app/finops/engine.py:38-47 | quantiles do not depend on the order of the samples |
| `Quantiles.QuantileMonotone` | backend/app/finops/engine.py:38-47 | raising samples never lowers an interpolated quantile |
| `Quantiles.QuantileRises` | backend/app/finops/engine.py:38-47 | quantiles rise with the fraction and lie between the least and greatest usable sample |
| `Quantiles.PercentilesOrdered` | backend/app/finops/engine.py:50-55 | p50, p95 and p99 are ordered |
| `Quantiles.SortMonotone` | backend/app/finops/engine.py:38-47 | order statistics of a raised series are each at least those of the original |
| `Quantiles.AscendingIsUnique` | backend/app/finops/engine.py:38-47 | a multiset has one ascending arrangement |
| `Rightsizing.RaisingUsageNeverLowersAdvice` | backend/app/finops/engine.py:77-236 | with usage raised everywhere, the effective CPU and memory requests, after headroom, rounding, cap and cut-off, are at least as high |
| `Rightsizing.EveryRecommendationIsSafe` | backend/app/finops/engine.py:96-236 | each request stays or is cut by at least the minimum fraction to a value covering p95 with headroom and the floor; one is cut; savings, confidence and risk are in range, so the clamp at 100 never applies |
| `Advice.AdviceFromSamples` | backend/app/finops/engine.py:38-236 | from the samples alone: the window it needs; per resource the fewest units that cover the interpolated 95th percentile times its headroom, or the floor, if that is a large enough cut, else the current request; a recommendation exactly if one is cut; reductions, confidence, risk and savings |
| `Advice.PercentilesFromSamples` | backend/app/finops/engine.py:38-55 | each percentile is the interpolation between neighbours of the ascending usable samples |
| `Rightsizing.AdvisedBounds` | backend/app/finops/engine.py:98-120 | the advised request is the current one, or the need, and then a large enough cut |
| `Rightsizing.AdvisedMonotone` | backend/app/finops/engine.py:98-120 | the cut-off, which jumps, still never lowers the advice when the need rises |
| `Rightsizing.SavingsBounds` | backend/app/finops/engine.py:148-157 | savings exist exactly when both costs do and lie between zero and their rounded sum |
| `Rightsizing.ConfidenceBounds` | backend/app/finops/engine.py:133-137 | rounded confidence stays within 0 and 0.99 |
| `Rightsizing.RiskBounds` | backend/app/finops/engine.py:138-147 | the risk before clamping lies in 10 to 90 |
| `GitOpsValues.CpuRoundTrip` | backend/app/finops/service.py:429-449 | a printed CPU request reads back at least the original and less than 1m above, exact if and only if whole millicores |
| `GitOpsValues.MemoryRoundTrip` | backend/app/finops/service.py:452-465 | the same for memory in mebibytes |
| `GitOpsValues.DecimalRoundTrip` | backend/app/finops/service.py:436-465 | printed whole numbers are read back exactly |
| `GitOpsValues.CpuFractionReads` | backend/app/finops/service.py:429-449 | a decimal fraction of CPU is read as what its digits are worth |
| `GitOpsValues.MemoryUnitsRead` | backend/app/finops/service.py:452-465 | a memory quantity in Ki, Mi or Gi is its number times its unit, to the nearest byte |
| `GitOpsValues.WholeUnitsRead` | backend/app/finops/service.py:452-465 | a whole number of Ki, Mi or Gi is read exactly |
| `GitOpsValues.PatchChangesOnlyTheRequests` | backend/app/finops/service.py:320-382 | a successful patch writes the two quantities; every other path finds what it found, and none appears or disappears |
| `GitOpsValues.SecondPatch` | backend/app/finops/service.py:320-382 | the same patch applies again if and only if the written values are within tolerance of the observed ones, else it is stale |
| `GitOpsValues.PatchesOnceExactlyWhenVisible` | backend/app/finops/service.py:320-382 | no recommendation of a policy has a patch that applies twice, if and only if the least cut of the least CPU request exceeds a millicore |
| `GitOpsValues.InvisibleCutPatchesTwice` | backend/app/finops/service.py:355-375 | under every other policy the engine recommends a cut for an idle workload whose patch applies twice |
| `GitOpsValues.RecommendationPatchesOnce` | backend/app/finops/service.py:320-382 | under a policy whose cuts are visible the second patch of any recommendation, on any document, is stale |
| `GitOpsValues.DefaultPolicyPatchesOnce` | backend/app/finops/engine.py:24-35 | with the default settings no recommendation's patch ever applies twice |
| `GitOpsValues.TinyCutPatchesTwice` | backend/app/finops/service.py:355-375 | under settings within their ranges the engine recommends a cut for an idle workload whose patch applies twice |
| `GitOpsValues.TinyCutIsRecommended` | backend/app/finops/engine.py:96-131 | with the smallest floor and minimum cut, an idle workload of 0.0106 cores is cut to 0.01 |
| `GitOpsValues.FinOpsRecommendation.PatchGitopsValues` | backend/app/finops/service.py:320-382 | the patch, which expires the recommendation exactly when it is stale |
| `Forwarder.SecurityForwarder.WithinRate` | security-forwarder/forwarder.py:251-259 | the pruned deque admits exactly when fewer than `rate` of all events ever admitted fall in the last 60 seconds |
| `Forwarder.EveryMinuteIsBounded` | security-forwarder/forwarder.py:251-259 | so every interval of a minute, ending at any time, holds at most `rate` admissions |
| `Forwarder.SecurityForwarder.Duplicate` | security-forwarder/forwarder.py:240-249 | the expiring map reports a duplicate exactly when the event passed less than the time to live ago in the whole history, and afterwards holds exactly the unexpired passes |
| `Forwarder.SecurityForwarder.Prune` | security-forwarder/forwarder.py:244-245 | removing the expired entries leaves exactly the unexpired passes |
| `Forwarder.PassesAreSpaced` | security-forwarder/forwarder.py:195-249 | two passes of one fingerprint are at least the time to live apart, rate-dropped ones included |
| `Forwarder.SecurityForwarder.Offer` | security-forwarder/forwarder.py:199-206 | an event at a new position is never a duplicate, so the rate alone decides |
| `Forwarder.SecurityForwarder.Take` | security-forwarder/forwarder.py:199-208 | one turn of the loop delivers what a turn over the full history without deduplication delivers |
| `Forwarder.SecurityForwarder.Run` | security-forwarder/forwarder.py:195-208 | the loop with deque and map delivers, over any run, exactly what the plain loop over the full history without deduplication delivers |
| `Forwarder.RunKeepsRate` | security-forwarder/forwarder.py:195-208 | a run delivers each arrival at most once, in order, and at most `rate` in any minute |
| `ForwarderDelivery.DeliveredExactly` | security-forwarder/forwarder.py:95-259 | a run delivers exactly the events of the three policies on named demo targets of the staging namespace for which fewer than `rate` went out in the minute before, each with its classification and its position |
| `RateLimit.EveryRunIsLimited` | backend/app/security/rate_limit.py:23-55 | with Redis failing at any command, each counter admits an identity at most `limit` times per window and twice that in any half-open interval of a window's length; outside development and test only Redis admits |
| `RateLimit.WindowsBoundIntervals` | backend/app/security/rate_limit.py:23-55 | disjoint windows that hold at most `limit` each bound every interval of their length by twice that |
| `RateLimit.TwiceTheLimitIsReached` | backend/app/security/rate_limit.py:26-35 | for every limit and window a run in which the double is reached |
| `RateLimit.LimitedExactlyWhenAligned` | backend/app/security/rate_limit.py:26-36 | every run keeps the shared counter within the limit on an interval of a window's length exactly when the interval begins with a window |
| `RateLimit.ServedIsLimited` | backend/app/security/rate_limit.py:23-37 | counted by the time at which Redis serves, an interval of a window's length holds at most three times the limit |
| `RateLimit.WindowSurvivesOneSecond` | backend/app/security/rate_limit.py:31-36 | no run overfills a window exactly when Redis serves within one second, the time by which a key outlives its window |
| `RateLimit.LateServiceOverfills` | backend/app/security/rate_limit.py:31-36 | with any longer delay, up to the life of the key, a run admits one request too many |
| `RateLimit.InProcessIsSharper` | backend/app/security/rate_limit.py:47-55 | the in-process counter admits at most twice the limit less one in any such interval |
| `RateLimit.RejectedExactlyWhenFull` | backend/app/security/rate_limit.py:30-36 | while Redis works a request is rejected exactly if its window has admitted as many as the limit |
| `RateLimit.RejectedInProcessWhenFull` | backend/app/security/rate_limit.py:47-55 | the in-process counter rejects exactly if the window of the request has admitted as many as the limit, in every run |
| `RateLimit.RateLimiter.Admit` | backend/app/security/rate_limit.py:23-55 | the two-path call, with expiry on the first increment and restart on expiry |
| `EventStream.InitialCursor` | backend/app/api/events.py:37-50 | a header that is no number or out of range is refused, and only such; else a connection starts at or beyond both ids it was given |
| `EventStream.ReceivedExactlyWhenVisible` | backend/app/api/events.py:37-88 | over any disconnections, a row the client has gone past was received if and only if it was visible when the page that took the client to or past it was read |
| `EventStream.ReceivedIsTheLog` | backend/app/api/events.py:37-88 | with ids becoming visible in order, what is received is the stretch of the log after the first cursor, without gap or repeat, and all of it once a further page would be empty |
| `EventStream.ReceivedIsLinked` | backend/app/api/events.py:54-88 | each received frame is the next id of what its page saw, across reconnects |
| `EventStream.LateRowIsSkipped` | backend/app/api/events.py:60-68 | of two rows visible in the wrong order the later one is never sent |
| `EventStream.NextIdIsSmallest` | backend/app/api/events.py:62-68 | the paging query yields the least id beyond the cursor |
| `EventStream.Stream.Events` | backend/app/api/events.py:54-88 | the generator sends the pages frame by frame and its cursor is the last id sent, wherever the client is cut off |
| `DiagnosisRouting.ValidExactlyWhenGrounded` | backend/app/ai/service.py:220-240 | validation accepts exactly the answers whose evidence, runbook, commit and files are all in the context |
| `DiagnosisRouting.DiagnoseIsSound` | backend/app/ai/service.py:43-127 | at most the allowed attempts, in route order, each recorded as it went; an answer exactly when some attempt succeeded, grounded and of the greatest confidence among them; else the last failure code |
| `DiagnosisRouting.DiagnosisAsks` | backend/app/ai/service.py:43-127 | exactly when the fallback and the stronger model are asked, in which order, and which answer or failure is returned |
| `DiagnosisRouting.DiagnosisRouter.TryModel` | backend/app/ai/service.py:129-211 | one provider call is recorded once, whatever comes of it |
| `DiagnosisRouting.DiagnosisRouter.Run` | backend/app/ai/service.py:43-127 | primary, fallback and escalation, recording exactly the attempts of the outcome |
| `DiagnosisBudget.BudgetHolds` | backend/app/ai/safety.py:25-66 | over every run an incident's recorded calls never exceed its budget |
| `DiagnosisBudget.TransactionCalls` | backend/app/ai/application.py:23-112 | a transaction records one call per attempt, for its own incident alone, none when it reuses |
| `DiagnosisBudget.TransactionAdds` | backend/app/ai/application.py:23-148 | a transaction stores one diagnosis, and calls a model exactly when admission and context allow |
| `DiagnosisBudget.AskedExactly` | backend/app/ai/application.py:23-148 | a model is asked exactly if enabled, within budget, the circuit closed, the context built and small enough; otherwise the first reason against it is stored |
| `DiagnosisBudget.LatestIsNewest` | backend/app/ai/application.py:23-45 | a reused diagnosis is the newest of its incident |
| `DiagnosisBudget.OpenExactlyOnStreak` | backend/app/ai/safety.py:47-65 | the circuit is open exactly on a run of at least `threshold` failures |
| `DiagnosisBudget.BreakerKeepsHolding` | backend/app/ai/safety.py:47-66 | over every run the window never shows more than one failure beyond the threshold in a row |
| `DiagnosisBudget.DiagnosisService.Serve` | backend/app/ai/application.py:23-112 | the transaction from reuse to persistence |
| `DiagnosisBudget.DiagnosisService.Persist` | backend/app/ai/persistence.py:54-156 | stores the record and a row for each attempt |
| `Alerts.CountsAreAlertsReceived` | backend/app/alerts/service.py:51-160 | one record per source and fingerprint, its count the number of alerts received for it, in every run |
| `Alerts.AtMostOneOpenIncident` | backend/app/alerts/service.py:51-107 | unless a forced change reopens a superseded incident, no key ever has two open ones |
| `Alerts.OnlyLinkedAllAlong` | backend/app/alerts/service.py:51-107 | throughout a run only the incident a record leads to is open, if and only if no superseded incident is ever reopened |
| `Alerts.OpenStep` | backend/app/alerts/service.py:51-107 | one step leaves that state exactly by such a reopening |
| `Alerts.SecondOpenIncident` | backend/app/alerts/service.py:88-107 | exactly which steps give a key its second open incident: a reopening beside an open one, or a firing alert that raises one beside one its record does not lead to |
| `Alerts.ReopeningMakesTwo` | backend/app/incidents/service.py:237-267 | two open incidents are reached from the empty store: fire, end, fire anew, force the first open |
| `Alerts.FiringLeavesOpenIncident` | backend/app/alerts/service.py:51-107 | a firing alert leaves an open incident unless it repeats the last payload while the incident is missing or over; nothing else moves |
| `Alerts.RepeatAfterEndIsSilent` | backend/app/alerts/service.py:66-86 | such a repeat leaves the key without an open incident |
| `Alerts.IngestComesTo` | backend/app/alerts/service.py:51-192 | what one alert leaves: count, payload, link, incident, history and answer |
| `Alerts.AlertService.Ingest` | backend/app/alerts/service.py:51-192 | one alert: repeat, new incident or update |
| `Alerts.AlertService.IngestAlerts` | backend/app/alerts/service.py:40-48 | a batch is ingested and answered in order |
| `ClusterAgent.EveryRun` | backend/app/cluster_agent/service.py:40-197 | accepted reports are strictly newer and ten seconds or more apart, fresh and of the right cluster; the stored state is the last of them; evidence for one incident is a minute or more apart, whatever the clock does |
| `ClusterAgent.AcceptedExactly` | backend/app/cluster_agent/service.py:40-130 | exactly which reports are accepted, and what is stored of them; any other changes nothing |
| `ClusterAgent.EvidenceExactlyWhereOwed` | backend/app/cluster_agent/service.py:130-170 | an incident gets one piece of evidence if it is among the twenty newest open ones of a reported service and has had none for a minute, and otherwise none |
| `ClusterAgent.ReplayChangesNothing` | backend/app/cluster_agent/service.py:64-94 | a report accepted before changes nothing, and is answered as a duplicate exactly while it is stored, in time and the cluster registered |
| `ClusterAgent.EvidenceIsTargeted` | backend/app/cluster_agent/service.py:132-170 | evidence is only added, now, to incidents of the reported services that are not resolved |
| `ClusterAgent.ClusterAgentService.IngestReport` | backend/app/cluster_agent/service.py:40-197 | refusals in order, each leaving the store alone; duplicates; acceptance |
| `ClusterAgent.ClusterAgentService.AttachEvidence` | backend/app/cluster_agent/service.py:130-170 | the loops over workloads and incidents attach the evidence and count it |
| `Quarantine.ApplyEnforces` | backend/app/kubernetes/executor.py:672-771 | a returned apply is enforced; whatever its outcome it touches one label of one pod and one policy |
| `Quarantine.RemoveReleases` | backend/app/kubernetes/executor.py:824-872 | a removal touches one label, and the policy only if it selects this quarantine |
| `Quarantine.AppliesExactly` | backend/app/kubernetes/executor.py:672-771 | exactly when an apply succeeds or is denied, and the label and policy it leaves |
| `Quarantine.RemovesExactly` | backend/app/kubernetes/executor.py:824-872 | exactly when a removal succeeds, and the label and policies it leaves |
| `Quarantine.RejectedApplyRestores` | backend/app/kubernetes/executor.py:732-755 | a rejected apply leaves the cluster as it was if and only if the pod carried no quarantine label |
| `Quarantine.ConflictLeavesLabel` | backend/app/kubernetes/executor.py:756-765 | after a conflict the label stays; the cluster is as before if and only if the pod already carried it |
| `Quarantine.ApplyThenRemoveRestores` | backend/app/kubernetes/executor.py:672-872 | apply then remove is the identity exactly when there was no label and no policy of that name |
| `Quarantine.RemovalReleasesOthers` | backend/app/kubernetes/executor.py:862-872 | another quarantine survives a removal exactly when it is on another pod |
| `Quarantine.NoConflictWithoutForeignPolicies` | backend/app/kubernetes/executor.py:672-872 | in every run in which only these calls write quarantine policies no apply meets a conflict |
| `Quarantine.KubernetesExecutor.ApplyQuarantinePolicy` | backend/app/kubernetes/executor.py:672-771 | patch, create, roll back or check, step by step |
| `Quarantine.KubernetesExecutor.GetQuarantinePolicyState` | backend/app/kubernetes/executor.py:773-822 | what exists, matches and denies |
| `Quarantine.KubernetesExecutor.RemoveQuarantinePolicy` | backend/app/kubernetes/executor.py:824-872 | delete, clear, and report the state left |
| `QuarantineService.EveryRunIsSound` | backend/app/security/quarantine.py:42-399 | in every run CONTAINED and REMOVED are stored only over a verification in which every check passed, only the newest record is live, and at most three executions exist, with distinct attempts from one to three |
| `QuarantineService.ContainedExactlyWhenVerified` | backend/app/security/quarantine.py:139-259 | an apply that proceeds ends CONTAINED exactly when baseline, call, transition and some poll succeed, and otherwise leaves no incident executing or verifying |
| `QuarantineService.AppliedExactly` | backend/app/security/quarantine.py:42-259 | an apply adds an execution if and only if nothing is in place, the incident is not over, the live pod is a demo pod, policy allows it and an attempt is left; exactly when it then ends CONTAINED, why not otherwise, and record, execution and incident of each outcome |
| `QuarantineService.NotApplied` | backend/app/security/quarantine.py:42-137 | the answers of an apply that may not act, in order, each leaving everything as it is |
| `QuarantineService.AwaitFails` | backend/app/security/quarantine.py:555-619 | a verification fails with the error of the first poll that raises, or by running out of polls none of which passes |
| `QuarantineService.RemovedExactlyWhenVerified` | backend/app/security/quarantine.py:262-399 | a live quarantine is removed exactly when the pod can be read, policy allows, an attempt is left, the cluster call succeeds and a poll passes before any raises; record, evidence, incident and execution of each outcome |
| `QuarantineService.SpentIncidentKeepsQuarantine` | backend/app/security/quarantine.py:320-540 | with the third attempt used no later call makes the record REMOVED |
| `QuarantineService.RemovableExactlyWhileAttemptsRemain` | backend/app/security/quarantine.py:320-540 | some run lifts a live quarantine exactly while the greatest attempt is below three |
| `QuarantineService.ApplyIsIdempotent` | backend/app/security/quarantine.py:64-68 | applying again to a contained event changes nothing |
| `QuarantineService.AwaitPasses` | backend/app/security/quarantine.py:555-619 | verification succeeds exactly when some poll passes and none before it raises |
| `QuarantineService.SecurityContainment.WaitFor` | backend/app/security/quarantine.py:555-619 | the polling loops find the first passing poll |
| `QuarantineService.SecurityContainment.ApplyQuarantine` | backend/app/security/quarantine.py:42-259 | checks, marking, attempt limit, guarded call, outcome |
| `QuarantineService.SecurityContainment.RemoveQuarantine` | backend/app/security/quarantine.py:262-399 | the same for removal, resolving a verifying incident |
| `ScenarioLab.TerminalChangesOnlyOnResume` | backend/app/api/internal_reliability.py:317-542 | a terminal status changes exactly when a call that had committed inside now writes another one |
| `ScenarioLab.FinalExactlyWhenAgreed` | backend/app/api/internal_reliability.py:317-542 | a terminal status survives every run exactly when every call in flight is going to write that very status |
| `ScenarioLab.TerminalIsFinal` | backend/app/api/incident_lab.py:323-438 | with no such call in flight a terminal execution never changes again |
| `ScenarioLab.TerminalStaysTerminal` | backend/app/api/internal_reliability.py:317-542 | terminal stays terminal in every run, and keeps its status unless the execution quarantines |
| `ScenarioLab.StopIsOvertaken` | backend/app/api/internal_reliability.py:748-785 | a cancelled security execution becomes SUCCEEDED |
| `ScenarioLab.SuccessWasSeen` | backend/app/api/internal_reliability.py:517-785 | a reliability or security execution succeeds only over a reconciliation that saw the incident RESOLVED, and for security the containment REMOVED |
| `ScenarioLab.ReliabilityComesTo` | backend/app/api/internal_reliability.py:317-542 | before the deadline a reliability execution succeeds exactly if its incident is seen RESOLVED and fails exactly if it is seen BLOCKED or ESCALATED, while nothing waits or raises; after it, it times out unless cleanup raises |
| `ScenarioLab.SecurityComesTo` | backend/app/api/internal_reliability.py:657-812 | what a security reconciliation writes, at once or left in flight, for everything it may see |
| `ScenarioLab.StopComesTo` | backend/app/api/incident_lab.py:323-438 | a stop cancels an execution that is not over, at once or after a removal, unless something raises |
| `ScenarioLab.DeadlineEnds` | backend/app/api/internal_reliability.py:355-372 | a reconciliation that returns at or after the deadline has ended the execution; it raises only where cleanup does |
| `ScenarioLab.ScenarioExecution.ReconcileExecution` | backend/app/api/internal_reliability.py:317-542 | a reconciliation up to its end or the commit inside it |
| `ScenarioLab.ScenarioExecution.ReconcileEvent` | backend/app/api/internal_reliability.py:657-812 | the same for a security execution |
| `ScenarioContainment.SuccessMeansReleased` | backend/app/api/internal_reliability.py:657-785 | with what it sees read off the quarantine service, and operators using both meanwhile, a security scenario that SUCCEEDED has a removed record whose stored verification passed every check |
| `ScenarioContainment.StartedScenarioReleases` | backend/app/api/internal_reliability.py:657-785 | the same from the start of a scenario on, its event without a record |
| `ScenarioContainment.SuccessIsReleased` | backend/app/api/internal_reliability.py:748-785 | a reconciliation writes SUCCEEDED only when it leaves a removed record |
| `ScenarioContainment.RemovalSucceeds` | backend/app/api/internal_reliability.py:700-785 | a contained event whose removal succeeds makes its scenario succeed |
| `ScenarioContainment.ProposalIsApplied` | backend/app/api/internal_reliability.py:657-747 | a proposed event that may be quarantined is, contained exactly as the service's conditions say |
| `ScenarioLab.ScenarioExecution.StopExecution` | backend/app/api/incident_lab.py:323-438 | a stop up to its end or the commit inside it |
| `ScenarioLab.ScenarioExecution.RunFinOps` | backend/app/api/finops.py:343-395 | succeeds only from PENDING or RUNNING |
| `ScenarioLab.ScenarioExecution.FailFinOps` | backend/app/api/finops.py:411-455 | fails only from PENDING or RUNNING |

## Left out

- The transport of HTTP, Kubernetes, OPA, GitHub, Teams and OpenRouter, Celery and git: parameters of the calls. Retries inside one provider or delivery call are part of that call.
- Hash functions, JSON canonicalization and YAML syntax: digests are their inputs, and a values document is the tree a loader yields.
- GitOpsValues.PatchChangesOnlyTheRequests: documents without YAML aliases. An aliased mapping is one object to the loader, so the source changes it on every path.
- Binary floating point: quantities, costs, confidences and times are reals. `GitOpsValues` reads decimal text without exponents, underscores or surrounding blanks.
- Exceptions other than the services' own, and database failures at commit; a failing statement inside a call is the call's error.
- Concurrency inside one transaction: each service call is one step, except where the code commits in the middle (`UnhealthyPodPipeline`, whose incident others may change between its commits, `ScenarioLab`, `ScenarioContainment`). `IncidentSessions` has the sessions that read a row and write it later. A read and a patch inside one Kubernetes call are one step.
- Verification engine, multi-signal verification, risk scoring and policy content: nondeterministic answers.
- `FinOpsEngine.analyze_nodes`, `persist_result`, pull requests and expiry by age: sums, maxima and row copies that add no harder claim.
- `RollbackCoordinator.decide`, runbook matching, memory ranking, notifications, audit rows, redaction, prompt text and field limits.
- Quarantines and the unhealthy-pod pipeline write executions of their own; the approval claims speak of those that pass through `claim_action_execution`.
- RateLimit.EveryRunIsLimited: the wall clock is past the epoch, Redis serves an increment at most one second after its window was computed, and the in-process and the Redis counter are bounded separately: they run on different clocks, and while Redis fails now and then a client gets what both admit. An admission is timed by the clock reading that chose its window; `RateLimit.ServedIsLimited` counts by the time of service.
- Incidents.EveryRun: each request reads the row it changes, and none is rolled back; `IncidentSessions.EverySession` is the statement without this.
- Incidents.TerminalIsAbsorbing: likewise each request reads the row it changes; see `IncidentSessions.EndedStaysUnlessOverwritten`.
- UnhealthyPodPipeline.Pipeline.Run: others change the incident's state only, not its retry count or the run's own rows; a state they set before the run's next write and its own write meet in that order, as the row lock of a write makes them.
- UnhealthyPodPipeline.Pipeline.Process: as for `Run`.
- ClusterAgent.EveryRun: one attachment stands for the evidence rows a report stores for an incident, all at one time.
- ScenarioContainment.SuccessMeansReleased: one security event; a later event of the same kind would take its place.
- ScenarioLab.SuccessWasSeen, `ScenarioExecution.ReconcileExecution` and `StopExecution`: verification, chaos cleanup and scaling are answers; `ScenarioContainment` ties the quarantine calls to their service.
- Forwarder.SecurityForwarder.Run: one process lifetime; a restart begins with an empty history. Delivery attempts are not modelled.
- DiagnosisBudget.BreakerKeepsHolding: for transactions one after another. The row lock serializes those of one incident only.
- QuarantineService.EveryRunIsSound: one security event; the probe of the controlled egress is an answer, not derived from the policy.
- ScenarioLab.DeadlineEnds: cleanup of chaos resources, GitOps revisions and temporary scale is an answer that succeeds or raises.
