# Verified model of the testing environment

A Dafny model of the parts of the testing environment that are hardest to get right, with proofs of what they
promise. `dafny verify dfyconfig.toml` checks all of it.

**Test runs.** The API, the workers, their heartbeat timers and the janitor share one stored row per run. Most
operations read the row, check the transition table, and later write with a condition on the status alone.
`RunProtocol` models every operation as these separate steps, interleaved in any order with crashes and the clock;
`RunTheorems` and `RunDiscipline` state what holds in every reachable state and over every run. `RunPrograms` has the
worker's phase driver, the cancel endpoint, the janitor and the other callers as programs, shows that all their
interleavings are such runs, and ties the verdict to the tests. `RunLeases` and `RunPromises` tell what operations,
heartbeats, sweeps, errors and cancellations come to. `RunStore` has the same operations as methods on the
stored rows, with the cancel endpoint and the janitor's sweep. `Timeline` builds the phase timeline from what the
protocol leaves behind.

**Suites.** A visual flow is validated, sorted topologically, compiled to an execution plan and exported to a
document, which is imported again when the stored plan is unusable. `Sorting`, `Graphs`, `TopoSort` and
`SortListing` cover the sort, `YamlAdapter` and `YamlRoundTrip` import, export and the round trip, and the `Visual`
modules the compiler and what survives its fallback. `SuiteImport` tells what an import comes to in the terms of the
document. `FlowSuiteCompiler` compares the older flow compiler with the
newer one.

**Loops.** `SecretRotation` and `SecretRotationService` cover the resumable re-encryption of secrets, `Utf8` and
`LogWriter` the cap on logs, `EventLog` the numbering and paged recovery of events, `Polling` the poll step and the
healthcheck, `Verdict` the execution of suites and the verdict that follows.

## What is trusted

- A conditional update and a transaction of the database are atomic; a row lock makes other transactions wait.
- Dumping a document and loading it again keeps it, up to properties that are undefined. Loading makes dates and
  binary data objects of classes of their own, of which `sortKeysDeep` leaves the enumerable properties.
- The host's upper-casing is idempotent and keeps a non-blank trimmed text one; its string comparison is a
  consistent total comparison. For the comparison of the two compilers, upper-casing also leaves white space at the
  ends alone, and a number coerced to a number is itself. Other number coercion, string conversion and the order of
  keys are arbitrary parameters; for the variables of a plan, the host lists every key of an object.
- Decrypting under the version used to encrypt gives the plaintext back, whatever the nonce.
- Clock readings do not go backwards. A call and a timer take at least a millisecond each, the one-second pause of
  the healthcheck at least a second.

## Where code and documentation differ

The model follows the code.

- The backend's README (lines 80-82) says that a run whose lease expires is finished and never executed again. The
  code lets a CLAIMED run with an expired lease be claimed again: `RunTheorems.ClaimSucceedsIff`,
  `RunTheorems.SecondClaimIsReachable`.
- CLEANING_UP is listed as cancellable, yet a cancellation is refused there: `RunStatus.AcceptsCancel`,
  `RunStore.TestRunStore.Cancel`.
- A cancellation accepted while a worker is recording a failure is left to the sweep: `RunPromises.LateCancelIsLeft`.
- The sweep does not see every stuck run, as a run whose cancellation was accepted before it was ever claimed has no
  expiry: `RunStore.CancellationIsSweptIff`.
- Re-importing an exported plan can change it, where an expected status or a part of an assertion was dropped as
  empty or an unquoted date became an empty object: `YamlRoundTrip.ExportThenImport`,
  `YamlRoundTrip.BlankStatusComesBackAs200`, `YamlRoundTrip.DateComesBackEmpty`.
- Falling back to the document of a compiled flow loses step versions other than the default, blank expected statuses
  and assertion parts that are empty arrays, the dependencies of a flow that is not one chain, untrimmed ids and
  variables without a name: `VisualIdentity.FallbackIsIdentityIff`.
- The sort by id does not always give one order for one flow: it depends on how nodes are listed exactly if two steps
  without an incoming edge compare equal: `SortListing.ListingMattersIff`.
- The two flow compilers give a wait step different default timeouts: `FlowSuiteCompiler.WaitDefaultsDiffer`.
- A resumed rotation shows a total that leaves out what earlier attempts rotated: `SecretRotation.TotalMatchesIff`.
- A log can end one or two bytes behind its limit: `LogWriter.LogOvershootsIff` says exactly when and by how much,
  `LogWriter.OvershootHappens` gives a case.

## Model

| member | source | states |
|---|---|---|
| RunTheorems.NoLostUpdate | testing-environment-backend/src/test-runs/test-run-state.service.ts:411-448 | a compare-and-swap on the status alone loses no update: in every interleaving, a write that succeeds finds the status and the phase timestamps that its read saw, and leaves what reading and writing in one step would have left |
| RunTheorems.RunsAreSerializable | testing-environment-backend/src/test-runs/test-run-state.service.ts:411-448 | the row after any interleaving of read halves, write halves, observations, enqueues, renewals, ticks and crashes is the row left by the completed operations run one after another, each undivided |
| RunTheorems.HistoryIsOrderedPrefix | testing-environment-backend/src/test-runs/test-run-state.service.ts:475-499 | in every reachable row the phase history is a prefix of the eight phases that ends at the current phase, in ascending order and not before queueing; a PASSED run has all eight |
| RunTheorems.HistoryIsNeverRewritten | testing-environment-backend/src/test-runs/test-run-state.service.ts:475-499 | a recorded phase timestamp is the same in every later state |
| RunTheorems.LeasesAreExclusive | testing-environment-backend/src/test-runs/test-run-state.service.ts:143-184 | a later claim takes effect only after the last expiry that any earlier claim or its renewals wrote |
| RunTheorems.LeaseFieldsTellTheHistory | testing-environment-backend/src/test-runs/test-run-state.service.ts:377-392 | `attempt` counts the claims, a claimed or running row has the runner of the last one and the last expiry written, a terminal row has no lease |
| RunTheorems.OutcomeMatchesStatus | testing-environment-backend/src/test-runs/test-run-state.service.ts:262-325 | `finishedAt` is set exactly in terminal states, the failure category is the one of the status, and no run changes its status more than 11 times |
| RunTheorems.AcceptedCancelWins | testing-environment-backend/src/test-runs/test-run-state.service.ts:251-260 | once a cancellation has been accepted, every later state is CANCEL_REQUESTED or CANCELLED, whatever worker, janitor and API do |
| RunTheorems.TerminalRowIsFrozen | testing-environment-backend/src/test-runs/test-run-state.service.ts:89-101 | no later step of any actor changes a terminal row |
| RunTheorems.AttemptIsFrozenPastClaim | testing-environment-backend/src/test-runs/test-run-state.service.ts:157-179 | once a run has left CLAIMED, its number of attempts never changes |
| RunTheorems.ClaimSucceedsIff | testing-environment-backend/src/test-runs/test-run-state.service.ts:132-185 | in every reachable row a claim goes through exactly if the run is queued, or is claimed with a lease that ran out before the claim began |
| RunTheorems.SecondClaimIsReachable | testing-environment-backend/src/test-runs/test-run-state.service.ts:157-179 | a run of two workers in which the second one claims after the lease of the first expired: the attempt count of 2 is reachable |
| RunLeases.WriteRecords | testing-environment-backend/src/test-runs/test-run-state.service.ts:262-325 | in every reachable state a write that goes through leaves its operation recorded in the columns: runner and lease of a claim, the time a phase was entered, the request of a cancellation, the outcome and its counts, with the lease cleared |
| RunLeases.OnlyTheHolderRenews | testing-environment-backend/src/test-runs/test-run-state.service.ts:377-392 | in every reachable state a heartbeat sets the expiry to now plus the lease exactly if the run is unfinished and its last claim is by the same runner; from anybody else it changes neither the row nor the lease |
| RunLeases.SweepFollowsTheLease | testing-environment-backend/src/queue/test-run-queue-recovery.service.ts:66-112 | in every reachable state a sweep finishes the run exactly if it is unfinished and its last claim, as extended, ran out before: as CANCELLED if a cancellation was accepted, as INFRA_FAILED otherwise |
| RunLeases.OnlyCreatedIsQueued | testing-environment-backend/src/test-runs/test-run-state.service.ts:217-242 | in every reachable state queueing changes a CREATED run only, to QUEUED with the time of it |
| RunLeases.CancellationIsSeenIff | testing-environment-backend/src/test-runs/test-run-state.service.ts:394-409 | with the calls as they are made, a cancellation is seen exactly if one was accepted |
| RunDiscipline.CancelledOnlyIfRequested | testing-environment-backend/src/runner/runner-orchestrator.service.ts:339-344 | with the calls the runner and the janitor make, a run is CANCELLED only if a cancellation was accepted before |
| RunDiscipline.CleanupIsNeverCancelled | testing-environment-backend/src/test-runs/test-run-state.service.ts:89-94 | with those calls the edge from CLEANING_UP to CANCELLED is never taken |
| RunDiscipline.VerdictMatchesStats | testing-environment-backend/src/runner/runner-orchestrator.service.ts:332-361 | in every run disciplined like the callers of the state service, a PASSED run counts no failed test, a TEST_FAILED run at least one, and both have gone through all eight phases by the time they finished |
| RunPrograms.InterleavingsAreDisciplined | testing-environment-backend/src/runner/runner-orchestrator.service.ts:118-436 | however any number of workers, cancel requests, sweeps and other callers of one run interleave, crashes, aborts and thrown errors included, what reaches the row is a disciplined run of the protocol |
| RunPrograms.VerdictComesFromTests | testing-environment-backend/src/runner/runner-orchestrator.service.ts:313-361 | in every such interleaving a PASSED or TEST_FAILED run was last written by a worker, which ran every step of its own plans that is not a sequence to its end and counted them, and is PASSED exactly if all of these steps passed |
| RunPrograms.LoneWorkerReachesVerdict | testing-environment-backend/src/runner/runner-orchestrator.service.ts:148-361 | a worker left alone with suites it can run to the end takes a new run through all phases to the verdict of its tests, TEST_FAILED exactly if a step failed |
| RunPromises.AcceptedCancelIsCarriedOut | testing-environment-backend/src/runner/runner-orchestrator.service.ts:384-399 | once a cancellation is accepted, a worker at any point that obeys leaves the run CANCELLED when it comes to its end, whatever everybody else does, unless it is killed |
| RunPromises.WorkersObey | testing-environment-backend/src/runner/runner-orchestrator.service.ts:118-436 | a worker obeys at its start, before each check, before each phase, in the `catch` block and at the end |
| RunPromises.LateCancelIsLeft | testing-environment-backend/src/runner/runner-orchestrator.service.ts:384-418 | a worker that is recording a failure when the cancellation is accepted does not: the operation is refused and the run stays CANCEL_REQUESTED |
| RunPromises.ErrorsEndTheRun | testing-environment-backend/src/runner/runner-orchestrator.service.ts:400-418 | an error thrown at a worker on a run nobody cancelled can end it as INFRA_FAILED with any category |
| RunPromises.RequestsAreAccepted | testing-environment-backend/src/test-runs/test-runs.service.ts:237-267 | the endpoint brings a run to CANCEL_REQUESTED, and to CANCELLED if the job is gone |
| RunPromises.SweepsEndTheRun | testing-environment-backend/src/queue/test-run-queue-recovery.service.ts:90-112 | the sweep of one run, interleaved as a caller, brings it to INFRA_FAILED or, if cancelled, to CANCELLED |
| RunStatus.TransitionsDescend | testing-environment-backend/src/test-runs/test-run-state.service.ts:37-101 | the transition table has no cycle apart from self-loops: every change of status goes strictly deeper |
| RunStatus.PhaseEnteredInOrder | testing-environment-backend/src/test-runs/test-run-state.service.ts:37-101 | a phase is entered from the phase before it only, the first one from CLAIMED only |
| RunStatus.AcceptsCancel | testing-environment-backend/src/test-runs/test-run-status.constants.ts:30-34 | of the statuses listed as cancellable exactly CLEANING_UP has no edge to CANCEL_REQUESTED |
| RunStatus.EdgesByTarget | testing-environment-backend/src/test-runs/test-run-state.service.ts:37-101 | the table read backwards: which statuses have an edge to each status |
| RunStatus.GroupsByTable | testing-environment-backend/src/test-runs/test-run-status.constants.ts:14-42 | the groups of statuses by the table: finished means no edge, cancellable means an edge to CANCEL_REQUESTED or cleaning up |
| RunStore.TestRunStore.UpdateMany | testing-environment-backend/src/test-runs/test-run-state.service.ts:431-445 | the conditional update changes the one row that matches, or nothing, and answers how many it changed |
| RunStore.TestRunStore.Transition | testing-environment-backend/src/test-runs/test-run-state.service.ts:411-448 | undisturbed, a transition is the indivisible operation: not found, conflict and success each leave exactly the row stated, and no other row changes |
| RunStore.TestRunStore.TryMark | testing-environment-backend/src/test-runs/test-run-state.service.ts:327-364 | a finished run is left alone without an error, any other is marked or refused with a conflict |
| RunStore.TestRunStore.MarkQueuedIfCreated | testing-environment-backend/src/test-runs/test-run-state.service.ts:217-242 | queues exactly a created, unfinished run without a cancellation, and answers nothing otherwise |
| RunStore.TestRunStore.RenewLease | testing-environment-backend/src/test-runs/test-run-state.service.ts:377-392 | extends the lease to now plus its duration exactly if the caller is the runner of an unfinished run, and changes nothing otherwise |
| RunStore.TestRunStore.Cancel | testing-environment-backend/src/test-runs/test-runs.service.ts:237-267 | a queued run whose job is gone ends CANCELLED, any other cancellable run CANCEL_REQUESTED, one in cleanup is refused with a conflict, finished runs are returned unchanged, and other runs are not touched |
| RunStore.TestRunStore.RecoverExpiredLeases | testing-environment-backend/src/queue/test-run-queue-recovery.service.ts:66-113 | one undisturbed sweep changes exactly the unfinished claimed, running or cancelled runs whose expiry lies before it, each as stated, and leaves none of them; every other run is unchanged |
| RunStore.SweepFinishesOrphans | testing-environment-backend/src/queue/test-run-queue-recovery.service.ts:90-112 | a swept run ends CANCELLED if its cancellation was accepted and INFRA_FAILED otherwise, without a lease, with its phase history intact, and is never selected again |
| RunStore.CancellationIsSweptIff | testing-environment-backend/src/queue/test-run-queue-recovery.service.ts:70-86 | a run with an accepted cancellation is seen by some sweep exactly if it was ever claimed |
| Timeline.TimelineTilesPassedRun | testing-environment-backend/src/test-runs/test-run-diagnosis.service.ts:139-194 | for a PASSED run all nine entries are completed, each ends where the next starts, the clamp of negative durations never applies, and the durations add up to the time from queueing to the end |
| Timeline.TimelineOfRunningPhase | testing-environment-backend/src/test-runs/test-run-diagnosis.service.ts:139-194 | in phase k the earlier entries are completed with a duration, its own is active and open, the later ones are pending, or skipped if they need docker compose and the run does not use it |
| Timeline.TimelineOfStoppedRun | testing-environment-backend/src/test-runs/test-run-diagnosis.service.ts:420-448 | a run stopped for a reason that names no phase shows its last started phase as failed, everything before as completed and nothing after; before the first phase no entry is shown as failed |
| Timeline.TimelineOfNamedFailure | testing-environment-backend/src/test-runs/test-run-diagnosis.service.ts:420-448 | a failure whose category names a phase is shown at that phase and nowhere else, unless that entry is skipped |
| Timeline.TimelineOfWaitingRun | testing-environment-backend/src/test-runs/test-run-diagnosis.service.ts:139-194 | a queued or claimed run shows the queue entry as active since it was queued and nothing else as started; a created one shows nothing |
| TopoSort.SortNodes | testing-environment-backend/src/test-suites/execution-plan-compiler.service.ts:188-229 | the sort fails exactly if the flow has a cycle, and otherwise returns a permutation with every edge pointing forward that is lexicographically least among all of them; its result is the one `SortListing` is about |
| SortListing.ListingMattersIff | testing-environment-backend/src/test-suites/execution-plan-compiler.service.ts:188-229 | the sort gives the same result for every listing of nodes and edges exactly if the flow has a cycle or no two steps without an incoming edge compare equal |
| SortListing.RootsComeAsListed | testing-environment-backend/src/test-suites/execution-plan-compiler.service.ts:201-222 | of two steps without an incoming edge the one listed first comes out first, unless the comparison puts the other one before it |
| SortListing.LateTieDoesNotMatter | testing-environment-backend/src/test-suites/execution-plan-compiler.service.ts:206-222 | a flow whose result depends on no listing although another order takes a least ready step each time as well |
| SortListing.OutcomeWithoutEdges | testing-environment-backend/src/test-suites/execution-plan-compiler.service.ts:201-204 | without edges the result is the stable sort of the steps as listed |
| TopoSort.SortNodesFifo | testing-environment-backend/src/test-suites/flow-suite-compiler.service.ts:209-249 | the first-in first-out sort accepts the same graphs, and rejects edges to missing steps |
| TopoSort.Kahn | testing-environment-backend/src/test-suites/execution-plan-compiler.service.ts:188-229 | both sorts: the result is a topological order exactly where there is no cycle, under either queue discipline |
| TopoSort.CountEdges | testing-environment-backend/src/test-suites/execution-plan-compiler.service.ts:193-199 | the counts are the numbers of edges into each step, the lists the targets of each step |
| TopoSort.Release | testing-environment-backend/src/test-suites/execution-plan-compiler.service.ts:212-222 | after the edges of a finished step are taken off, the counts are right again and the queue holds exactly the ready steps, in queue order |
| Graphs.StuckMeansCycle | testing-environment-backend/src/test-suites/execution-plan-compiler.service.ts:225-227 | steps that all wait for one another contain a cycle |
| Graphs.PicksLeastIsLeast | testing-environment-backend/src/test-suites/execution-plan-compiler.service.ts:206-223 | taking the least ready step each time gives the lexicographically least topological order |
| Graphs.LeastIsUnique | testing-environment-backend/src/test-suites/execution-plan-compiler.service.ts:188-229 | the order does not depend on how nodes and edges are listed, under an order of ids that tells them apart |
| Graphs.LeastIsUniqueIff | testing-environment-backend/src/test-suites/execution-plan-compiler.service.ts:201-223 | of the orders that take a least ready step each time there is only one exactly if no other ready step ever compares equal to the one taken |
| YamlRoundTrip.ExportThenImport | testing-environment-backend/src/test-suites/yaml-suite-adapter.service.ts:112-149 | for every importable document, re-importing the export of its plan never fails, gives the plan back repaired, and gives back the plan itself exactly if every request states its expected status, no assertion holds an empty array, and no value was loaded as an object of a class of its own, such as a date |
| YamlRoundTrip.SecondRoundTripIsIdentity | testing-environment-backend/src/test-suites/yaml-suite-adapter.service.ts:137-149 | a plan that has gone through one round trip survives every further one unchanged |
| YamlRoundTrip.BlankStatusComesBackAs200 | testing-environment-backend/src/test-suites/yaml-suite-adapter.service.ts:294-300 | a concrete request for which the round trip is not the identity: an expected status of `""` comes back as 200 |
| YamlRoundTrip.DateComesBackEmpty | testing-environment-backend/src/test-suites/yaml-suite-adapter.service.ts:470-483 | another one: a request whose body was loaded as a date comes back with an empty object as its body |
| Json.DumpIsIdentityIff | testing-environment-backend/src/test-suites/yaml-suite-adapter.service.ts:470-483 | sorting the keys of a loaded value keeps it exactly if no object of a class of its own is in it |
| YamlRoundTrip.ImportedPlanIsBuilt | testing-environment-backend/src/test-suites/yaml-suite-adapter.service.ts:121-135 | every imported plan is normal: trimmed non-blank names, positive limits, linear dependencies, sorted variables |
| SuiteImport.StepsAreNamed | testing-environment-backend/src/test-suites/yaml-suite-adapter.service.ts:168-274 | the test at position i becomes step i, with its trimmed id, or `step-` and the number i + 1 in at least three digits; a step without a name is named by its id |
| SuiteImport.StepsWithoutIds | testing-environment-backend/src/test-suites/yaml-suite-adapter.service.ts:411-415 | steps without ids get pairwise different ones, and each depends on exactly the one before it |
| SuiteImport.DefaultIdIsNumbered | testing-environment-backend/src/test-suites/yaml-suite-adapter.service.ts:443-445 | the default id of a position reads as its number |
| SuiteImport.VariablesAreDeclared | testing-environment-backend/src/test-suites/yaml-suite-adapter.service.ts:417-441 | the variables of an imported plan are those its requests and polls save and its steps set, but for blank names |
| SuiteImport.CompiledVariablesAreDeclared | testing-environment-backend/src/test-suites/execution-plan-compiler.service.ts:339-362 | the variables of a compiled plan are those its requests and polls save and its steps set |
| SuiteImport.EmptySuite | testing-environment-backend/src/test-suites/yaml-suite-adapter.service.ts:112-135 | a suite has the revision its caller gives or is a draft, its trimmed name or `Unnamed suite`, and the positive limit its caller or else the document gives, or 300000 ms; an empty name is refused |
| SuiteImport.CompiledSuite | testing-environment-backend/src/test-suites/execution-plan-compiler.service.ts:35-61 | the same of a compiled flow, with the limit of its caller only |
| SuiteImport.StepIsVersioned | testing-environment-backend/src/test-suites/yaml-suite-adapter.service.ts:168-274 | every imported step has the version of its kind |
| SuiteImport.PollInSeconds | testing-environment-backend/src/test-suites/yaml-suite-adapter.service.ts:192-220 | a poll that gives its times in seconds gets a thousand times as many milliseconds, and is refused if the interval exceeds the timeout |
| SuiteImport.BareWait | testing-environment-backend/src/test-suites/yaml-suite-adapter.service.ts:168-190 | a wait step that says nothing but how long has a limit of 30000 ms, one attempt and no backoff, and does not continue on failure |
| SuiteImport.BareRequest | testing-environment-backend/src/test-suites/yaml-suite-adapter.service.ts:276-315 | a request that says nothing but method and path expects status 200 |
| SuiteImport.BarePoll | testing-environment-backend/src/test-suites/yaml-suite-adapter.service.ts:192-220 | a poll that says nothing but its request asks every 1000 ms for 30000 ms |
| YamlRoundTrip.ReimportedStep | testing-environment-backend/src/test-suites/yaml-suite-adapter.service.ts:168-274 | the export of a step of any kind is imported again as that step repaired, at any position; dates in it become empty objects |
| YamlRoundTrip.ReimportedRequest | testing-environment-backend/src/test-suites/yaml-suite-adapter.service.ts:276-315 | the export of a request is imported again as that request repaired |
| YamlRoundTrip.ReimportedPoll | testing-environment-backend/src/test-suites/yaml-suite-adapter.service.ts:317-376 | the export of a poll is imported again with its request repaired and its times unchanged |
| YamlRoundTrip.ReimportedRetry | testing-environment-backend/src/test-suites/yaml-suite-adapter.service.ts:447-460 | a retry policy survives, including the default one that the export leaves out |
| VisualFlows.ValidateFlow | testing-environment-backend/src/test-suites/execution-plan-compiler.service.ts:81-126 | no problem is reported exactly for a valid flow, and a reported problem is really there |
| VisualFlows.ValidateNodes | testing-environment-backend/src/test-suites/execution-plan-compiler.service.ts:92-108 | every id is new and not blank, every name not blank, every configuration valid, or the problem reported is one of a node |
| VisualFlows.ValidateEdges | testing-environment-backend/src/test-suites/execution-plan-compiler.service.ts:110-125 | edges connect existing steps and no step has two edges in or two out, or the problem reported is there |
| VisualFlows.KindIsValidIff | testing-environment-backend/src/test-suites/execution-plan-compiler.service.ts:128-186 | which configurations are valid, kind by kind: positive durations, an interval within the timeout, names and paths that are more than white space |
| VisualFlows.RequestIsValidIff | testing-environment-backend/src/test-suites/execution-plan-compiler.service.ts:128-186 | which requests are: a method, a path, and assertions that each have a path and an operator |
| Json.CleaningDrops | testing-environment-backend/src/test-suites/yaml-suite-adapter.service.ts:485-499 | of an object of any class `cleanObject` drops undefined values, empty texts and empty arrays, and nothing else |
| SuiteImport.CleaningNumbers | testing-environment-backend/src/test-suites/yaml-suite-adapter.service.ts:485-499 | it takes an array for an object with its positions as keys |
| Text.TrimTakesSpaces | testing-environment-backend/src/test-suites/execution-plan-compiler.service.ts:92-108 | trimming takes white space off the ends and nothing else |
| VisualCompiler.ToDependencyRecord | testing-environment-backend/src/test-suites/execution-plan-compiler.service.ts:231-240 | inserting each edge and sorting again gives for every step the sorted list of its predecessors |
| VisualCompiler.CompileVisual | testing-environment-backend/src/test-suites/execution-plan-compiler.service.ts:35-61 | a flow compiles exactly if it is valid and acyclic; its plan lists the steps in the least topological order and comes with its export |
| VisualFallback.CompiledStepIsBuilt | testing-environment-backend/src/test-suites/execution-plan-compiler.service.ts:242-308 | a compiled step of a migrated node is, up to its version, one that the import builds, and survives the round trip exactly if the node has no expected status or part of an assertion that is dropped |
| VisualFallback.FallbackSucceeds | testing-environment-backend/src/runner/runner-orchestrator.service.ts:555-567 | re-importing the document of a compiled flow never fails: the same steps come back repaired with default versions, linear dependencies and the variables that have a name |
| VisualDependencies.LinearOrderImpliesDependencies | testing-environment-backend/src/test-suites/yaml-suite-adapter.service.ts:411-415 | for trimmed ids, every dependency of the compiled flow follows from the linear ones of its fallback along a path |
| VisualDependencies.ChainIffEdgeCount | testing-environment-backend/src/test-suites/execution-plan-compiler.service.ts:110-125 | a valid flow is a single chain exactly if it has one edge fewer than steps |
| VisualIdentity.StepsComeBackIff | testing-environment-backend/src/test-suites/execution-plan-compiler.service.ts:242-308 | the fallback has the same steps exactly if no node carries a version of its own and no request an expected status or a part of an assertion that `cleanObject` drops |
| VisualIdentity.DependenciesComeBackIff | testing-environment-backend/src/test-suites/execution-plan-compiler.service.ts:231-240 | the fallback has the same dependencies exactly if the ids are trimmed and the flow is a single chain |
| VisualIdentity.VariablesComeBackIff | testing-environment-backend/src/test-suites/execution-plan-compiler.service.ts:339-362 | for trimmed ids the fallback has the same variables exactly if none has a blank name |
| VisualIdentity.FallbackIsIdentityIff | testing-environment-backend/src/test-suites/execution-plan-compiler.service.ts:35-61 | the whole plan comes back unchanged exactly if no node has a version of its own, nothing a request expects is dropped, the ids are trimmed, the flow is one chain and every variable has a name |
| FlowSuiteCompiler.TestCaseIsImported | testing-environment-backend/src/test-suites/flow-suite-compiler.service.ts:281-375 | importing the document the older compiler writes for a valid step of any kind gives the configuration, id and name the newer compiler gives it, with default settings; only an expected status of `""` becomes 200 |
| FlowSuiteCompiler.CompilersAgreeIff | testing-environment-backend/src/test-suites/flow-suite-compiler.service.ts:281-375 | the two compilers agree on a whole step exactly if, in the node's own fields, its version, retry policy and timeout mean the default ones, it does not continue on failure and its expected status is not blank |
| FlowSuiteCompiler.WaitDefaultsDiffer | testing-environment-backend/src/test-suites/visual-dsl-migrator.service.ts:34-42 | a wait step without a timeout of its own gets 60000 ms from the newer compiler and 30000 ms through the document of the older one |
| FlowSuiteCompiler.ChainHasOneOrder | testing-environment-backend/src/test-suites/flow-suite-compiler.service.ts:209-249 | on a single chain the sorts of both compilers give the same order, the only topological one |
| SecretRotationService.RotationStore.Process | testing-environment-backend/src/secrets/secret-rotation.service.ts:50-146 | one attempt, with its loop, transactions and `catch`, has the outcome and leaves the state that the specification of an attempt gives, in any weather, a commit reported as an error included |
| SecretRotationService.RotationStore.RotateBatch | testing-environment-backend/src/secrets/secret-rotation.service.ts:86-124 | a batch is committed with its progress and audit events exactly if every secret in it can be decrypted |
| SecretRotation.AttemptsKeep | testing-environment-backend/src/secrets/secret-rotation.service.ts:50-146 | over any number of attempts that crash or fail anywhere, no secret at or before the cursor is still due, plaintexts and other rows are unchanged, and what was rotated is counted and audited exactly once |
| SecretRotation.CompletedMeansRotated | testing-environment-backend/src/secrets/secret-rotation.service.ts:127-134 | a completed job has rotated every secret due at its creation, counted all of them across its attempts, and changed nothing else |
| SecretRotation.OnlyTheCompanysOldKeyIsReplaced | testing-environment-backend/src/secrets/secret-rotation.service.ts:72-125 | over any attempts of a job, a secret of another company or under another key stays what it was, and one of the company under the old key stays so too or gets the new key with its plaintext |
| SecretRotation.OldKeyIsGone | testing-environment-backend/src/secrets/secret-rotation.service.ts:72-146 | a completed job leaves no secret of its company under the old key, has processed as many as there were, and has one audit event for each |
| SecretRotation.BatchIsFull | testing-environment-backend/src/secrets/secret-rotation.service.ts:72-84 | a batch is the first fifty secrets still due after the cursor, in the order of their ids |
| SecretRotation.RetryCompletesIff | testing-environment-backend/src/secrets/secret-rotation.service.ts:135-145 | after any earlier attempts, one in which no write fails completes the job exactly if every secret could be decrypted at the start |
| SecretRotation.FairAttemptCompletesIff | testing-environment-backend/src/secrets/secret-rotation.service.ts:72-125 | an attempt in which no write fails returns and completes exactly if every secret still due can be decrypted |
| SecretRotation.PassShrinks | testing-environment-backend/src/secrets/secret-rotation.service.ts:118-123 | the cursor makes every pass leave strictly fewer secrets ahead, whatever the two key versions are |
| SecretRotation.TotalMatchesIff | testing-environment-backend/src/secrets/secret-rotation.service.ts:59-67 | each attempt overwrites the total with what is still due: at completion total and progress agree exactly if no earlier attempt had rotated anything |
| Utf8.DecodeEncode | testing-environment-backend/src/artifacts/artifact-log-writer.service.ts:28-32 | decoding gives back the text that was encoded |
| Utf8.DecodeCut | testing-environment-backend/src/artifacts/artifact-log-writer.service.ts:29-32 | decoding a cut encoding gives the code points that are whole and one U+FFFD for the one the cut goes through |
| Utf8.TruncatedLength | testing-environment-backend/src/artifacts/artifact-utils.ts:19-28 | a text cut to n bytes takes n bytes again if the cut is between code points, and n + 3 minus the bytes left of the cut code point otherwise |
| LogWriter.LogStore.Append | testing-environment-backend/src/artifacts/artifact-log-writer.service.ts:16-43 | appending stores the message, what fits of it, a marker or nothing, as the specification gives |
| LogWriter.LogStore.CreateLimitMarker | testing-environment-backend/src/artifacts/artifact-log-writer.service.ts:78-88 | a zero-byte marker is added exactly if the source does not end in one |
| LogWriter.LogIsCapped | testing-environment-backend/src/artifacts/artifact-log-writer.service.ts:16-43 | over any sequence of messages no byte is lost up to the limit; beyond it the log ends at the limit or at most two bytes behind, for ASCII exactly at the limit; when it ends behind is `LogOvershootsIff` |
| LogWriter.OvershootHappens | testing-environment-backend/src/artifacts/artifact-log-writer.service.ts:27-40 | a log that ends two bytes behind its limit |
| LogWriter.LogOvershootsIff | testing-environment-backend/src/artifacts/artifact-log-writer.service.ts:27-40 | over any sequence of messages the log ends behind its limit exactly if the limit goes through a code point of a message, one or two bytes into it, and then by 3 bytes less those bytes; there is one such message at most |
| LogWriter.FullLogOnlyGainsMarkers | testing-environment-backend/src/artifacts/artifact-log-writer.service.ts:19-25 | once the limit is reached, any further messages add one empty marker for each source that writes and does not end in one, and nothing else |
| LogWriter.WritersEndInMarkers | testing-environment-backend/src/artifacts/artifact-log-writer.service.ts:19-25 | in a full log the last chunk of every source that has written since is empty and flagged |
| LogWriter.MarkersAreNotRepeated | testing-environment-backend/src/artifacts/artifact-log-writer.service.ts:78-88 | a source that ended in such a chunk gets no other one |
| LogWriter.LogIsNumbered | testing-environment-backend/src/artifacts/artifact-log-writer.service.ts:60-70 | the chunks of each source are numbered from 1 without gaps in the order they were written |
| LogWriter.FlagTellsTruncation | testing-environment-backend/src/artifacts/artifact-log-writer.service.ts:65-75 | a chunk not flagged as truncated holds its message unchanged; a flagged one never does, unless the message ends in U+FFFD |
| LogWriter.StoredChunk | testing-environment-backend/src/artifacts/artifact-log-writer.service.ts:27-75 | what is stored of a message: the bytes that fit, decoded, a preview of the first bytes of that, its size, its number, and a flag if either was cut |
| EventLog.LogIsGapless | testing-environment-backend/src/websocket/realtime.service.ts:141-174 | however transactions interleave and roll back, the committed events are numbered 1 to n without gaps and are only ever added to |
| EventLog.EventStore.PersistEvent | testing-environment-backend/src/websocket/realtime.service.ts:141-174 | an event gets the next number, or the failed transaction leaves no trace |
| EventLog.EventsAll | testing-environment-frontend/src/api/test-runs.api.ts:75-93 | paging by 500 through a log that may grow between pages ends, with what one unlimited query would have answered at the moment of the last page |
| EventLog.NewerContinues | testing-environment-backend/src/test-runs/test-runs.service.ts:223-227 | a query from the last event of a page continues exactly where that page broke off |
| EventLog.RecoveryIsContiguous | testing-environment-frontend/src/api/test-runs.api.ts:75-93 | over a growing log, what comes back is a contiguous range from the one asked for to an event at least as late as the last one at the start |
| EventLog.RecoveryFromWrites | testing-environment-frontend/src/api/test-runs.api.ts:75-93 | the same for the log that any interleaving of committed and rolled back transactions writes while the pages are read: growth and gaplessness are derived from the writes |
| Polling.Runner.ExecutePoll | testing-environment-backend/src/runner/runner-orchestrator.service.ts:649-695 | a poll ends; it is aborted exactly if one of the checks it made says so, and it makes two for each attempt and one in every slice of a pause; it passes exactly with its first passing reply otherwise, saves variables only then, times out only after the deadline with no reply passing, stays within its number of attempts, falls behind neither with attempts nor with checks, and makes no attempt only if the time is up at once |
| Polling.Runner.EvaluateRequestResult | testing-environment-backend/src/runner/runner-orchestrator.service.ts:761-829 | a reply passes exactly if there is no error, the status is the expected one, by default 200, and the body holds; only then are the variables saved, and all that are found |
| Polling.SavedIsFound | testing-environment-backend/src/runner/runner-orchestrator.service.ts:797-823 | a variable gets the last value found for it, and is left alone if none is found |
| Polling.Runner.Sleep | testing-environment-backend/src/runner/runner-orchestrator.service.ts:897-907 | a sleep ends; it checks once before each timer of at most 250 ms and is called off exactly if a check says so; otherwise it lasts at least its duration and hardly longer: by what its first and last readings of the clock and its last timer add |
| Polling.NextAttempt | testing-environment-backend/src/runner/runner-orchestrator.service.ts:679-683 | each failed attempt takes its interval and a millisecond, or reaches the deadline, or is past it |
| Polling.AttemptsAreBounded | testing-environment-backend/src/runner/runner-orchestrator.service.ts:663-683 | a poll makes at most floor(T / (I + 1)) + 2 attempts for timeout T and interval I |
| Polling.AttemptsAreMade | testing-environment-backend/src/runner/runner-orchestrator.service.ts:663-683 | a poll that times out made at least (T - d) / (I + 7 d) attempts and (T - d) / (250 + 3 d) checks, where readings of the clock, calls and the lateness of timers take at most d |
| Polling.WaitFor | testing-environment-backend/src/runner/healthcheck.service.ts:14-60 | the healthcheck ends; it passes with the first expected status, is aborted exactly if an abort comes at a point it reaches, reports the status of the last fetch that answered when the time is up, and makes fewer than timeoutSeconds + 1 attempts |
| Polling.ReachedMeans | testing-environment-backend/src/runner/healthcheck.service.ts:14-60 | what it means that a fetch is reached and that the healthcheck is called off at it |
| Verdict.TestRunner.ExecuteSuites | testing-environment-backend/src/runner/runner-orchestrator.service.ts:438-546 | statistics are returned exactly if every plan resolves and no step is called off or throws; then there is one result for every position of every plan whose step is not a sequence, in order and with its outcome, and the counts are those of the results; otherwise there is one for every step before the one, or before the plan, at which it stopped |
| Verdict.TestRunner.ExecuteSuite | testing-environment-backend/src/runner/runner-orchestrator.service.ts:453-543 | the same for the positions of one plan: statistics exactly if every step is run to its end, otherwise the results of all steps before the one that is called off or throws |
| Verdict.VerdictFollowsResults | testing-environment-backend/src/runner/runner-orchestrator.service.ts:346-361 | the total is passed plus failed, and the run is marked passed exactly if every result passed |
| Verdict.FallbackRunsSameSteps | testing-environment-backend/src/runner/runner-orchestrator.service.ts:555-567 | a compiled flow runs the steps of its stored plan; if that is unusable it runs its steps from the document one for one under the same suite name, each as it comes back; all of them unchanged exactly if versions and expectations are ones that survive |

## Left out

- RunStore.TestRunStore.Transition: both halves run without interruption, as a method does; interleaving is what `RunProtocol` is for.
- RunStore.TestRunStore.RecoverExpiredLeases: one sweep that no other actor interrupts, so that its completeness can be stated; the interleaved sweep is a sequence of operations of an actor in `RunProtocol`. The order in which the selected runs are marked is left open.
- RunPrograms.InterleavingsAreDisciplined: work between the calls, such as creating a workspace or running a step, is an arbitrary choice between going on and throwing; its effects other than on the row are left out.
- RunPromises.ErrorsEndTheRun: like the other results of its kind, one schedule; which category a message stands for is arbitrary.
- RunPrograms.LoneWorkerReachesVerdict: one schedule that gets there; it does not say that a scheduler takes it.
- TopoSort.SortNodes: steps are their ids here; the nodes are looked up by id afterwards, as the ids of a valid flow are distinct.
- YamlRoundTrip.ExportThenImport: the text of the document, its key order and the rounding of numbers are not modelled; seconds times a thousand is exact on reals.
- Polling.WaitFor: the report of a failed check keeps the last status and not the message text.
- Polling.Runner.EvaluateRequestResult: the body assertions are one arbitrary condition on the body; the stored assertion results and messages are not kept.
- LogWriter.LogStore.Append: appends of one run come one after another; overlapping ones could each find room for the same bytes. The rebuilt artifact is not modelled.
- SecretRotation.AttemptsKeep: nobody else writes secrets while a job runs, and one job runs at a time.
- EventLog.EventStore.PersistEvent: the payload and the timestamp of an event are left out.
- A claim without a lease and `markQueued`: no caller uses them.
- Reasons, messages, durations and queue job ids stored with a run; they decide nothing.
- Warnings of the compilers. The older compiler's checks are the newer one's, except that it accepts branching, takes unknown kinds of steps for requests, and accepts version 1.0 only.
- `continueOnFailure` and the retry policy at run time, which the runner does not read; only their round trip is real.
- Lone surrogates in log messages: they are encoded as U+FFFD before anything is counted.
- Byte limits that are not whole numbers, and overflow of counters.
- Creating rotation jobs and choosing the key to rotate from: one query and one insert.
- Docker, the file system, HTTP, Redis and the websocket transport; authorisation, masking and auditing of access.
- Environment dry runs: their phases are written unconditionally, so there is little to keep.
- All pages and generated clients of the frontend except the recovery of events.
- Flows in which an id, a name or another text is not a string; the compiler fails on them with a type error.
