# Spakky, verified

Dafny models of the parts of the Spakky framework whose behaviour is hardest to
read off the code, with proofs of what they promise. `dafny verify
dfyconfig.toml` checks all files.

| component | files |
|---|---|
| saga engine: retries, parallel groups, compensation, timeout, authorization | `Saga`, `SagaExecution`, `SagaProperties`, `SagaRetry`, `SagaNarrative`, `SagaRecovery` |
| streaming redaction with bounded buffering | `Redaction` |
| application context: index and resolution, instantiation, singleton cache, start and rollback | `Registry`, `Instantiation`, `Instances`, `TypeRepeats`, `Singletons`, `Lifecycle` |
| advice chains, transactions, event publishing | `Advice`, `AdviceOrder`, `HookAnswers`, `Transactions`, `CallResults`, `AspectProxy` |
| tool schemas and sensitivity metadata | `Schema`, `SchemaProperties`, `ToolSchemas`, `SensitiveMetadata` |
| agent restart planning and signal queue | `Recovery`, `RecoveryDecisions`, `Signals` |
| cache aspect, affected workspace packages | `Cache`, `Workspace` |

Code that changes state is modelled twice: as a function on values, which the
theorems are about, and as a class or method in the source's own form, which is
proved to compute that function. Whatever lies outside the code (actions,
compensations, hooks, publishers, factories, the clock) is an arbitrary answer
drawn from an environment, so each theorem covers every pattern of successes,
failures and interleavings.

Where promises fail, the model follows the code and states the exact condition:

- A saga timeout that fires during compensation compensates again from the
  start, so compensation is exactly once only if no compensation had completed
  (`SagaRecovery.TimeoutReplaysCompensation`).
- Streaming redaction equals one-shot redaction only for patterns that fit the
  buffer and replacements that cannot rebuild the pattern
  (`Redaction.StreamingIsExact`).
- Cycle detection compares types, not pods, and does not look into cached
  pods. What decides is whether a dependency path meets a type twice
  (`TypeRepeats.EveryRequestWorksIff`); otherwise the outcome can depend on the
  order of requests (`TypeRepeats.RequestOrderMatters`).
- A stop that raises during rollback blocks every later start
  (`Lifecycle.RollbackCompletesIff`, `Lifecycle.RaisingRollbackBlocksRestart`).
- Event publishing is documented as happening "after successful commit"; order 1
  inside order 0 puts it before the commit. `Transactions.DeliveredWithoutCommitIff`
  says exactly when events go out without a successful commit, and
  `Transactions.EventsOutliveFailedCommit` is such a run.
- A transaction whose body and rollback both raise is never disposed
  (`Transactions.DisposedUnlessRollbackRaised`).
- Sensitivity marks on dataclass fields behind a container are described but not
  attached to the schema (`SensitiveMetadata.MarksAreShownIffVisible`).
- The restart plan looks at the last boundary only, so it brings up every
  unfinished action exactly when at most that one is unfinished
  (`Recovery.PlanSurfacesAllIff`). A sequential driver always meets this
  (`Recovery.SequentialPlansSurfaceAll`), overlapping actions do not.
- When the core package changed, every package counts as changed. That is exact
  for every such change only if every package needs the core (`Workspace.ShortcutIsExactIff`).
- Caching is invisible exactly under the conditions of
  `Cache.TransparentIffSound`.

## Model

| member | source | states |
|---|---|---|
| `SagaRecovery.FailedRunRestoresWorld` | core/spakky-saga/src/spakky/saga/engine.py:162-257 | backward recovery: if, of the attempts that happened in the run, each compensable one that returned is undone by its compensation given the data the run ended with, the others had no effect and those of one group commute, then a run that reports FAILED leaves the outside world as it found it, for every flow, strategy mix and completion order |
| `SagaRecovery.ForwardReturns` | core/spakky-saga/src/spakky/saga/engine.py:162-188 | under that condition, after any part of the forward phase, compensating the remembered steps in reverse with the final data would lead back to the initial world |
| `SagaRecovery.UndoReturns` | core/spakky-saga/src/spakky/saga/engine.py:359-386 | a compensation phase changes neither data nor earlier trace, and one that completes rewinds the remembered steps with that data |
| `SagaRecovery.FaithfulIffStillNamed` | core/spakky-saga/src/spakky/saga/engine.py:366-380 | a compensation that cancels the booking the data names undoes the action that stored it there exactly when the final data still names it |
| `SagaRecovery.OrderIsIrrelevant` | core/spakky-saga/src/spakky/saga/engine.py:216-257 | two orders of the same commuting effects have the same result |
| `SagaRecovery.AnyOrderIsDeclarationOrder` | core/spakky-saga/src/spakky/saga/engine.py:216-257 | in particular the result of declaration order |
| `SagaRecovery.TimeoutReplaysCompensation` | core/spakky-saga/src/spakky/saga/engine.py:144-160 | when the saga timeout fires after n completed compensations, those n run a second time: compensation is exactly once if and only if n = 0, and n = 0 whenever the forward phase was cut |
| `SagaRecovery.CompensationCanRunTwice` | core/spakky-saga/src/spakky/saga/engine.py:144-160 | a concrete flow in which one compensation runs twice |
| `SagaRecovery.TimedOutRunRestoresWorld` | core/spakky-saga/src/spakky/saga/engine.py:144-160 | under the same condition a timeout that fired before the first completed compensation ends in the initial world |
| `SagaProperties.FailedRunsUndoInReverse` | core/spakky-saga/src/spakky/saga/engine.py:359-398 | a FAILED run undid exactly the committed compensable steps, each once, last first; its history is the forward history followed by those records |
| `SagaProperties.UndoIsLifo` | core/spakky-saga/src/spakky/saga/engine.py:359-386 | every compensation phase, completed or not: n undone in reverse order, at most one FAILED record after them, nothing further touched |
| `SagaProperties.RunIsConsistent` | core/spakky-saga/src/spakky/saga/engine.py:116-142 | after every run, however it ends, data, history, remembered steps and clock agree with a replay of the trace, and every event was allowed where it happened; recorded authorizations tell the truth |
| `SagaProperties.NothingStartsUnauthorized` | core/spakky-saga/src/spakky/saga/engine.py:259-270 | the event before every attempt, parallel child and compensation is an authorization of its own boundary that the rule of authorize_step grants for the data in force at the tick the run had reached |
| `SagaProperties.SnapshotPersists` | core/spakky-saga/src/spakky/saga/engine.py:400-406 | once the data holds an authorization snapshot it always does, and the same one unless an action supplied its own |
| `SagaProperties.SnapshotIsCarried` | core/spakky-saga/src/spakky/saga/engine.py:209-214 | at every point of a run that starts with a snapshot the data holds one, and that one as long as no action supplied its own |
| `SagaNarrative.RunDataIsHandedOver` | core/spakky-saga/src/spakky/saga/engine.py:162-214 | whatever a run does and however it ends, its data has the business fields of the last value that a serial step returned, or the initial ones, and the snapshot of the last value that brought one; groups, failed attempts, values without data and compensations leave it alone |
| `SagaNarrative.SerialStepIs` | core/spakky-saga/src/spakky/saga/engine.py:190-214 | a serial step told from what actions, sleeps and authorizations answer at each tick: its attempts fail until one decides; what data, records, compensations and clock it leaves; and how it ends, an exhausted retry with its own name and the error of its last attempt, an expired step with a step timeout |
| `SagaNarrative.GroupIs` | core/spakky-saga/src/spakky/saga/engine.py:216-257 | a group told the same way: data unchanged, one record per child in declaration order, survivors to be compensated, the first failed child reported, a cancelled child cutting the run off |
| `SagaNarrative.ForwardIs` | core/spakky-saga/src/spakky/saga/engine.py:162-188 | the forward phase is a path of such items, each but the last letting the run go on |
| `SagaNarrative.RunReports` | core/spakky-saga/src/spakky/saga/engine.py:162-188 | a run completes if and only if every item of the flow let it go on, and then it handled them all; a reported failure is that of the item it stopped at; a refused flow does nothing |
| `SagaNarrative.RunReportsIff` | core/spakky-saga/src/spakky/saga/engine.py:144-188 | each of the five ways to end a run, as an equivalence over the end of the forward phase, the saga timeout and the one or two compensation phases |
| `SagaNarrative.UndoIs` | core/spakky-saga/src/spakky/saga/engine.py:359-386 | a compensation phase from what compensations and authorizations answer: last first, one tick each, up to the first that is denied, raises or is cancelled; the failure handler is called last, exactly if there is one and a compensation was denied or raised |
| `SagaNarrative.FlowIsRefusedIff` | core/spakky-saga/src/spakky/saga/engine.py:452-541 | a flow is refused if and only if a child of a group is to be skipped or retried on error |
| `SagaNarrative.DeniedIff` | core/spakky-saga/src/spakky/saga/auth.py:53-94 | the exact condition under which a step is denied |
| `SagaRetry.RetryBound` | core/spakky-saga/src/spakky/saga/engine.py:293-357 | a serial step is attempted between once and max(1, max_attempts) times, commits at most once, continues exactly if committed or finally skipped; an exhausted retry slept base doubled max_attempts - 1 times, less base |
| `SagaRetry.TotalDelayClosed` | core/spakky-saga/src/spakky/saga/engine.py:315-357 | the backoffs slept before consecutive attempts telescope |
| `SagaRetry.DelayIsExponential` | core/spakky-saga/src/spakky/saga/strategy.py:24-33 | a delay doubled n times is base * 2^n |
| `SagaRetry.ParallelSettlesInOrder` | core/spakky-saga/src/spakky/saga/engine.py:216-257 | however children interleave, a group leaves the data alone, commits in declaration order, continues exactly if all returned and otherwise reports the first failure in declaration order |
| `SagaRetry.FirstFailureIsFirst` | core/spakky-saga/src/spakky/saga/engine.py:238-257 | the reported failure has no failed step before it |
| `Saga.AuthorizeStep` | core/spakky-saga/src/spakky/saga/auth.py:53-94 | a guarded step is allowed exactly when a non-empty snapshot is held and verified and every requirement allows it |
| `SagaExecution.SagaExecutor.Execute` | core/spakky-saga/src/spakky/saga/engine.py:116-160 | the imperative engine refines the specification of a whole run |
| `SagaExecution.SagaExecutor.ExecuteItems` | core/spakky-saga/src/spakky/saga/engine.py:162-188 | the item loop refines the forward phase, compensation and result |
| `SagaExecution.SagaExecutor.ExecuteSerialStep` | core/spakky-saga/src/spakky/saga/engine.py:190-214 | one serial step with its strategy |
| `SagaExecution.SagaExecutor.ApplyRetry` | core/spakky-saga/src/spakky/saga/engine.py:315-357 | the retry loop with backoff |
| `SagaExecution.SagaExecutor.InvokeStepAction` | core/spakky-saga/src/spakky/saga/engine.py:259-291 | authorization, then the action, with step timeout |
| `SagaExecution.SagaExecutor.ExecuteParallel` | core/spakky-saga/src/spakky/saga/engine.py:216-257 | starting, finishing in any order and settling a group |
| `SagaExecution.SagaExecutor.SettleChildren` | core/spakky-saga/src/spakky/saga/engine.py:238-257 | results are recorded in declaration order |
| `SagaExecution.SagaExecutor.RunCompensation` | core/spakky-saga/src/spakky/saga/engine.py:359-386 | the reversed compensation loop, stopping at the first failure |
| `SagaExecution.SagaExecutor.CommitStep` | core/spakky-saga/src/spakky/saga/engine.py:388-418 | data replacement with the snapshot preserved, record and remembering |
| `SagaExecution.SagaExecutor.Normalize` | core/spakky-saga/src/spakky/saga/engine.py:452-541 | a flow is accepted exactly when no parallel child has an error strategy of its own |
| `Redaction.StreamingIsExact` | core/spakky-agent/src/spakky/agent/safety.py:365-464 | for every chunking the emitted text equals one-shot redaction, the counts agree and the audit passes, if and only if the pattern has at most buffer_size + 1 characters and a finite check of the two configured strings succeeds |
| `Redaction.SoundImpliesFaithful` | core/spakky-agent/src/spakky/agent/safety.py:365-464 | the sufficient half, for each chunking |
| `Redaction.UnsoundFails` | core/spakky-agent/src/spakky/agent/safety.py:419-427 | the necessary half: every configuration outside the condition has a chunking that goes wrong |
| `Redaction.LongPatternLeaks` | core/spakky-agent/src/spakky/agent/safety.py:419-427 | a pattern that does not fit the buffer is emitted raw when its last character arrives alone |
| `Redaction.UnsafeReplacementFails` | core/spakky-agent/src/spakky/agent/safety.py:250-253 | a replacement that rebuilds the pattern next to untouched text breaks some chunking |
| `Redaction.RedactionResumes` | core/spakky-agent/src/spakky/agent/safety.py:412-427 | re-redacting the held-back text with new input gives the rest of the one-shot redaction |
| `Redaction.RunKeepsStep` | core/spakky-agent/src/spakky/agent/safety.py:377-385 | between any two pushes emitted plus buffered text is the redaction of all input so far |
| `Redaction.RedactionIsClean` | core/spakky-agent/src/spakky/agent/safety.py:250-253 | redaction under a safe replacement leaves no occurrence and is idempotent |
| `Redaction.MatchesFoundIffPresent` | core/spakky-agent/src/spakky/agent/safety.py:255-266 | no match is reported exactly when the pattern does not occur |
| `Redaction.PiecesRejoin` | core/spakky-agent/src/spakky/agent/safety.py:429-438 | cutting into emission chunks loses nothing, and every piece but the last has the configured size |
| `Redaction.SplitIsExact` | core/spakky-agent/src/spakky/agent/safety.py:429-438 | no chunk for no text, one chunk without a configured size, full pieces with one |
| `Redaction.SessionAccounts` | core/spakky-agent/src/spakky/agent/safety.py:377-417 | for every policy and chunking, exact or not: a finished session is closed, holds nothing back, knows its whole input, and the emitted length is that of the input but for the counted replacements |
| `Redaction.AuditTellsTheTruth` | core/spakky-agent/src/spakky/agent/safety.py:440-464 | in every state the audit passes if and only if the emitted text holds no copy of the pattern, and the missed matches are where it does |
| `Redaction.MatchesAreLeftmost` | core/spakky-agent/src/spakky/agent/safety.py:255-266 | reported matches are occurrences, do not overlap, and every occurrence overlaps one that starts no later |
| `Redaction.RedactionReplacesMatches` | core/spakky-agent/src/spakky/agent/safety.py:250-253 | redaction replaces exactly the reported matches and copies the rest |
| `Redaction.SeparatedReplacementIsSafe` | core/spakky-agent/src/spakky/agent/safety.py:250-253 | a non-empty replacement without the pattern whose end characters do not occur in it is always safe |
| `Redaction.DefaultReplacementIsSafe` | core/spakky-agent/src/spakky/agent/safety.py:12 | the default replacement is safe for every pattern without brackets that it does not contain |
| `Redaction.ErasingCanRebuild` | core/spakky-agent/src/spakky/agent/safety.py:250-253 | an empty replacement can leave a fresh occurrence behind |
| `Redaction.StreamingRedactionSession.Push` | core/spakky-agent/src/spakky/agent/safety.py:377-385 | push on an open session, refusal on a closed one |
| `Redaction.StreamingRedactionSession.Finish` | core/spakky-agent/src/spakky/agent/safety.py:387-464 | flush, audit and failure mode |
| `Redaction.StreamingRedactionSession.EmitSafePrefix` | core/spakky-agent/src/spakky/agent/safety.py:419-427 | only the prefix beyond buffer_size leaves the buffer |
| `Redaction.RedactStream` | core/spakky-agent/src/spakky/agent/safety.py:377-406 | a caller that pushes all chunks and finishes gets the one-shot redaction and a passed audit |
| `Registry.VerdictIsUnique` | core/spakky/src/spakky/core/application/application_context.py:331-438 | the declarative priority rule admits one verdict, so resolution cannot depend on set iteration order |
| `Registry.ChoiceHonoursSelectors` | core/spakky/src/spakky/core/application/application_context.py:331-438 | a chosen pod is a candidate and honours every explicit selector |
| `Registry.ApplicationRegistry.Resolve` | core/spakky/src/spakky/core/application/application_context.py:331-438 | single resolution gives a verdict of the declarative rule over a scan of all pods |
| `Registry.ApplicationRegistry.ResolveOpen` | core/spakky/src/spakky/core/application/application_context.py:395-438 | sole candidate, sole primary, parameter name, else ambiguity |
| `Registry.ApplicationRegistry.ResolveBinding` | core/spakky/src/spakky/core/application/application_context.py:297-314 | the pods an explicit binding selects |
| `Registry.ApplicationRegistry.ResolveCollection` | core/spakky/src/spakky/core/application/application_context.py:316-329 | exactly the qualified candidates, in name order |
| `Registry.ApplicationRegistry.Add` | core/spakky/src/spakky/core/application/application_context.py:923-960 | registration keeps the type index equal to a scan; duplicates are ignored or refused |
| `Registry.ApplicationRegistry.Bind` | core/spakky/src/spakky/core/application/application_context.py:962-966 | a binding is accepted exactly when it names one kind of implementation |
| `Registry.ApplicationRegistry.ClearAll` | core/spakky/src/spakky/core/application/application_context.py:682-691 | clearing empties pods, index and bindings together |
| `Registry.ScanAfterAdd` | core/spakky/src/spakky/core/application/application_context.py:923-960 | what adding a pod changes in the scan of each type |
| `Registry.NamedIsAtMostOne` | core/spakky/src/spakky/core/application/application_context.py:331-438 | a name matches at most one candidate |
| `Registry.SortedIsUnique` | core/spakky/src/spakky/core/application/application_context.py:316-329 | the injected collection is determined by its members |
| `Registry.PrecedesIsLexicographic` | core/spakky/src/spakky/core/application/application_context.py:316-329 | name order is that of strings |
| `TypeRepeats.EveryRequestWorksIff` | core/spakky/src/spakky/core/application/application_context.py:440-535 | with resolvable dependencies and working factories, every pod that a pod reaches can be obtained from fresh caches if and only if no dependency path from it meets a type twice, whatever the scopes |
| `TypeRepeats.WithoutOpenRepeatSucceeds` | core/spakky/src/spakky/core/application/application_context.py:440-569 | in every cache state, a request succeeds if no dependency path through uncached pods meets a type twice |
| `TypeRepeats.OwnTypeFails` | core/spakky/src/spakky/core/application/application_context.py:458-473 | an uncached pod that depends, however indirectly, on a pod of its own type cannot be obtained while no cached pod reaches that type |
| `TypeRepeats.PrototypeRepeatFails` | core/spakky/src/spakky/core/application/application_context.py:440-569 | a repeating path of prototypes fails whatever is cached |
| `TypeRepeats.PrototypesWorkIff` | core/spakky/src/spakky/core/application/application_context.py:440-569 | where repeating paths are prototypes a request succeeds if and only if there is none |
| `TypeRepeats.BuildsExactlyTheAcyclic` | core/spakky/src/spakky/core/application/application_context.py:440-535 | corollary: with one pod per type a repeat is a cycle, so a request succeeds if and only if the pod reaches none, as long as the caches hold no pod that does |
| `TypeRepeats.TwinsAreWired` | core/spakky/src/spakky/core/application/application_context.py:331-438 | two factories of one type, one depending on the other, are such an input: the registry of these two pods resolves to that graph |
| `TypeRepeats.RequestOrderMatters` | core/spakky/src/spakky/core/application/application_context.py:537-569 | for two singletons of one type the same request fails first and succeeds once the other was obtained |
| `Instantiation.CyclicPodsAreNeverBuilt` | core/spakky/src/spakky/core/application/application_context.py:440-569 | a pod that reaches a cycle never yields an instance and is never cached |
| `Instantiation.CircularErrorIsReal` | core/spakky/src/spakky/core/application/application_context.py:458-473 | a circular-dependency error exhibits a real dependency path that repeats a type |
| `Instantiation.ErrorsAreReal` | core/spakky/src/spakky/core/application/application_context.py:458-526 | every resolution error has a real cause: a path that repeats a type, or one to a pod with a dependency that cannot be resolved or, being mandatory, filled |
| `Instantiation.FactoryFailureIffCallFailed` | core/spakky/src/spakky/core/application/application_context.py:527-535 | a request fails with a factory failure if and only if a factory it called failed, which was then its last call |
| `Instances.SameInstanceIffSamePod` | core/spakky/src/spakky/core/application/application_context.py:537-569 | over any sequence of requests: once a singleton or context pod was obtained every later request answers the same instance and calls no factory; any other two answers are different instances |
| `Instances.EveryCallIsWired` | core/spakky/src/spakky/core/application/application_context.py:474-535 | every factory call was given, for each dependency in order, instances of exactly the pods it resolved to: the cached one of a singleton or context pod, and of a prototype one that no other factory and no caller was given |
| `Instances.GetAnswers` | core/spakky/src/spakky/core/application/application_context.py:537-569 | a request rebinds nothing that is cached, caches nothing of a type under construction, and answers the cached instance or a new one |
| `TypeRepeats.SameTypeIsMistakenForCycle` | core/spakky/src/spakky/core/application/application_context.py:458-473 | a registered pod that depends on another of its own type is rejected as circular although there is no cycle |
| `Instantiation.WiredGraphIsClosed` | core/spakky/src/spakky/core/application/application_context.py:440-602 | every graph that resolution produces from a registry is one on which instantiation terminates |
| `Instantiation.BuildGraph` | core/spakky/src/spakky/core/application/application_context.py:475-507 | resolving every dependency of a valid registry gives its graph |
| `Instantiation.PodContainer.GetPodInstance` | core/spakky/src/spakky/core/application/application_context.py:537-569 | cache lookup by scope, instantiation and caching |
| `Instantiation.PodContainer.InstantiatePod` | core/spakky/src/spakky/core/application/application_context.py:440-535 | cycle check, dependency injection and construction |
| `Instantiation.PodContainer.InjectDependencies` | core/spakky/src/spakky/core/application/application_context.py:474-526 | dependencies are resolved in declaration order until one fails |
| `Instantiation.PodContainer.CollectInstances` | core/spakky/src/spakky/core/application/application_context.py:571-602 | every member of a collection dependency is obtained in turn |
| `Singletons.OneInstancePerSingleton` | core/spakky/src/spakky/core/application/application_context.py:537-569 | under every interleaving of threads each singleton is published at most once and every caller gets that instance |
| `Singletons.MutualExclusion` | core/spakky/src/spakky/core/application/application_context.py:537-569 | at most one thread is between lock and unlock |
| `Singletons.LockIsNeverLeaked` | core/spakky/src/spakky/core/application/application_context.py:537-569 | the lock is only ever held by a thread that is still inside a locked request |
| `Singletons.RunKeepsSafe` | core/spakky/src/spakky/core/application/application_context.py:725-729 | the safety invariant holds after every enabled interleaving |
| `Singletons.DifferentPodsDifferentInstances` | core/spakky/src/spakky/core/application/application_context.py:537-569 | under every interleaving two answers are the same instance if and only if they are for the same pod |
| `Singletons.NobodyIsStuck` | core/spakky/src/spakky/core/application/application_context.py:545-556 | under every interleaving a thread with a request can go on, or waits for a lock whose holder can |
| `Singletons.CachedPodNeedsNoLock` | core/spakky/src/spakky/core/application/application_context.py:544-546 | a cached pod is answered without the lock, whoever holds it |
| `Singletons.UncachedPodIsBuilt` | core/spakky/src/spakky/core/application/application_context.py:547-556 | with the lock free an uncached pod is built once, published and answered, and the lock given back |
| `Lifecycle.FailedStartRollsBack` | core/spakky/src/spakky/core/application/application_context.py:990-1077 | whichever phase or service fails, exactly the started services are stopped, once each, in reverse order, and the context is as before but for emptied caches and post-processors |
| `Lifecycle.RollbackCompletesIff` | core/spakky/src/spakky/core/application/application_context.py:693-723 | a failed start rolls back completely if and only if none of the stops it makes raises |
| `Lifecycle.StartRunsIff` | core/spakky/src/spakky/core/application/application_context.py:990-1077 | for every context: a start succeeds if and only if the context was idle, both phases were ok and every service start returned; it then started exactly the old and added services, sync then async, in order, and the context holds all it had and all that was added |
| `Lifecycle.SecondStartIsRefused` | core/spakky/src/spakky/core/application/application_context.py:1003-1004 | a start is refused exactly if the context is marked as started, and then does nothing |
| `Lifecycle.RaisedRollbackLeaves` | core/spakky/src/spakky/core/application/application_context.py:693-723 | a rollback in which a stop raises made the stops up to that one and leaves the context as far as the start had come |
| `Lifecycle.CanStartAgain` | core/spakky/src/spakky/core/application/application_context.py:990-1077 | after a rolled-back start the context starts again, runs every service and holds everything |
| `Lifecycle.RaisingRollbackBlocksRestart` | core/spakky/src/spakky/core/application/application_context.py:693-723 | a stop that raises leaves the context marked as started, so starting again is refused |
| `Sequences.ReversedKeeps` | core/spakky/src/spakky/core/application/application_context.py:693-723 | stopping in reverse stops each started service exactly once, the last first |
| `Lifecycle.ApplicationContext.StartContext` | core/spakky/src/spakky/core/application/application_context.py:990-1077 | the imperative start refines the specification |
| `Lifecycle.ApplicationContext.RunServices` | core/spakky/src/spakky/core/application/application_context.py:810-844 | sync then async services are started until one raises |
| `Lifecycle.ApplicationContext.RollbackFailedStart` | core/spakky/src/spakky/core/application/application_context.py:693-723 | stops, truncation of the service lists and clearing |
| `AdviceOrder.AdviceIsNested` | core/spakky/src/spakky/core/aop/advisor.py:38-63 | every run of every chain, whatever each hook raises and however often around proceeds, is accepted by a stack monitor that demands proper nesting in chain order, after_raising exactly for Exceptions of around or after_returning, after last, and the outcome the language rules give |
| `AdviceOrder.AfterRunsOncePerBefore` | core/spakky/src/spakky/core/aop/advisor.py:54-63 | after runs exactly once for each before that returned |
| `AdviceOrder.ExecObeys` | core/spakky/src/spakky/core/aop/advisor.py:38-63 | the same from any point of a surrounding run |
| `HookAnswers.EveryEventIsTrue` | core/spakky/src/spakky/core/aop/advisor.py:38-63 | in every run of every chain each event holds what hooks, publisher, transaction and target answered at its place |
| `CallResults.AroundAnswers` | core/spakky/src/spakky/core/aop/advisor.py:54-57 | a plain around calls on as often as it plans, one call after the other, and answers what it makes of their answers in order |
| `Transactions.TransactionsAreKept` | core/spakky-data/src/spakky/data/persistency/transaction.py:21-44 | in every run of every chain with one transactional aspect around all publishing: publication only between initialize and commit, commit only after a body that returned, rollback only after one that raised or a commit that did, never both completed, and each transaction disposed or leaked exactly once |
| `Transactions.DisposedUnlessRollbackRaised` | core/spakky-data/src/spakky/data/persistency/transaction.py:27-44 | leaving a transaction disposes it exactly once, except never when both the body and the rollback raised |
| `Transactions.CommitMeansPublished` | core/spakky-event/src/spakky/event/aspects/transactional_event_publishing.py:64-77 | around any chain of plain aspects: due events are delivered up to the first whose publication raises, none if the body raised; a commit is attempted if and only if all were and autocommit is on, and succeeds if and only if it moreover returns; whatever else went wrong rolls back; the collector ends empty; if initialize raises nothing happens |
| `Transactions.DeliveredWithoutCommitIff` | core/spakky-event/src/spakky/event/aspects/transactional_event_publishing.py:64-71 | events are delivered without a successful commit if and only if initialize and body returned, something was due, its first publication returned, and a later one raised, autocommit is off or the commit raised |
| `Transactions.EventsOutliveFailedCommit` | core/spakky-data/src/spakky/data/persistency/transaction.py:37-44 | a run in which the event is delivered and the commit then raises, so that a rollback follows |
| `CallResults.CallerGets` | core/spakky-data/src/spakky/data/persistency/transaction.py:27-44 | what the caller of a transactional method gets, around any chain of plain aspects: a value if and only if initialize, body, every due publication, the commit if there is one and dispose returned, and it is the body value; otherwise the failure of dispose, else rollback, else commit, publication or body |
| `CallResults.LastFailureWins` | core/spakky-data/src/spakky/data/persistency/transaction.py:27-44 | for any body: its result if nothing failed after it, and otherwise the failure of the last publication or step of the transaction that did |
| `CallResults.CallLeavesPending` | core/spakky-event/src/spakky/event/aspects/transactional_event_publishing.py:64-71 | what is left pending: nothing collected if every publication returned, everything if the body raised, and in any case all events of an aggregate or, once all went out, none |
| `CallResults.BodyRaises` | core/spakky-event/src/spakky/event/aspects/transactional_event_publishing.py:64-71 | the events due are those an aggregate held, then those the method raised on it, in order |
| `Transactions.OutgoingIsOnceEach` | core/spakky-event/src/spakky/event/aspects/transactional_event_publishing.py:64-71 | an aggregate collected several times is published once, at its first place |
| `Transactions.PublishingConcludes` | core/spakky-event/src/spakky/event/aspects/transactional_event_publishing.py:64-77 | the call returns exactly when everything due was delivered |
| `AspectProxy.SmallestOrderIsOutermost` | core/spakky/src/spakky/core/aop/post_processor.py:128-136 | a chain holds exactly the matching aspects, the smallest order outermost |
| `AspectProxy.ChainIsDetermined` | core/spakky/src/spakky/core/aop/post_processor.py:128-136 | orders ascend inwards, and of the matching aspects of one order each is there once, the last registered outermost |
| `AspectProxy.SortIsStable` | core/spakky/src/spakky/core/aop/post_processor.py:128-136 | the sort permutes, descends and keeps equals in place |
| `AspectProxy.BuiltChainsKeepTransactions` | core/spakky-data/src/spakky/data/aspects/transactional.py:65-83 | with transaction order 0 and publishing order 1 every built chain keeps the transaction protocol in every run |
| `AspectProxy.AspectProxyHandler.Call` | core/spakky/src/spakky/core/aop/post_processor.py:46-64 | a call through the proxy behaves as the freshly built chain, cached or not |
| `AspectProxy.AspectProxyHandler.BuildRunnable` | core/spakky/src/spakky/core/aop/post_processor.py:55-63 | the wrapping loop builds the chain |
| `AspectProxy.AspectProxyHandler.Invoke` | core/spakky/src/spakky/core/aop/advisor.py:38-63 | the imperative advisor refines the chain semantics |
| `AspectProxy.AspectProxyHandler.Settle` | core/spakky/src/spakky/core/aop/advisor.py:55-63 | try, except and finally after around |
| `AspectProxy.AspectProxyHandler.InvokeAround` | core/spakky-data/src/spakky/data/aspects/transactional.py:79-83 | around by kind of aspect, the transaction included |
| `AspectProxy.AspectProxyHandler.LeaveTransaction` | core/spakky-data/src/spakky/data/persistency/transaction.py:27-44 | commit, rollback and dispose |
| `AspectProxy.AspectProxyHandler.PublishCollected` | core/spakky-event/src/spakky/event/aspects/transactional_event_publishing.py:64-71 | the publishing loop over collected aggregates |
| `AspectProxy.AspectProxyHandler.PublishAggregate` | core/spakky-event/src/spakky/event/aspects/transactional_event_publishing.py:69-70 | the publishing loop over one aggregate |
| `SchemaProperties.CompiledSchemaIsExact` | core/spakky-agent/src/spakky/agent/tooling.py:713-758 | the schema compiled from an annotation accepts a JSON value if and only if it encodes a value of that type |
| `SchemaProperties.CompilesIffSupported` | core/spakky-agent/src/spakky/agent/tooling.py:713-758 | compilation fails on exactly the annotations with Any, an unknown type, non-string keys or non-primitive enum values somewhere |
| `SchemaProperties.DataclassIsExact` | core/spakky-agent/src/spakky/agent/tooling.py:890-921 | properties, required and additionalProperties together mean the dataclass |
| `SchemaProperties.TupleIsExact` | core/spakky-agent/src/spakky/agent/tooling.py:813-838 | prefixItems with both bounds means the tuple |
| `SchemaProperties.UnionIsExact` | core/spakky-agent/src/spakky/agent/tooling.py:783-797 | anyOf means the union |
| `SchemaProperties.MappingIsExact` | core/spakky-agent/src/spakky/agent/tooling.py:841-857 | additionalProperties means the mapping |
| `SchemaProperties.EnumExact` | core/spakky-agent/src/spakky/agent/tooling.py:860-873 | enum, and type where present, means the enum |
| `ToolSchemas.InputSchemaIsExact` | core/spakky-agent/src/spakky/agent/tooling.py:645-675 | an arguments object is accepted exactly when it names only parameters other than the receiver, gives all without default, and each value is of its type; the schema carries its title |
| `ToolSchemas.InputSchemaExistsIff` | core/spakky-agent/src/spakky/agent/tooling.py:645-675 | there is an input schema if and only if every such parameter is an ordinary one with a supported annotation |
| `ToolSchemas.BuildInputSchema` | core/spakky-agent/src/spakky/agent/tooling.py:645-675 | the parameter loop computes that schema, with its error cases |
| `ToolSchemas.BuildDataclassSchema` | core/spakky-agent/src/spakky/agent/tooling.py:890-921 | the field loop computes the compiled dataclass |
| `ToolSchemas.BuildEnumSchema` | core/spakky-agent/src/spakky/agent/tooling.py:860-873 | the member loop computes the enum schema |
| `ToolSchemas.TitleIsIgnored` | core/spakky-agent/src/spakky/agent/tooling.py:678-692 | a title does not change what a schema accepts |
| `ToolSchemas.MetadataKeepsAcceptance` | core/spakky-agent/src/spakky/agent/safety.py:479-490 | attaching sensitivity metadata never changes what a schema accepts |
| `ToolSchemas.MarkLandsAtPath` | core/spakky-agent/src/spakky/agent/safety.py:549-571 | a mark is appended at its path if the path resolves, and nothing changes if it does not |
| `ToolSchemas.EveryMarkStays` | core/spakky-agent/src/spakky/agent/safety.py:479-490 | after all descriptors every path that resolves holds its old marks and then all meant for it, in order |
| `SensitiveMetadata.MarksAreShownIffVisible` | core/spakky-agent/src/spakky/agent/tooling.py:761-773 | every mark of an annotation finds its place in the compiled schema if and only if no list, tuple, mapping or union hides a marked dataclass field |
| `SensitiveMetadata.DescribesExactlyItsMarks` | core/spakky-agent/src/spakky/agent/tooling.py:713-758 | compiling describes exactly the marks an annotation carries, each with the path of field names to it |
| `SensitiveMetadata.InputDescribesExactlyItsMarks` | core/spakky-agent/src/spakky/agent/tooling.py:645-675 | the same for the parameters of a tool |
| `SensitiveMetadata.ListOfSecrets` | core/spakky-agent/src/spakky/agent/tooling.py:800-810 | a list of records with one sensitive field is such a case |
| `Recovery.GuardedActionsRunOncePerApproval` | core/spakky-agent/src/spakky/agent/recovery.py:236-293 | whatever crashes, restarts and other evidence come between, a sequential driver that follows the plan runs a non-idempotent, unknown or approval action at most once plus once per human approval, and runs actions in order |
| `Recovery.PlayKeeps` | core/spakky-agent/src/spakky/agent/recovery.py:236-293 | an action recorded as ended never runs again |
| `Recovery.OnlyLastBoundaryMatters` | core/spakky-agent/src/spakky/agent/recovery.py:296-303 | the plan depends on the last boundary record alone |
| `RecoveryDecisions.PlanDecides` | core/spakky-agent/src/spakky/agent/recovery.py:236-293 | the decision and the resulting state as equivalences over the status and the last boundary record: not resumable, start, error, skip, retry or hand to a human |
| `RecoveryDecisions.ReadsIffSpelled` | core/spakky-agent/src/spakky/agent/recovery.py:306-346 | a record reads as a boundary if and only if its payload spells it out |
| `RecoveryDecisions.CutActionIsRetried` | core/spakky-agent/src/spakky/agent/recovery.py:274-287 | in every run an action cut off while under way that may run again is about to begin again after recovery, without an approval |
| `RecoveryDecisions.EveryRunCanFinish` | core/spakky-agent/src/spakky/agent/recovery.py:236-293 | from every point of every run of a live agent the script can be carried to its end, and without approvals if no action is guarded |
| `Recovery.PlanSurfacesAllIff` | core/spakky-agent/src/spakky/agent/recovery.py:236-293 | for an agent that is not finished and readable evidence: a plan brings up every action that began and did not end if and only if the only one there is, if any, is that of the last boundary |
| `Recovery.SequentialPlansSurfaceAll` | core/spakky-agent/src/spakky/agent/recovery.py:236-293 | at every point of every run of a sequential driver a plan brings up every unfinished action |
| `Recovery.OverlappingActionIsForgotten` | core/spakky-agent/src/spakky/agent/recovery.py:262-268 | with overlapping actions an end record hides an unfinished one, and the plan passes it over |
| `Recovery.CheckpointRoundTrip` | core/spakky-agent/src/spakky/agent/recovery.py:182-198 | a checkpoint reads back as it was written |
| `Recovery.FindLastBoundary` | core/spakky-agent/src/spakky/agent/recovery.py:296-303 | the backward search finds the last boundary, or the error of a corrupt one |
| `Signals.DeliveryIsFifoAndExact` | core/spakky-agent/src/spakky/agent/signal_consumption.py:38-70 | over every history of appends and polls, delivered followed by pending is exactly what was sent to a state |
| `Signals.MarkAllTakes` | core/spakky-agent/src/spakky/agent/signal_consumption.py:64-70 | taking a batch moves it from the head of pending to the end of taken |
| `Signals.PollKeeps` | core/spakky-agent/src/spakky/agent/signal_consumption.py:57-70 | a poll keeps every state in turn and touches no other state |
| `Signals.SelectConsumablePrefix` | core/spakky-agent/src/spakky/agent/signal_consumption.py:73-86 | the longest prefix that is accepted and within the cap |
| `Signals.SignalRepository.ConsumePending` | core/spakky-agent/src/spakky/agent/signal_consumption.py:38-70 | validation, selection and marking one by one |
| `Signals.SignalRepository.ListPending` | core/spakky-agent/src/spakky/agent/interfaces/repository.py:48-51 | the unconsumed signals of a state in append order |
| `Signals.SignalRepository.MarkConsumed` | core/spakky-agent/src/spakky/agent/interfaces/repository.py:53-56 | one signal is marked, nothing else changes |
| `Cache.TransparentIffSound` | core/spakky-cache/src/spakky/cache/aspects/cache_aspect.py:57-104 | calls through the aspect are indistinguishable from direct calls, in every history on every data with expiry at any time, if and only if keys and capabilities work, equal keys mean equal results and every change evicts what it makes stale |
| `Cache.SoundAnswers` | core/spakky-cache/src/spakky/cache/aspects/cache_aspect.py:57-104 | the sufficient half, from any coherent store |
| `Cache.TransparentCovers` | core/spakky-cache/src/spakky/cache/aspects/cache_aspect.py:64-73 | the necessary half for eviction: an uncovered or raising change is observable |
| `Cache.TransparentSeparates` | core/spakky-cache/src/spakky/cache/aspects/cache_aspect.py:29-44 | the necessary half for keys: a collision is observable |
| `Cache.TransparentWorks` | core/spakky-cache/src/spakky/cache/aspects/cache_aspect.py:69-86 | the necessary half for key generation and backend capabilities |
| `Cache.CachedUntilExpiry` | core/spakky-cache/src/spakky/cache/aspects/cache_aspect.py:74-104 | a result is answered from the cache exactly until its time to live has passed, whatever calls under other keys and tags come between |
| `Cache.RefusalsAreExact` | core/spakky-cache/src/spakky/cache/aspects/cache_aspect.py:57-86 | which error a call ends with, when, and what has happened by then |
| `Cache.CacheAspect.Invoke` | core/spakky-cache/src/spakky/cache/aspects/cache_aspect.py:57-104 | the imperative aspect refines the specification |
| `Workspace.GetDependentPackages` | scripts/lib/workspace.py:182-210 | the worklist ends on every graph, cycles included, with exactly the reachable packages |
| `Workspace.BuildReverseGraph` | scripts/lib/workspace.py:162-179 | the transposed dependency relation |
| `Workspace.GetChangedPackages` | scripts/lib/git.py:123-156 | the affected packages in workspace order, or all when the core changed; on both branches exactly the affected ones if every package needs the core |
| `Workspace.ReachedIffAffected` | scripts/lib/workspace.py:182-210 | reachable in the reverse graph means depending on a changed package |
| `Workspace.ShortcutIsExactIff` | scripts/lib/git.py:146-149 | returning everything is exact for every change of the core if and only if every package is or transitively needs the core |
| `Workspace.CoreAffectsAll` | scripts/lib/git.py:146-149 | if every package needs the core, a change that includes it affects all |
| `Workspace.UnaffectedPackageIsReturned` | scripts/lib/git.py:146-149 | a workspace in which the shortcut returns a package the change does not affect |

## Left out

- Redaction: one literal pattern; regular expressions, replacement templates and several interacting patterns depend on a foreign library.
- Guarding of JSON values (`guard_json_value`), masking policies and evidence metadata are not modelled.
- SagaExecution.SagaExecutor.ExecuteParallel: a group cut by the saga timeout, whose effects the source documents as not compensated, is not modelled.
- SagaExecution.SagaExecutor.RunCompensation: the compensation failure handler is taken to return; one that raises, whose error then replaces the one about the compensation, is not modelled.
- SagaExecution.SagaExecutor.Normalize: works on steps already normalized; it does not model the refusal of items that are no step, transaction, group or callable, nor where names and boundaries are read from.
- SagaExecution: asyncio scheduling, wall-clock time and logging are reduced to an order of completions, outcomes and the backoffs slept.
- Saga.AuthorizeStep: does not model how each kind of requirement is evaluated; the answer of each is an input.
- Singletons: instances are taken not to be None; the code treats a None instance as absent, so a factory that returns None is called and published again. The clearing of caches while threads run and context-scoped pods are not modelled.
- Instantiation: does not model post-processors that re-enter the container, forward references or factories that change the registry.
- TypeRepeats.WithoutOpenRepeatSucceeds: is one direction; a pod built earlier in the same request can hide a repeat, so in a given cache state the outcome also depends on the order of dependencies. The exact conditions are those of `TypeRepeats.EveryRequestWorksIff` and `TypeRepeats.PrototypesWorkIff`.
- Lifecycle: does not model `stop`, whose loop has no rollback, nor tags beyond the registrations it must not change.
- Advice: does not model the asynchronous twins of advisor, transaction and publishing aspect, which have the same branches.
- Transactions.CommitMeansPublished: is stated for the transactional aspect directly around the publishing one, as their orders 0 and 1 put them; an aspect ordered between them is covered by `Transactions.TransactionsAreKept`.
- Schema: annotations are finite trees; recursive dataclasses, on which the source does not return, and type-hint resolution errors are not modelled.
- ToolSchemas.Attach: works on values; it does not capture which dictionaries of the original schema are shared with the copy.
- Recovery.PlanResume: leaves out the signals that a plan passes through unchanged.
- Recovery.GuardedActionsRunOncePerApproval: assumes a driver that runs one action at a time and follows the plan, as the code assistant example does.
- Signals: the queue is the one its port describes; storage adapters and several consumers of one state at the same time are not modelled.
- Cache: cacheable methods only read; a stampede-protected backend is modelled by its result, not by its lock, and format strings by the key they give.
- Workspace: reading project files and running git are inputs.
- Outbox relay, repositories, cryptography, web and task-queue integrations, reflection helpers and command-line scripts are not part of this model.
