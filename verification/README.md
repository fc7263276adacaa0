# Routine platform: a verified model

Routines are lists of actions in numbered steps. A run of a routine (an *execution*) is driven by
the routine service: it dispatches the actions of one step, waits for their results, and goes on to
the next step until everything is done or something failed. Workers receive requests through a
transactional outbox and a message broker with retries, and answer the same way, so triggers and
results may be duplicated, reordered and delayed.

This project models that machinery in Dafny and proves what it promises:

- **The engine** (`Progress`, `Control`, `Store`, `Engine`, `EngineService`): decisions, tables, template
  scope and `#advance` with all its branches. `Engine` states each transaction as a function on the tables
  and on the list of rows in memory; the class `EngineService.ExecutionEngine` performs it in place, loop by
  loop, and is proved against those functions.
- **Why a transaction is right** (`RowInvariants`, `AdvanceLoop`, `Issues`, `Invariants`, `Transactions`,
  `Evolution`, `Endings`, `Recursion`, `Idempotency`): termination, the step barrier, exact accounting of messages
  and calls, monotone history, truthful end events, bounded recursion, one execution per key.
- **What it does, exactly** (`Outcomes`, `Results`): what becomes of an action at its turn, case by case on the tables, and what a
  reported retry, failure, success or late result leaves.
- **Whole runs** (`Network`, `Runs`): the engine among outbox, queues, retry queues and dead-letter queues.
- **What one turn means for later ones** (`Turns`, `Requests`, `Consequences`), over every run: requests carry the params of their
  action resolved at its turn, conditions decide what waits for them, repetitions see their items, called runs their input,
  later templates the variables.
- **Order does not matter** (`Similarity`, `Confluence`): results of a step commute.
- **Memory against the table** (`Rereading`, `Assignments`, `FinishTimes`, `Overtaking`, `Faithful`, `OvertakenRun`): what is
  read from memory is what the table says, and exactly when not.
- **Templates and validation** (`Templates`, `Interpolation`, `Definition`, `Soundness`, `Lookups`): what a template text becomes;
  `validateRoutine` accepts exactly what its rules say, and what it accepts refers only to what has been decided when it is dispatched.
- **What finished work shows** (`Exposure`): loop outputs in item order, and the variables of a called routine in the
  templates of its caller.
- **Delivery** (`Outbox`, `Broker`, `Worker`, `Consumers`): the relay, the broker's attempt and acknowledgement discipline,
  the claim with a lease, and idempotent consumers. Broker, worker and task consumer are state machines whose
  runs carry the results; classes beside them perform one call in place, and those of broker and worker are
  proved to be steps of their machines.
- **Two inverse laws and a hash** (`Lanes`, `Cron`, `Sha256`) of the web client.

## How to read the model

An execution's id is its index in the table of executions, a row's id its insertion index within the
execution. JSON values are a datatype with finite maps and real numbers. One transaction is one atomic
step, because each locks its execution row; it sees one clock reading. The outbox log of `Engine` and
`Network` lists every message ever enqueued, and a set of indices says which are marked as published.
A run of the system (`Network.IsRun`) starts from empty tables and takes any enabled events in any order;
acknowledgements may be lost, copies may be moved between queues at will.

What is taken as given is in `Control.Env`: the comparison and arithmetic of the scripting evaluators, how
values are rendered as text, identifiers and dates as text, and the waiting threshold.

## Where the code differs from its documentation or needs a hypothesis

The model follows the code.

- Children of a loop do not sort right after their parent (`store.ts:279`): position
  `(position + 1) * 1000 + index` (`store.ts:286`) puts them after all author rows of the step.
- `finished_at` is not mirrored in memory when a row completes (`engine.ts:340`), while variables are ordered
  by it. A variable then reads differently in memory and in the table exactly when it is overtaken
  (`Overtaking.VariableReadsExactly`): only in a routine that sets it plainly and in a loop in one step that also
  sends or calls something (`Overtaking.OvertakenIsMixed`). There is a run in which it happens
  (`OvertakenRun.MemoryMayDisagree`); everything else read from memory is always what the table says.
- A looped `condition.if` has output `{count}`, so nothing that depends on it ever runs
  (`Soundness.LoopedConditionNeverMet`, `Soundness.RunIfOnLoopSkips`). Validation accepts such routines.
- The worker's lease release is not tied to its holder (`Worker.LateReleaseFreesOthers`), and exclusion holds exactly
  as long as no run is past its lease (`Worker.ExclusionExactly`).
- A claim needs `lease_until < now()`, strictly, so delays that sum to exactly the remaining lease do not suffice
  (`Worker.GivenUpExactly`); the defaults of 60 s and 21 s are far from it (`Worker.DefaultsGiveUpEarly`).
- Validation accepts `{{input}}` in any routine, but it is found only in called runs, and `{{trigger.body…}}` only
  as far as the call carried it (`Lookups.ReadsAreExact`).
- The sweeper compares with `<` and the engine with `>=`; they differ at the instant of the deadline
  (`Runs.SweeperAgreesWithEngine`).

## Model

| member | source | states |
|---|---|---|
| Runs.RunsEvolve | services/routine-service/src/engine.ts:161-231 | between any two states of a run nothing disappears: executions and rows keep what they were created with, terminal statuses and the outputs recorded with them never change, the outbox log only grows |
| Runs.RowActsOnceInEveryRun | services/routine-service/src/engine.ts:239-371 | in every reachable state a row has caused at most one ActionRequested or called run: exactly one while in flight, none while pending or skipped, however often triggers and results are duplicated or reordered |
| Runs.EndAnnouncedOnce | services/routine-service/src/engine.ts:373-419 | an execution has one end event exactly when it is terminal; ExecutionCompleted is logged if and only if it is COMPLETED, ExecutionFailed if and only if it is FAILED, and the reported key is that of an action that failed |
| Runs.CallerAnsweredOnce | services/routine-service/src/engine.ts:443-453 | a called run answers its caller once, exactly when it is terminal, and an answer in the log is a success if and only if the run COMPLETED |
| Runs.BarrierInEveryRun | services/routine-service/src/domain/progress.ts:33-46 | in every unfinished execution of every reachable state there is a step below which all rows are COMPLETED or SKIPPED and above which all rows are PENDING |
| Runs.RecursionBoundInEveryRun | services/routine-service/src/engine.ts:72-74 | in every reachable state one trigger has led to at most the sum over d = 0..5 of (50·20)^d executions, 20 being the most actions the API accepts |
| Runs.RetriedTriggerInEveryRun | services/routine-service/src/engine.ts:102-132 | a trigger repeated with its idempotency key at any later point of a run, even after the routine was edited, is answered with the first execution and changes nothing |
| Runs.RunsTellTheTruth | services/routine-service/src/engine.ts:373-419 | in every reachable state every end event and every answer to a caller in the log agrees with the statuses in the tables |
| Network.RunsKeepInv | services/routine-service/src/engine.ts:161-440 | the system invariant (database invariant, every copy under way is justified by the outbox log, everything in flight is served) holds in every state of every run from the empty system |
| Network.EventKeeps | libs/service-kit/src/broker.ts:148-231 | every event keeps the system invariant: a trigger, a publication with duplicates, any move between queue, retry queue and dead-letter queue, a start, a result, a worker answer, a lost acknowledgement, the sweep, saving a routine |
| Network.NeverSilentlyStuck | services/routine-service/src/engine.ts:346-436 | in every reachable state a PENDING execution has a copy of its trigger in the outbox, a queue, a retry queue or the dead-letter queue; a RUNNING or WAITING one has an action in flight; each action in flight has its request or a result there, or a called run that is unfinished or whose answer is on its way |
| Network.RunsNeverBlock | services/routine-service/src/engine.ts:161-231 | the row layout a transaction relies on holds in every reachable state, so any enabled event can be the next one |
| Network.TransactionKeeps | services/routine-service/src/outbox.ts:16-34 | a transaction that commits a good database with its messages in the same outbox keeps the system invariant: whatever newly waits is newly logged |
| Network.FinalResultEnds | services/routine-service/src/engine.ts:195-228 | taking a final result leaves the action terminal, which is why its message may be acknowledged |
| Network.NetGrows | services/routine-service/src/outbox.ts:89-101 | publishing a row any number of times before it is marked keeps the system invariant |
| Network.MoveKeeps | libs/service-kit/src/broker.ts:181-216 | a copy parked in a retry queue or a dead-letter queue keeps the system invariant |
| Confluence.ResultsCommute | services/routine-service/src/engine.ts:182-440 | terminal results of any set of awaited actions, applied in any two orders, leave the same rows up to timestamps, the same execution status, the same new executions and the same outbox log (so the same next batch with the same resolved params) up to the key reported with a failure; the logs are equal if and only if that key is |
| Confluence.FailuresCommute | services/routine-service/src/engine.ts:396-419 | when some result is a failure, both orders end FAILED with the same rows, whichever failure came first |
| Confluence.EarlyResultsCommute | services/routine-service/src/engine.ts:421-436 | while some action of the step still awaits its result, both orders leave the same open execution |
| Confluence.LastResultsCommute | services/routine-service/src/engine.ts:239-440 | when the last awaited result arrives, both orders run the same next pass |
| Confluence.AfterResults | services/routine-service/src/engine.ts:195-230 | closed form of applying a list of results: still open with the marked rows and the status inFlightStatus gives, or FAILED with the key of the first failure and late results merely recorded |
| Similarity.AdvanceSame | services/routine-service/src/engine.ts:239-440 | #advance run on two transactions that agree up to timestamps ends in the same rows, executions, log and status |
| AdvanceLoop.ProcessOneKeeps | services/routine-service/src/engine.ts:255-344 | handling one row of a batch either leaves everything as it was and hands the row to the broker (only a non-looping worker action) or keeps the transaction well-formed and takes the row out of PENDING |
| AdvanceLoop.RunBatchKeeps | services/routine-service/src/engine.ts:247-344 | the batch loop keeps table and memory in step, touches only rows of its step, leaves exactly the rows to be sent pending, and every row it handles itself lowers the measure |
| AdvanceLoop.ProcessedShrinks | services/routine-service/src/engine.ts:268-293 | handling a row, a loop expanding to up to 50 children included, strictly lowers 51 × (pending loop heads) + (other pending rows) |
| AdvanceLoop.BatchProgress | services/routine-service/src/engine.ts:346-368 | a dispatch iteration after which the loop goes round (a failure that may leave siblings pending, or nothing to send) has strictly lowered the measure, so #advance terminates |
| AdvanceLoop.AdvanceDispatches | services/routine-service/src/engine.ts:239-371 | what one dispatch iteration of #advance amounts to: round again after a failure or when nothing was sent, otherwise the commit of the sends |
| AdvanceLoop.DispatchedBatch | services/routine-service/src/engine.ts:246-247 | the batch picked by keys from the list in memory is not empty and is exactly the pending rows of the decided step |
| AdvanceLoop.AfterSendsKeeps | services/routine-service/src/engine.ts:349-367 | sending marks exactly the sent rows DISPATCHED, in table and memory |
| AdvanceLoop.ExpandKeepsTx | services/routine-service/src/engine.ts:286-291 | expanding a loop keeps layout, order within the step and the agreement of memory and table |
| Progress.DecisionMeans | services/routine-service/src/domain/progress.ts:33-46 | decideNext completes exactly when all rows are COMPLETED or SKIPPED, fails exactly when one FAILED, waits exactly when none failed and one is in flight, and otherwise dispatches exactly the pending rows of the least pending step, everything else being finished |
| Progress.FirstFailed | services/routine-service/src/domain/progress.ts:34-35 | the first failed row |
| Progress.MinPendingStep | services/routine-service/src/domain/progress.ts:44 | the least step with a pending row |
| Progress.PendingKeys | services/routine-service/src/domain/progress.ts:45 | exactly the keys of the pending rows of a step |
| Invariants.DispatchAtBarrier | services/routine-service/src/domain/progress.ts:33-46 | the step decideNext picks is a barrier: all rows below it are finished, all rows above it pending |
| Invariants.ProcessOneEffect | services/routine-service/src/engine.ts:255-344 | handling a row keeps the accounting of messages and calls and touches only its own step |
| Invariants.SendsCommit | services/routine-service/src/engine.ts:349-370 | after the sends of a batch without failure the step is still the barrier, and a commit with something sent satisfies the database invariant |
| Invariants.CompleteCommits | services/routine-service/src/engine.ts:373-394 | completing commits a good database: COMPLETED only with every row COMPLETED or SKIPPED, one end event, one answer if called |
| Invariants.FailCommits | services/routine-service/src/engine.ts:396-419 | failing commits a good database: FAILED only with a failed row and no row left pending, one end event, one answer if called |
| Invariants.WaitCommits | services/routine-service/src/engine.ts:421-437 | waiting commits a good database: RUNNING or WAITING with an action in flight |
| Invariants.AdvanceCommits | services/routine-service/src/engine.ts:239-440 | #advance ends every transaction in a database that satisfies the invariant: barrier, settled statuses, exact accounting of messages and calls |
| Issues.IssueRequest | services/routine-service/src/engine.ts:350-363 | dispatching a pending worker row and logging its request keeps the accounting: one identity, one message |
| Issues.IssueCall | services/routine-service/src/engine.ts:316-321 | starting a called run keeps the accounting: one run per calling row, one level deeper, at most five |
| Issues.IssueExecution | services/routine-service/src/engine.ts:102-158 | a new execution with its trigger event keeps the accounting |
| Issues.IssueEnd | services/routine-service/src/engine.ts:373-419 | one end event and at most one answer keep the accounting when the execution becomes terminal with them |
| Transactions.StartKeeps | services/routine-service/src/engine.ts:161-179 | start keeps the database invariant, for any execution id and status |
| Transactions.StartedOnce | services/routine-service/src/engine.ts:168-171 | a second start of the same execution changes nothing |
| Transactions.ApplyResultKeeps | services/routine-service/src/engine.ts:182-231 | applyResult keeps the database invariant for every report about an action that was dispatched, duplicates and results of finished executions included |
| Transactions.FinishedActionIgnoresResults | services/routine-service/src/engine.ts:195-198 | a report about a terminal action changes nothing at all |
| Transactions.TriggerKeeps | services/routine-service/src/engine.ts:102-158 | creating an execution keeps the database invariant |
| Transactions.MarkStaleKeeps | services/routine-service/src/store.ts:443-462 | the sweep keeps the database invariant |
| Transactions.RecordLate | services/routine-service/src/engine.ts:227-228 | a late result of a finished execution is recorded on its row and keeps the database invariant |
| Evolution.AdvanceEvolves | services/routine-service/src/engine.ts:239-440 | #advance loses nothing and changes no terminal status or output |
| Evolution.ApplyResultEvolves | services/routine-service/src/engine.ts:182-231 | applyResult loses nothing and changes no terminal status or output |
| Evolution.RowActsOnce | services/routine-service/src/engine.ts:304-366 | a row has caused at most one request or called run, exactly one while in flight, none while pending or skipped |
| Evolution.ExecutionSpeaksOnce | services/routine-service/src/engine.ts:373-419 | one trigger event per execution, one end event exactly when terminal, one answer exactly when a called run is terminal |
| Evolution.FailedBatchReachesNoWorker | services/routine-service/src/engine.ts:346-347 | once a row of a batch failed, the pass ends FAILED and logs no ActionRequested at all |
| Endings.AdvanceTells | services/routine-service/src/engine.ts:373-419 | every end event and answer #advance logs agrees with the status it leaves, and the reported key belongs to a failed row of the table |
| Endings.StillTold | services/routine-service/src/engine.ts:182-231 | what was announced stays true in every later database |
| Recursion.RecursionBound | services/routine-service/src/engine.ts:305-325 | every execution is at most 5 calls deep, and with at most n actions per routine one trigger leads to at most the sum over d = 0..5 of (50·n)^d executions, routines that call themselves included |
| Recursion.LevelBound | services/routine-service/src/engine.ts:305-325 | at call depth d there are at most (50·n)^d executions under one trigger |
| Recursion.SlotsDiffer | services/routine-service/src/store.ts:281-294 | two rows that can call never share an (author row, repetition) slot |
| Idempotency.RunsTriggerOnce | services/routine-service/migrations/003_idempotency_per_routine.sql:3-4 | in every reachable state a routine has at most one execution per idempotency key and at most one per schedule slot |
| Idempotency.SameKeySameExecution | services/routine-service/src/engine.ts:107-132 | a repeated key is answered with the execution of the first request and the database stays as it is, however much happened in between |
| RowInvariants.UniqueKeys | services/routine-service/src/store.ts:281-294 | keys of author rows and of repetitions never clash within an execution |
| RowInvariants.ChildKeyInjective | services/routine-service/src/store.ts:289 | parent[index] determines parent and index, because author keys carry no bracket |
| RowInvariants.UniquePositions | services/routine-service/src/store.ts:286 | positions are unique within an execution |
| RowInvariants.LoadMirrors | services/routine-service/src/store.ts:373-379 | reading by (step, position) lists every row of the table exactly once, in strict order within each step |
| Rereading.SameOrder | services/routine-service/src/store.ts:373-379 | restricted to any set of rows of one step, the list in memory and a re-read list them in the same order |
| Rereading.SameDecision | services/routine-service/src/engine.ts:241-243 | the decision taken from memory is the one a re-read table would give |
| Rereading.SameBatch | services/routine-service/src/engine.ts:247 | the batch taken from memory is the same rows in the same order as from a re-read table |
| Rereading.SameCondition | services/routine-service/src/engine.ts:257-265 | a runIf condition holds in memory exactly when it holds of the table row with that key |
| Rereading.SameOutputs | services/routine-service/src/engine.ts:457-468 | the outputs templates see, looped ones included, are those of a re-read table |
| Assignments.SortedLast | services/routine-service/src/engine.ts:58-60 | after the sort the assignment that counts is that of the greatest (step, finished_at), later rows winning ties |
| Definition.ValidateRoutine | services/routine-service/src/domain/definition.ts:86-182 | the issue list is empty if and only if name, schedule, keys, types, params, conditions, loops, variables and references satisfy the declarative rules; then the result is the normalised actions |
| Definition.Normalise | services/routine-service/src/domain/definition.ts:91-105 | default steps and the stable sort by step, proved against the recursive definition |
| Definition.NormalisedSorted | services/routine-service/src/domain/definition.ts:104-105 | normalised actions are in step order and none is lost |
| Definition.IndexActions | services/routine-service/src/domain/definition.ts:107-119 | the maps hold the step and type of the last action with a key and the earliest step that sets a variable; no issue exactly when keys are distinct |
| Definition.CheckPath | services/routine-service/src/domain/definition.ts:143-160 | no issue for a path exactly when its root is known, item and index are used only in a loop and not for its list, a variable is set in an earlier step, and a body is used only with a webhook |
| Definition.CheckPaths | services/routine-service/src/domain/definition.ts:142-160 | no issue exactly when every path of params and list passes |
| Definition.CheckReferences | services/routine-service/src/domain/definition.ts:161-168 | no issue exactly when every referenced key exists and belongs to an earlier step |
| Definition.CheckParams | services/routine-service/src/domain/definition.ts:127-132 | no issue exactly when the required params are there and the scripting rules hold |
| Definition.CheckAction | services/routine-service/src/domain/definition.ts:121-169 | no issue for an action exactly when all rules for actions hold |
| Definition.ValidatedIsStorable | services/routine-service/src/api.ts:33 | a validated routine whose keys match the key pattern is one the engine may run: sorted, distinct keys without brackets, at most 20 actions |
| Soundness.ValidationIsSound | services/routine-service/src/domain/definition.ts:107-169 | for a row of the barrier step of an accepted execution: its condition exists, is a condition.if and is terminal, every referenced action is COMPLETED or SKIPPED, every variable has its earliest setter in a finished step, item and index occur only where they are bound |
| Soundness.RunsStaySound | services/routine-service/src/domain/definition.ts:86-182 | in every reachable state the rows of every execution still come from an accepted routine and outputs keep the shape their type promises |
| Soundness.DispatchesDecidedInEveryRun | services/routine-service/src/engine.ts:246-302 | at every dispatch of every transaction of every run, everything the row refers to has been decided |
| Soundness.SetVariableKeepsName | services/routine-service/src/domain/control.ts:107-111 | a literal variable name survives template resolution and is the name variable.set reports |
| Soundness.LoopedConditionNeverMet | services/routine-service/src/domain/control.ts:164-166 | a looped condition.if, whose output is a count, is never met, whatever is expected |
| Soundness.RunIfOnLoopSkips | services/routine-service/src/engine.ts:257-265 | an action conditioned on a looped condition.if is always skipped |
| Templates.ResolveSucceedsIff | services/routine-service/src/domain/templates.ts:80-91 | resolution of an arbitrarily nested value succeeds if and only if every path templatePaths reports can be looked up |
| Templates.ResolveDependsOnPathsOnly | services/routine-service/src/domain/templates.ts:80-91 | on two scopes that agree on those paths resolution gives equal results |
| Templates.ResolveWithoutPaths | services/routine-service/src/domain/templates.ts:80-91 | a value without references resolves to itself |
| Templates.LookupLoop | services/routine-service/src/domain/templates.ts:61-69 | the loop over segments finds what the recursive walk finds, missing keys and non-objects included |
| Templates.SingleIsOnlyPiece | services/routine-service/src/domain/templates.ts:81-84 | a text that is one placeholder has that placeholder as its only reference |
| EngineService.ExecutionEngine.AdvanceRun | services/routine-service/src/engine.ts:239-440 | the loop over decisions leaves the tables that the specification #advance is proved about leaves |
| EngineService.ExecutionEngine.HandleBatch | services/routine-service/src/engine.ts:255-344 | the loop over a batch with its list of sends, in place on tables and memory, against its specification |
| EngineService.ExecutionEngine.HandleAction | services/routine-service/src/engine.ts:256-343 | one row of the batch, all branches, against its specification |
| EngineService.ExecutionEngine.SendToWorkers | services/routine-service/src/engine.ts:349-366 | the loop of sends against its specification |
| EngineService.ExecutionEngine.ExpandLoop | services/routine-service/src/engine.ts:286-291 | loop expansion in tables and memory against its specification |
| EngineService.ExecutionEngine.CallRoutine | services/routine-service/src/engine.ts:305-324 | the call of a routine against its specification |
| EngineService.ExecutionEngine.EvaluateAction | services/routine-service/src/engine.ts:327-342 | a scripting action against its specification |
| EngineService.ExecutionEngine.CompleteRun | services/routine-service/src/engine.ts:373-394 | the complete branch against its specification |
| EngineService.ExecutionEngine.FailRun | services/routine-service/src/engine.ts:396-419 | the fail branch against its specification |
| EngineService.ExecutionEngine.WaitRun | services/routine-service/src/engine.ts:421-437 | the wait branch against its specification |
| EngineService.ExecutionEngine.StartExecution | services/routine-service/src/engine.ts:161-179 | start, unknown and already started executions included |
| EngineService.ExecutionEngine.TakeActionResult | services/routine-service/src/engine.ts:182-231 | applyResult, unknown, terminal and late actions included |
| EngineService.ExecutionEngine.NewExecution | services/routine-service/src/engine.ts:102-158 | createExecution, repeated keys and taken slots included |
| EngineService.ExecutionEngine.InsertLoopActions | services/routine-service/src/store.ts:281-294 | one child row per item with key parent[index] and position (position + 1) * 1000 + index |
| EngineService.ExecutionEngine.SkipPendingActions | services/routine-service/src/store.ts:418-423 | exactly the pending rows become SKIPPED |
| EngineService.ExecutionEngine.MarkStaleExecutionsWaiting | services/routine-service/src/store.ts:443-462 | exactly the stale RUNNING executions become WAITING |
| Store.FindByKey | services/routine-service/src/store.ts:300-303 | finds an execution of the routine with that key exactly when there is one |
| Outbox.OutboxRelay.RelayBatch | services/routine-service/src/outbox.ts:75-113 | what one batch publishes and marks: the confirmed prefix of the picked rows is marked, a failed publication stops the batch, a rolled-back transaction marks nothing though messages went out; published rows were sent |
| Outbox.OutboxRelay.PublishBatch | services/routine-service/src/outbox.ts:88-107 | the publishing loop with its break, against the confirmed prefix |
| Outbox.OutboxRelay.EnqueueRow | services/routine-service/src/outbox.ts:21-34 | appends one unpublished row with a fresh id |
| Outbox.OutboxRelay.PurgePublished | services/routine-service/src/outbox.ts:115-117 | removes exactly the outdated published rows and keeps the relay valid |
| Outbox.Picked | services/routine-service/src/outbox.ts:77-85 | the first batchSize unpublished, unlocked rows in id order |
| Outbox.Confirmed | services/routine-service/src/outbox.ts:88-107 | the longest prefix of the batch whose publications are confirmed |
| Outbox.RelayKeepsSent | services/routine-service/src/outbox.ts:88-110 | after a batch every row marked as published has been sent at least once |
| Outbox.RelayMarksPrefix | services/routine-service/src/outbox.ts:79-110 | rows are marked in order: a later row is marked only if every earlier unpublished one is |
| Outbox.ReplicasPickApart | services/routine-service/src/outbox.ts:83 | with SKIP LOCKED two replicas never pick the same row |
| Outbox.PurgeDropsPublishedOnly | services/routine-service/src/outbox.ts:115-117 | a row survives the purge if and only if it is unpublished or recent |
| Broker.MessagesSurvive | libs/service-kit/src/broker.ts:148-231 | in every state of every run, crashes and failed publications included, a published message has been handled or has a live copy in the work queue, a retry queue or the dead-letter queue; attempt numbers stay within the number of delays plus one; a copy in a retry queue waits the delay of its attempt |
| Broker.PermanentErrorsAreNotRetried | libs/service-kit/src/broker.ts:181-200 | a message whose failures are all permanent never enters a retry queue |
| Broker.AlwaysFailingIsBuried | libs/service-kit/src/broker.ts:181-216 | a message that fails every time is in the dead-letter queue after one attempt more than there are delays, as its only copy |
| Broker.AttemptNumber | libs/service-kit/src/broker.ts:184-191 | the k-th failure leaves exactly one copy, with attempt number k + 1 |
| Broker.Consumer.Dispatch | libs/service-kit/src/broker.ts:148-179 | one delivery, all outcomes: handler result, unparseable message, publication unconfirmed or merely unreported, callback or acknowledgement failing, crash; against its specification |
| Broker.Consumer.HandleFailure | libs/service-kit/src/broker.ts:181-200 | retry with the delay of the attempt, or dead letter for a permanent error or after the last delay |
| Broker.DispatchIsSteps | libs/service-kit/src/broker.ts:148-231 | what one delivery does is a sequence of enabled steps of the delivery state machine, so the results about runs apply to it |
| Worker.NoClaimAfterCompletion | services/integration-worker/src/main.ts:53-72 | once COMPLETED is recorded no later claim of that action succeeds, in any run |
| Worker.LateReleaseFreesOthers | services/integration-worker/src/main.ts:124 | a late failure releases the lease of another holder, so a third replica may claim while the second is still within its lease |
| Worker.IntegrationWorker.ClaimAction | services/integration-worker/src/main.ts:53-72 | wins exactly if the action is unknown, or in progress with an expired lease; otherwise reports completed with the output, or busy, and changes nothing |
| Worker.IntegrationWorker.HandleRequest | services/integration-worker/src/main.ts:100-128 | how a request ends, what is sent and what the row is afterwards, for every claim and every outcome of the execution and the publication |
| Consumers.OneTaskPerAction | services/task-service/src/main.ts:113-135 | in every state of every run with interleaved handlers there is at most one task per action and one default list per owner, every task is in a list of its owner, and all replies for one action carry the same task |
| Consumers.TaskService.CreateTaskFromAction | services/task-service/src/main.ts:118-135 | creates a task exactly if the action has none, in the chosen list if the owner has it and else in the default list; otherwise returns the existing one |
| Consumers.TaskService.DefaultListId | services/task-service/src/main.ts:85-93 | the owner's default list, created on first use |
| Consumers.TaskService.HandleRequest | services/task-service/src/main.ts:161-171 | one request keeps the invariant and replies with the task of its action |
| Consumers.DeliveredOnce | services/notification-service/src/main.ts:69-80 | over any sequence of deliveries the first draft with a source key is stored, and it is the only notification with that key |
| Consumers.NotificationService.Deliver | services/notification-service/src/main.ts:70-80 | stores the draft exactly if its key is new and returns the notification with that key |
| Sha256.Sha256Bytes | web/src/insecure-context.ts:36-73 | for every message and constant table the array program returns the digest of sections 6.2.1 and 6.2.2 of FIPS 180-4 |
| Sha256.RoundRefines | web/src/insecure-context.ts:60-64 | a round with signed 32-bit intermediates, unreduced sums and late >>> 0 equals a round of section 6.2.2 of FIPS 180-4 |
| Sha256.TemporariesReduce | web/src/insecure-context.ts:61-62 | t1 and t2, unreduced, stand for T1 and T2 modulo 2^32 |
| Sha256.JsT1 | web/src/insecure-context.ts:61 | the unreduced t1 stays far below 2^53, where doubles are exact |
| Sha256.NextRefines | web/src/insecure-context.ts:55-57 | the schedule word equals that of section 6.2.2 of FIPS 180-4 |
| Sha256.RotrStands | web/src/insecure-context.ts:51 | (x >>> n) | (x << (32 - n)), a signed number, stands for ROTR of section 3.2 of FIPS 180-4 |
| Sha256.CompressBlock | web/src/insecure-context.ts:52-68 | one block in place on w and h computes the next hash value |
| Sha256.FillSchedule | web/src/insecure-context.ts:53-58 | w holds the message schedule of the block |
| Sha256.RunRounds | web/src/insecure-context.ts:59-64 | the loop of 64 rounds computes the working variables of section 6.2.2 of FIPS 180-4 |
| Sha256.Pad | web/src/insecure-context.ts:44-49 | the padded array is the padding of section 5.1.1 of FIPS 180-4 |
| Sha256.LengthWrites | web/src/insecure-context.ts:48-49 | the two 32-bit writes are the high and low word of the bit count |
| Sha256.PaddedLength | web/src/insecure-context.ts:44 | rounding up to 64 bytes gives the length of the shortest padding |
| Sha256.ZeroCount | web/src/insecure-context.ts:44-49 | the number of zero bytes is the least that fills whole blocks |
| Sha256.PaddingInjective | web/src/insecure-context.ts:44-49 | two messages with the same padding are equal |
| Sha256.WriteOut | web/src/insecure-context.ts:69-72 | the hash words in big-endian order |
| Sha256.WordRoundTrip | web/src/insecure-context.ts:53 | reading a big-endian word back gives the word that was written |
| Lanes.LanesRoundTrip | web/src/pages/RoutineEditor.tsx:186-195 | toLanes after fromLanes gives back the non-empty lanes, numbered from 1 |
| Lanes.StepsContiguous | web/src/pages/RoutineEditor.tsx:192-195 | fromLanes uses exactly the steps 1..n |
| Lanes.LanesPartition | web/src/pages/RoutineEditor.tsx:187-190 | toLanes keeps every action exactly once |
| Lanes.MoveConserves | web/src/pages/RoutineEditor.tsx:205-221 | moveAction permutes the actions and, unless the list is unchanged, numbers steps 1..n without gaps |
| Lanes.ParallelConserves | web/src/pages/RoutineEditor.tsx:224-237 | setParallel permutes the actions and, unless the list is unchanged, numbers steps 1..n without gaps |
| Lanes.MoveThereAndBack | web/src/pages/RoutineEditor.tsx:205-221 | for an action alone in its lane, moving and moving back restores the lanes |
| Lanes.ParallelOnAndOff | web/src/pages/RoutineEditor.tsx:224-237 | for an action alone in its lane, parallel on and off restores the lanes |
| Lanes.MoveAction | web/src/pages/RoutineEditor.tsx:205-221 | the splice and swap program against its specification, every early return included |
| Lanes.SetParallel | web/src/pages/RoutineEditor.tsx:224-237 | the program against its specification, every early return included |
| Lanes.LaneIndexOf | web/src/pages/RoutineEditor.tsx:197-199 | the first lane that holds the action, or none |
| Cron.ParseUndoesToCron | web/src/schedule.ts:22-54 | parseSchedule of a printed schedule returns its frequency and the fields that frequency uses (days sorted and deduplicated, none read as Monday) if and only if hour and minute have at most two digits and days are 0..6; otherwise it returns null |
| Cron.ToCronUndoesParse | web/src/schedule.ts:22-54 | toCron after parseSchedule is the identity on printed expressions |
| Cron.TypedTimeIsKept | web/src/schedule.ts:25 | a time typed with two digits each comes back as typed |
| Cron.SwitchingKeepsTime | web/src/schedule.ts:57-60 | switching between clock frequencies keeps the clock time |
| Cron.SortedDays | web/src/schedule.ts:46 | the days, sorted and without duplicates |
| Exposure.LoopShowsRepetitions | services/routine-service/src/engine.ts:461-465 | what a loop step exposes as items is the output of every repetition exactly once, in strictly ascending item order, null where there is none |
| Exposure.AnswerCarriesVariables | services/routine-service/src/engine.ts:64-68 | the answer a completed called run logs carries each of its variables under vars, and its variable result (or null) as result |
| Exposure.OutputReadable | services/routine-service/src/engine.ts:456-468 | what a completed action without a loop produced is what templates read under actions.<key>, at any depth |
| Exposure.ReturnedVariableReadable | services/routine-service/src/engine.ts:305-325 | end to end: once the answer of a called run is recorded, actions.<key>.vars.<name> in the caller resolves to the value the called run gave the variable |
| Runs.SweeperAgreesWithEngine | services/routine-service/src/store.ts:443-462 | inFlightStatus of a running execution is WAITING if and only if the sweeper would flag it, or an action is RETRYING, or an answer is due at this very instant, which is where < and >= differ |
| AdvanceLoop.ScriptHandles | services/routine-service/src/engine.ts:327-342 | evaluating a scripting action, whether it completes or fails, keeps table and memory in step and takes the row out of PENDING |
| AdvanceLoop.FailHandles | services/routine-service/src/engine.ts:249-253 | failing a row keeps table and memory in step and takes the row out of PENDING |
| AdvanceLoop.SkipHandles | services/routine-service/src/engine.ts:257-263 | skipping a row keeps table and memory in step and takes the row out of PENDING |
| AdvanceLoop.SendOneKeeps | services/routine-service/src/store.ts:381-388 | dispatching a pending row keeps the layout, the mirror and the order of the transaction |
| AdvanceLoop.ChildrenWf | services/routine-service/src/store.ts:281-294 | the rows a loop inserts extend the layout: they belong to their head under distinct indices, from which unique keys and positions follow |
| AdvanceLoop.ChildrenSorted | services/routine-service/src/store.ts:281-294 | appended to the list in memory they keep each step in position order, which their positions after all author rows are for |
| Transactions.RecordRow | services/routine-service/src/store.ts:390-416 | recording a result, completed, failed or to be retried, changes exactly the row it is about, in a way open to a dispatched row, and leaves its step |
| Invariants.StatusEffect | services/routine-service/src/store.ts:354-371 | setting RUNNING or WAITING keeps everything a transaction on the execution relies on |
| Invariants.NewExecOk | services/routine-service/src/store.ts:252-274 | the rows inserted for a stored routine make a well-formed PENDING execution |
| Broker.FollowUpOk | libs/service-kit/src/broker.ts:181-216 | the copy that replaces a failed delivery carries the same message, is live, and keeps to the attempt numbers and delays |
| Templates.PlaceholderPath | services/routine-service/src/domain/templates.ts:8-9 | a path between double braces is read as exactly that one reference |
| Templates.SplitAtDot | services/routine-service/src/domain/templates.ts:63 | a path is split at its dots |
| FinishTimes.RunsStayTimed | services/routine-service/src/engine.ts:338-340 | in every reachable state the plain variable.set actions of a step finished in one transaction, so did all repetitions of its looped ones, every completed row has a finish time and no pending one has |
| Assignments.WinnerIsGreatest | services/routine-service/src/engine.ts:54-62 | the assignment that counts is the greatest by (step, finished_at) among the setters of the name, and the last of these in the list |
| Overtaking.VariableReadsExactly | services/routine-service/src/engine.ts:54-62 | memory and table agree on which variables are set, and a variable reads differently if and only if it is overtaken: in its last step a plain setter finished in an earlier transaction, no later than now, a repetition finished in this one, and the last of each kind assign different values |
| Overtaking.OvertakenIsMixed | services/routine-service/src/engine.ts:338-340 | a variable is overtaken only if its routine, in one step, sets it plainly and in a loop and also has an action that is sent or called |
| Overtaking.TrackedAtTurn | services/routine-service/src/engine.ts:255-344 | what that rests on, at every turn of a batch: memory shows the finish times of the table or none for this transaction, repetitions finish after plain setters, and only a step that sends something separates them |
| Overtaking.OpenedIsTracked | services/routine-service/src/engine.ts:189-229 | and it holds when a message opens a transaction, in every reachable state |
| Faithful.MemoryReadsTable | services/routine-service/src/engine.ts:240-345 | conditions, batches and outputs read from memory are always those of a re-read table, each variable exactly unless overtaken, and every template scope if none is |
| Faithful.UnmixedReadsTable | services/routine-service/src/engine.ts:240-345 | in a routine that mixes no setters, variables and every template scope are those of a re-read table |
| Faithful.ReadsFaithfulInEveryRun | services/routine-service/src/engine.ts:239-371 | in every transaction of every run, before every decision and every row of every batch: the decision, and all of the above, without hypothesis |
| OvertakenRun.MemoryMayDisagree | services/routine-service/src/engine.ts:338-340 | a run from the empty system in which the engine reads one value of a variable in memory where the table says another: a plain setter at 5, a worker action, a repetition at 9 |
| OvertakenRun.RoutineAccepted | services/routine-service/src/domain/definition.ts:86-182 | the routine of that run passes validation |
| Lookups.ActionReadableExactly | services/routine-service/src/domain/templates.ts:61-69 | a template finds actions.<key> if and only if the action of that key completed |
| Lookups.VariableReadableExactly | services/routine-service/src/domain/templates.ts:61-69 | a template finds vars.<name> if and only if a setter of that name, or a repetition of one, completed |
| Lookups.ReadsAreExact | services/routine-service/src/engine.ts:456-484 | the same, and: item and index are found exactly in repetitions, input exactly in called runs, trigger.body.<field> exactly if the call carried that field |
| Lookups.LookupsInEveryRun | services/routine-service/src/engine.ts:246-302 | at every dispatch of every transaction of every run references read exactly so, and if nothing was skipped and no looped setter ran over an empty list, every referenced action, variable and loop root is found |
| Soundness.ActionLookupSucceeds | services/routine-service/src/domain/templates.ts:61-69 | if nothing was skipped, looking up a referenced action in the scope succeeds |
| Soundness.VariableLookupSucceeds | services/routine-service/src/domain/templates.ts:61-69 | if nothing was skipped and no looped setter had an empty list, looking up a referenced variable succeeds |
| Worker.PromptRunsAreExclusive | services/integration-worker/src/main.ts:100-128 | while every claimed run settles before its lease expires, no two replicas execute the same action at once and every ActionCompleted sent for an action is the same, with the recorded output |
| Worker.ExclusiveExactlyWhenPrompt | services/integration-worker/src/main.ts:53-72 | exclusion survives every claim that may come next if and only if no run is past its lease |
| Worker.ExclusionExactly | services/integration-worker/src/main.ts:53-128 | at the end of any run that was prompt so far: one more claim may put two replicas on one action if and only if a run there is past its lease, and then any two outputs may both be sent for it |
| Worker.LateRunIsOvertaken | services/integration-worker/src/main.ts:53-72 | the smallest such run, for every lease |
| Worker.LateRunsDisagree | services/integration-worker/src/main.ts:115-121 | and its continuation sending two different outputs |
| Worker.AbandonedStays | services/integration-worker/src/main.ts:53-72 | in any run, a leased row with no run of its action stays as it is until somebody claims it |
| Worker.CrashAbandons | services/integration-worker/src/main.ts:100-128 | when the holder of an action dies in a prompt run, its row is left leased with no run of the action anywhere |
| Worker.TriesLeft | libs/service-kit/src/broker.ts:181-200 | a copy delivered with attempt number a is delivered as often as delays are left from a on, plus once, with exactly those delays between |
| Worker.TakenOverBeforeGivingUp | services/integration-worker/src/main.ts:53-128 | after its holder died, a copy first delivered with attempt a finds the action claimable, completed or claimed by another before it is given up, if the delays from a on outlast the lease |
| Worker.GivenUpExactly | services/integration-worker/src/main.ts:53-128 | exactly so: with nobody else claiming and deliveries on time, every try finds the row busy if and only if the delays left do not outlast the lease; equality does not suffice |
| Worker.DefaultsGiveUpEarly | services/integration-worker/src/main.ts:38-89 | with the defaults (60 s lease; 1, 5 and 15 s delays) a first delivery up to 39 s after the dead holder claimed is given up while the lease runs, a later one is not |
| Worker.GivenUpByDefault | services/integration-worker/src/main.ts:38-89 | a run with the defaults in which that happens |
| Worker.HandlingIsSteps | services/integration-worker/src/main.ts:100-128 | one handling of a request, won, completed or busy, with any clock readings of claim and release, is a sequence of enabled steps of the claim machine that leaves the same table and messages and no run behind |
| Network.DiscardKeeps | libs/service-kit/src/broker.ts:181-231 | acknowledging a delivery once its retry or dead letter was confirmed keeps the system invariant |
| Outcomes.EveryTurnTurnsOut | services/routine-service/src/engine.ts:255-344 | what becomes of a pending row at its turn, exactly, on the tables: SKIPPED if and only if its condition did not give what it waits for; FAILED if and only if a template finds nothing, the list is no list or longer than 50, the evaluation fails, no routine of the owner is named or the depth is 5; otherwise repeated, evaluated, calling or left for a worker, with the rows, outputs, run and messages each leaves |
| Outcomes.HoldsIfGave | services/routine-service/src/domain/control.ts:163-166 | a runIf holds in memory if and only if a row of the table with that key completed with that result |
| Consequences.TurnsOutInEveryRun | services/routine-service/src/engine.ts:239-344 | the same at every turn of every transaction of every run |
| Consequences.RequestsCarryParams | services/routine-service/src/engine.ts:295-363 | every ActionRequested any event of any run adds to the log: at the turn of its action, in the transaction that event opened, resolving the params of the action in the scope of that moment gave the params of the request |
| Consequences.ReadyIsAskedInEveryRun | services/routine-service/src/engine.ts:343-371 | conversely, a worker action whose params resolved at its turn is asked for with them by the end of the transaction, unless that leaves the execution FAILED |
| Consequences.RequestsInOrder | services/routine-service/src/engine.ts:349-366 | what one event asks for are actions of one step of one execution, in the order of their positions |
| Consequences.ConditionDecides | services/routine-service/src/engine.ts:257-265 | once a condition.if evaluated to b, any later action of the execution that waits for it to give e, in whatever transaction its turn comes, ends its turn SKIPPED if and only if b is not e |
| Consequences.UndecidedSkips | services/routine-service/src/domain/control.ts:163-166 | while the condition has not completed (skipped or failed included), what waits for it is SKIPPED |
| Consequences.RepetitionSeesItem | services/routine-service/src/store.ts:278-303 | at the turn of repetition key[i], in whatever transaction, item is element i of the list its loop resolved to, index is i, and the params are those of the loop |
| Consequences.CalledRunSeesInput | services/routine-service/src/engine.ts:304-325 | at every turn of a called run, input is what the params of the call resolved to, null if they had none |
| Consequences.VariableIsRead | services/routine-service/src/engine.ts:54-62 | after variable.set had its turn, vars.<name> at any later turn of the execution is the value its params resolved to (the empty text for none), as long as nothing else set that variable |
| Consequences.TurnsInOrder | services/routine-service/src/engine.ts:161-231 | between any two turns of a run nothing is undone |
| Requests.PassAsks | services/routine-service/src/engine.ts:239-371 | the same for one pass of #advance, over all its iterations |
| Requests.ReadyIsAsked | services/routine-service/src/engine.ts:343-371 | and its converse for one pass |
| Turns.PassTurnsEvolve | services/routine-service/src/engine.ts:239-371 | in a pass nothing is undone between its start, any two turns in order, and the commit |
| Results.RetryIsReported | services/routine-service/src/engine.ts:213-224 | ActionRetryScheduled for an action in flight of an unfinished execution: the row is RETRYING, the execution WAITING, and nothing else changes, neither a message nor the time it was dispatched |
| Results.FailureIsReported | services/routine-service/src/engine.ts:396-419 | ActionFailed: the row is FAILED, pending rows are SKIPPED, rows in flight stay; the execution is FAILED, says so with the key of that action, and answers its caller |
| Results.SuccessIsReported | services/routine-service/src/engine.ts:421-436 | ActionCompleted while others are awaited: the row is COMPLETED with its output, the execution WAITING if one of the others retries or is late and RUNNING otherwise, and nothing else changes |
| Results.LastSuccessCompletes | services/routine-service/src/engine.ts:373-394 | ActionCompleted for the last open action: the execution is COMPLETED, says so, and answers its caller |
| Results.LateResultIsRecorded | services/routine-service/src/engine.ts:227-228 | any report on an action in flight of an ended execution is recorded on its row, and that is all |
| Results.StartTimeIsKept | services/routine-service/src/engine.ts:172-177 | an execution carries the time of the transaction that started it through every result |
| Transactions.TriggersExactly | services/routine-service/src/engine.ts:102-158 | createExecution, all cases: answered with the execution of a used key, refused for a used slot, or one more PENDING execution with exactly what it was triggered by, and its event |
| Runs.SweeperLagsByOne | services/routine-service/src/store.ts:443-462 | unless an action retries, the sweeper flags at one instant exactly what the engine would have called WAITING the instant before |
| Interpolation.ResolveFills | services/routine-service/src/domain/templates.ts:75-85 | a text of plain stretches and placeholders resolves to itself with each path replaced by the text of its value (a string as it is, anything else rendered), and fails if and only if some path names nothing; a placeholder alone resolves to the value itself |
| Interpolation.EveryTextIsWritten | services/routine-service/src/domain/templates.ts:8-9 | every text is such a sequence of plain stretches and placeholders |
| Interpolation.MatchesExactly | services/routine-service/src/domain/templates.ts:8-9 | the scan matches at a place if and only if a placeholder is written there: braces, white space, a path, white space, braces |
| Interpolation.PathInText | services/routine-service/src/domain/templates.ts:80-85 | text before {{path}} text after: the text before, the text of the value, and what the text after becomes |
| Interpolation.ResolveGoesInside | services/routine-service/src/domain/templates.ts:86-90 | resolving a list or an object resolves each element in its place, and leaves any other value as it is |
| Lookups.LoopRootsRead | services/routine-service/src/engine.ts:480 | item and index of a repetition are its own, and found nowhere else |
| Lookups.HeadRead | services/routine-service/src/engine.ts:470-477 | routine.id, routine.name, trigger.type and trigger.body read what the execution was created with |
| Lookups.ExecutionRead | services/routine-service/src/engine.ts:472-482 | execution.id, execution.trigger, execution.startedAt and now |
| Lookups.RootsAreOffered | services/routine-service/src/domain/definition.ts:61 | validation knows exactly the template roots that some action of some run is offered |
| Lookups.LoopReadsOnePath | services/routine-service/src/domain/definition.ts:139-141 | the list of a loop of an accepted routine is the very value one path names, which is not an item of the loop |
| Definition.NormalisedListsAll | services/routine-service/src/domain/definition.ts:91-105 | normalising lists every action once, in its own step or one more than the action written before it (the first in 1), with params, condition and trimmed list; actions of one step stay in the order they were written |
| Definition.TrimsExactly | services/routine-service/src/domain/definition.ts:88-89 | trimming removes exactly the white space around a text, and a name is blank exactly if it is nothing else |
| Definition.OnlyWebhooksReadTheBody | services/routine-service/src/domain/definition.ts:156-159 | a routine accepted for a manual or scheduled trigger nowhere reads trigger.body |
| Exposure.ItemReadable | services/routine-service/src/engine.ts:461-464 | actions.<loop>.items.<k> reads the output of repetition k at any depth, items.length the number of repetitions |
| Exposure.OwnFieldReadable | services/routine-service/src/engine.ts:464 | the count of a loop step, and whatever else it put out, is read under its key too |
| Broker.DeliveryComesTo | libs/service-kit/src/broker.ts:148-231 | what a delivery comes to by what its handler did: gone exactly when it was handled, or its follow-up confirmed and reported, and nothing died on the way; a copy is added exactly when something failed and the publish reached the broker, in the dead-letter queue for an unparseable message or a PermanentError, in the retry queue of its attempt with the next attempt number for any other error while delays are left |
| Lanes.MoveLeavesGroup | web/src/pages/RoutineEditor.tsx:205-214 | moving an action of a parallel group gives it a step of its own, right after the rest of the group (down) or right before it (up) |
| Lanes.MoveChangesPlaces | web/src/pages/RoutineEditor.tsx:215-221 | moving an action with a step to itself swaps it with the next or previous step; at the end nothing changes |
| Lanes.ParallelPuts | web/src/pages/RoutineEditor.tsx:224-237 | joining puts the action at the end of the step before, leaving puts it right after the rest of its group |
| Lanes.UnknownStays | web/src/pages/RoutineEditor.tsx:205-237 | an action that is not in the list is not moved |
| Cron.FiresWhenSaid | web/src/schedule.ts:41-54 | the printed expression, read as cron reads it, fires exactly when the form says: at the clock time on its days, at every full hour, or every n minutes or seconds |
| Outbox.RelayLeaves | services/routine-service/src/outbox.ts:50-118 | what a relay transaction leaves of each row: confirmed rows carry its time, the first unconfirmed one has one more attempt, the rest are unchanged |
| Consequences.RequiredParamsArrive | services/routine-service/src/domain/definition.ts:121-132 | no request of any run lacks a param that the type of its action requires |
| Definition.ParamRulesExactly | services/routine-service/src/domain/definition.ts:127-132 | the rules of params in plain terms: what the type requires is there and not the empty text, a comparison or operator written as plain text is one of the known ones, a variable has a valid name |
| Consequences.TakenAsReported | services/routine-service/src/engine.ts:200-225 | in every run, when a result message is taken, the row of an action in flight is afterwards what the message says: COMPLETED with its output, FAILED, or RETRYING |
| Definition.VariableNameExactly | services/routine-service/src/domain/control.ts:146 | a variable name is a letter or underscore and up to 39 letters, digits and underscores |

## Left out

- Confluence.ResultsCommute: assumes a positive waiting threshold and that the last results of both orders are taken at the same clock reading, since `now` in template scopes and the RUNNING/WAITING status depend on the clock.
- Soundness.ValidationIsSound: keeps only the webhook form of the rule about `trigger.body`; which kind of trigger a routine had when an execution was started is not tracked. What a body reference finds at run time is exact in Lookups.ReadsAreExact.
- Lanes.MoveConserves, Lanes.ParallelConserves, Lanes.MoveThereAndBack, Lanes.ParallelOnAndOff: assume that the editor's action identifiers are distinct, as its generator makes them.
- Cron.ParseUndoesToCron: times are digits, a colon and digits; what `Number()` makes of other texts is not part of this model. Interval lengths are natural numbers printed in plain digits, as JavaScript prints them below 10^21.
- Sha256.Sha256Bytes: takes the table of 64 constants as given; their computation by `Math.cbrt` is floating-point arithmetic. Messages are below 2^53 - 72 bytes, where the length arithmetic is exact.
- Broker.MessagesSurvive: a copy in the dead-letter queue counts as kept; emptying that queue by hand, the delivery limit of quorum queues and unrouted messages are configured elsewhere and not part of this model.
- Consumers.TaskService.HandleRequest, Worker.IntegrationWorker.HandleRequest, Broker.Consumer.Dispatch: each method is one call without interference; interleavings are in the state machines beside them.
- Network.MoveKeeps: the system abstracts from attempt numbers and consumer tags; copies may be moved, duplicated and dropped for a confirmed other at any time, which covers what the delivery machine of Broker does, but no lemma maps one onto the other.
- Consumers.NotificationService.Deliver: one insert is one step; the reply it sends, which carries the id of the stored row, is left out.
- Outbox.OutboxRelay.PurgePublished: the purge is modelled on the table alone; the system's log keeps purged rows, which changes no later decision.
- Texts of errors, logs, attempt counts, `processed_by`, `resolved_params` and trace data: they drive no decision.
- JSON objects as finite maps: key order, the prototype chain in `in`, and rounding of numbers are not modelled.
- `condition.if` and `math.calculate` themselves, and `JSON.stringify`: taken as given functions.
- Several clock readings within one transaction: one reading stands for `now()` and `new Date()`.
- Deleting routines, tasks, lists or notifications, and editing executions by hand: rows are kept.
- The scheduler, authentication, the optimistic version check, webhook tokens, event formats, HTTP actions and their redirects: they would add library-bound or easy members.
- The notification service's event consumer, which ends in the same idempotent delivery.
- Rendering, polling, 3D views and icons of the web client.
