# Verified model of the operations platform's core protocols

This project models, in Dafny, the parts of the operations platform whose
correctness depends on histories rather than on single calls: the workflow DAG
engine, the exec task and approval protocol, the Redis semaphore that guards
dispatch, the realtime log client, the alert rule engine, and the graph, tree
and configuration codecs.  For each of them the source's loops and row updates
are methods proved against a specification function, and the promises of the
component are theorems about every run, every interleaving or every input.

`dafny verify dfyconfig.toml` checks the whole project.

## Components

| files | component |
|---|---|
| `Graph`, `WorkflowTypes`, `WorkflowValidation` | definition validation and its three-colour depth-first search |
| `WorkflowModel`, `WorkflowEngine` | the engine step, cancel and callback as functions and as in-place code |
| `WorkflowRuns`, `WorkflowTasks`, `WorkflowApprovals` | what every run keeps, and the tasks and approvals it creates |
| `WorkflowOutcomes` | why rows end as they do, and that every answer takes effect |
| `WorkflowLiveness`, `WorkflowSkips`, `WorkflowBiased`, `WorkflowStuck`, `WorkflowChain` | progress and deadlock: why rows are skipped, runs under a one-sided environment, exactly which definitions get stuck, and the shortest example |
| `ExecCas`, `ExecRaces`, `ExecTimeouts` | one exec task row under read-then-compare-and-set clients and the two aggregators; races between clients; the timeout sweep |
| `AutoPolicy`, `ExecApprovals` | the auto-approval licence; tasks and approvals, one transaction at a time |
| `Semaphore`, `ExecDispatch` | the counter semaphore command by command; permits held by a dispatch |
| `LogReplay` | the realtime log client under lossy frames and overlapping backfills |
| `AlertModel`, `AlertEngine`, `AlertRuns`, `AlertOutcomes`, `AlertEscalation` | alert transactions, the in-place engine, run invariants, what events and sweeps make of alerts, escalation |
| `CmdbTopology` | bounded breadth-first search over CMDB relations |
| `CategoryForest` | the knowledge-base category forest under create, move and delete |
| `ConfigCodec` | masking and encrypting of nested configurations (adapter and SSO variants) |

## What the model assumes

- `step`, `cancel_run`, `callback_node`, an approval decision, a rule evaluation
  and a sweep are atomic transactions that see their own writes. The exec row,
  the semaphore and the log client are modelled below that level, as
  interleavings of individual reads and writes.
- Clocks, row order of unordered queries, exec tasks, approvals, sensitivity
  verdicts, lost frames and failing calls are inputs: theorems quantify over
  all of them. In a workflow step any row's turn, the creation of a task, the
  commit of its link and the final commit may fail; in a dispatch any acquire,
  release, commit, read, execution or rollback may.
- Integers are unbounded as in Python. Timestamps are integers; each transaction
  reads the clock once.
- Encryption is a pair of functions of which only invertibility, non-empty
  ciphertext and "plaintext no longer than ciphertext" are used.

## Results where the code does not do what one would expect

- An accepted definition can get stuck for ever, in two ways. (1) The validator
  records every reference as (reference, node), while the engine reads
  `on_success` the other way round, so nodes may wait for each other: a
  definition in which `a` depends on `b` and also names `b` in `on_success` is
  accepted and never moves (`MixedDefinitionDeadlocks`). (2) A skipped success
  source leaves its targets waiting: in a chain a -> b -> c of success routes a
  failure of `a` skips `b`, and `c` waits for ever (`RouteChainDeadlocks`); using
  routes alone therefore does not protect a definition, although its wait graph
  is acyclic (`RoutesOnlyWaitsAcyclically`).
- Exactly when: for definitions of exec tasks without failure routes, no run ever
  deadlocks if and only if the wait graph is acyclic and along every success
  route b -> c each node whose failure dooms b also dooms c (`NeverStuckIff`);
  with routes alone, if and only if the routes are transitive
  (`RoutesOnlyNeverStuckIff`). For every accepted definition, whatever its node
  types and failure routes, an acyclic wait graph in which c waits for all that b
  waits for, along each success route b -> c, is enough (`CoveredNeverStuck`);
  definitions without success routes are the simplest case
  (`DependsOnlyNeverStuck`).
- A step that raises after creating a gated exec task has committed the task but
  not the link to it; the next step creates another one, without bound. What
  raises does not matter: a later sleep node whose `duration_sec` is no number is
  enough, and the validator accepts it (`TasksWithoutBound`, for a second node of
  any type). A step loses a link exactly when something raises and the first thing
  that does is the commit of a new link, or comes after a gated creation with no
  other creation in between; the rows and the answers tell so beforehand
  (`StrandsIff`, `LostExactlyWhenStranding`).
- `approval_request.biz_id` is unique across all domains and approvals are never
  deleted, so a task that was gated once can never be gated again: a retry that
  is found sensitive is refused for ever (`SensitiveRetryLandsIff`,
  `GatedAtMostOnce`). A terminal approval with the same number blocks a
  sensitive creation (`SensitiveCreateLandsIff`). `retry_task` is
  written to raise a fresh approval in that case.
- The semaphore exceeds its limit when the lock key expires while a live process
  is inside its critical section (`ExpiryBreaksLimit`). The counter is not the
  number of holders (`LostDecrement`): it is that number plus the decrements that
  fell between another process's read and write, plus the permits of crashed
  owners (`CounterAccount`). Lost decrements alone never close the semaphore
  (`IdleMeansAvailable`), crashed owners do (`IdleAcquireIff`).
- A dispatch loses permits in several ways: an exception while executing one host,
  or a release that raises, keeps those of all later hosts; a row that cannot be
  read keeps its own and the later ones, a row that has vanished its own; a
  per-host acquire that raises keeps the global permit taken before it. All permits
  come back exactly under the condition of `NothingLeaksIff`.
- The two task aggregators differ on exactly one input, the task without hosts
  (`AggregatorsAgree`). A host row written from a stale read can leave a running
  host in a finished task (`StaleStartSlipsThrough`), and nothing else can
  (`FinishedTasksHaveNoActiveHost`).
- Escalation goes on for ever when the levels ahead repeat an earlier level, and
  only then (`RepeatedLevelsNeverEnd`, `EscalationsAreBounded`); a run from empty
  tables reaches that case (`EscalationsWithoutBound`).
- The notification cooldown counts the log row the firing itself just wrote, so
  with any cooldown set the notification of a fresh firing is always suppressed
  (`FreshFiringIsMutedIff`).
- A run without nodes never ends (`EmptyRunNeverEnds`).
- The only thing the codec encrypts is a string directly under a secret key that has
  no asterisk (or it is taken for a mask) and does not begin with `enc:` (or it is
  taken for ciphertext). Submitted for the first time, any other value under a secret
  key stays as it is: a number, the strings of a list, the leaves of an object
  (`PlaintextStored`, `ReadableShapes`). `SealsExactly` gives the condition under
  which a write leaves nothing readable at or below a secret key. Echoing the masked
  view keeps a configuration exactly when it is stable, which rules out plaintext
  under a secret key, and for SSO a bare `enc:` (`EchoedMaskKeepsConfig`).

## Model

| member | source | states |
|---|---|---|
| `WorkflowValidation.Adjacency` | backend/app/services/workflow_service.py:167-169 | The adjacency lists hold exactly the edges, and every successor is a known key. |
| `WorkflowValidation.CycleSearch.constructor` | backend/app/services/workflow_service.py:167-171 | All vertices start white: empty path, nothing finished, search state valid. |
| `WorkflowValidation.CycleSearch.Visit` | backend/app/services/workflow_service.py:173-180 | A raise means a real cycle; a normal return has finished the vertex, kept the grey path and not grown the white set; white vertices are the termination measure. |
| `WorkflowValidation.CycleSearch.ExamineAll` | backend/app/services/workflow_service.py:175-179 | The loop over the successors: a raise means a real cycle, otherwise all successors are finished, the grey path is kept and the white set has not grown. |
| `WorkflowValidation.CycleSearch.Examine` | backend/app/services/workflow_service.py:175-179 | A grey successor raises on a real cycle; otherwise the successor is finished afterwards. |
| `WorkflowValidation.CycleSearch.Enter` | backend/app/services/workflow_service.py:174-174 | The vertex turns grey, extends the path as a walk and leaves the white set strictly smaller. |
| `WorkflowValidation.CycleSearch.Finish` | backend/app/services/workflow_service.py:180-180 | The vertex turns black after all its successors; the finish order stays topological. |
| `WorkflowValidation.CycleSearch.CycleThrough` | backend/app/services/workflow_service.py:176-177 | An edge back into the grey path closes a directed cycle. |
| `WorkflowValidation.AssertAcyclic` | backend/app/services/workflow_service.py:166-184 | The search raises if and only if the graph has a directed cycle. |
| `WorkflowValidation.CollectKeys` | backend/app/services/workflow_service.py:196-209 | Succeeds exactly on well-formed nodes with distinct keys and known types, returns exactly their keys, and every error names a real defect. |
| `WorkflowValidation.CollectRefs` | backend/app/services/workflow_service.py:216-225 | One reference field: accepted exactly when it is a list of known keys; the recorded pairs are exactly (reference, node). |
| `WorkflowValidation.CollectNode` | backend/app/services/workflow_service.py:215-225 | The three fields of one node: all accepted or a true defect; edge set and count are exact. |
| `WorkflowValidation.CollectEdges` | backend/app/services/workflow_service.py:211-225 | All nodes: exact edge set and edge count, or a true defect. |
| `WorkflowValidation.ValidateDefinition` | backend/app/services/workflow_service.py:187-229 | A definition is accepted if and only if it is within the caps, well formed, and its recorded graph is acyclic; every refusal is truthful. |
| `WorkflowModel.ReadyMeansCaused` | backend/app/services/workflow_engine.py:134-150 | The verdict is `ready` exactly when a failed node routes here through `on_failure`, or all dependencies and success sources succeeded. |
| `WorkflowModel.CauseKept` | backend/app/services/workflow_engine.py:134-150 | A cause, once there, stays as long as outcomes stay. |
| `WorkflowEngine.BuildRoutes` | backend/app/services/workflow_engine.py:123-131 | The two route tables map every target to exactly the nodes that name it. |
| `WorkflowEngine.Run.ActivateRows` | backend/app/services/workflow_engine.py:367-382 | The first loop over the rows equals the specified activation, with the exact set of activated rows and the exact progress flag. |
| `WorkflowEngine.Run.CreateExecTask` | backend/app/services/workflow_engine.py:198-237 | Creation commits before the link is written; only an ungated task commits the link as well, and a failure of that commit leaves the task without a link. |
| `WorkflowEngine.Run.AdvanceRunningRows` | backend/app/services/workflow_engine.py:384-387 | The second loop, including a raise on the turn of any row, leaves session, database and created tasks as specified. |
| `WorkflowEngine.Run.AdvanceWaitingRows` | backend/app/services/workflow_engine.py:389-392 | The third loop raises exactly when the turn of some waiting row does; otherwise it settles every waiting row once, and the flag says exactly whether something changed. |
| `WorkflowEngine.Run.Finalise` | backend/app/services/workflow_engine.py:394-404 | The run ends exactly when it has rows and all are terminal: failed with the first failed row's error if any row failed, else succeeded. |
| `WorkflowEngine.Run.BeginStep` | backend/app/services/workflow_engine.py:350-387 | The first half of a step equals `Swept`: activation, then the second loop, with whatever was committed on the way. |
| `WorkflowEngine.Run.EndStep` | backend/app/services/workflow_engine.py:389-409 | The rest of a step raises exactly when a waiting row's turn or the final commit does, and then commits nothing; otherwise settled rows and the end of the run are committed. |
| `WorkflowEngine.Run.StepRun` | backend/app/services/workflow_engine.py:347-409 | The in-place step equals `Step` in database state, result, created tasks and raise, wherever it raises. |
| `WorkflowEngine.Run.CancelRun` | backend/app/services/workflow_service.py:528-561 | Cancelling is refused exactly on ended runs; otherwise the run is cancelled and every open row skipped. |
| `WorkflowEngine.Run.CallbackNode` | backend/app/services/workflow_service.py:618-655 | Succeeds exactly on a waiting callback node and changes only that row. |
| `WorkflowRuns.StepOk` | backend/app/services/workflow_engine.py:347-409 | Every step keeps the invariant, rows only evolve forward, and progress is reported exactly when something changed. |
| `WorkflowRuns.ReachableStates` | backend/app/services/workflow_engine.py:280-409 | In every state reached by steps, cancels and callbacks: causal order, at most one activation per node, terminal runs have only terminal nodes, and an engine-finalised run is failed exactly when a node failed. |
| `WorkflowRuns.EndedNodesFrozen` | backend/app/services/workflow_engine.py:280-409 | Between any two points of a run, an ended node never changes and links to tasks and approvals are kept. |
| `WorkflowRuns.RankFalls` | backend/app/services/workflow_engine.py:198-409 | No transaction raises the total rank and every progressing step lowers it. |
| `WorkflowRuns.BoundedProgress` | backend/app/services/workflow_engine.py:198-409 | A run of n nodes has at most 4n + 2 progressing steps, whatever the environment does. |
| `WorkflowRuns.ActivationIgnoresOrder` | backend/app/services/workflow_engine.py:366-382 | The rows one pass activates are the pending rows that had a cause before it, in any row order. |
| `WorkflowRuns.SkipsDependOnOrder` | backend/app/services/workflow_engine.py:366-382 | In-pass skips do depend on row order: down a dependency chain behind a failure, one order skips two rows and the other one. |
| `WorkflowTasks.TickLinks` | backend/app/services/workflow_engine.py:198-237 | A step keeps the link of each row or records the one task it created; the link is lost exactly for the last task of a stranding step. |
| `WorkflowTasks.StrandsIff` | backend/app/services/workflow_engine.py:384-409 | A step raises with the link of its last created task uncommitted if and only if, by the rows and answers it starts from, the first thing to raise is the commit of a new link, or the needy row nearest before it is gated. |
| `WorkflowTasks.AtMostOneTask` | backend/app/services/workflow_engine.py:198-237 | Over a whole run without such a step, a node gets at most one exec task, and the run remembers it. |
| `WorkflowTasks.LostExactlyWhenStranding` | backend/app/services/workflow_engine.py:198-237 | A step leaves a created task unlinked if and only if that condition on its inputs holds. |
| `WorkflowTasks.TasksWithoutBound` | backend/app/services/workflow_engine.py:280-318 | Without that condition the bound fails: for every n and every type of the raising node there is a run that creates n tasks for one exec node. |
| `WorkflowApprovals.StepApprovals` | backend/app/services/workflow_engine.py:260-277 | A step leaves as many approvals for a manual node in the database as it adds links to its row, raises included. |
| `WorkflowApprovals.AtMostOneApproval` | backend/app/services/workflow_engine.py:260-277 | Over every run a manual node gets at most one approval, exactly when the run remembers it. |
| `WorkflowOutcomes.TimeoutMeaning` | backend/app/services/workflow_engine.py:84-111 | The effective timeout is the nearest number in 0..86400 to the first entry present, and without an entry only callbacks have one. |
| `WorkflowOutcomes.StepTold` | backend/app/services/workflow_engine.py:347-409 | Every step, raising or not, changes a row only as its tick says: pending rows start now or are skipped, open rows end only for a reason the tick gave, ended rows stay. |
| `WorkflowOutcomes.OutcomesHaveCauses` | backend/app/services/workflow_engine.py:240-341 | Over every run a started row was started by a tick at the recorded time; it succeeded only after a later approval, finished task, callback or elapsed wait, and failed only after a later refusal, broken or lost task, or overdue timeout, whichever its error names. |
| `WorkflowOutcomes.GateFollowsItsApproval` | backend/app/services/workflow_engine.py:328-336 | Over every run a manual gate succeeds only if some tick reports its approval approved, and is rejected only if one reports it rejected or canceled. |
| `WorkflowOutcomes.NothingStartsBehindAGate` | backend/app/services/workflow_engine.py:134-150 | As long as a gate is not approved, no node on a path of dependencies and success routes behind it is ever started, where no failure route leads in. |
| `WorkflowOutcomes.PendingTakesItsVerdict` | backend/app/services/workflow_engine.py:366-382 | A step that does not raise starts a pending row exactly when it had a cause before, and skips it when it had a cause to be skipped and no failure led to it. |
| `WorkflowOutcomes.LinksAreTheOnesMade` | backend/app/services/workflow_engine.py:198-277 | A row remembers the very task and approval that were made for it. |
| `WorkflowOutcomes.GateTakesItsAnswer` | backend/app/services/workflow_engine.py:328-340 | A waiting gate succeeds in a step exactly when it is approved, is rejected exactly when refused, otherwise times out exactly when overdue, and else stays. |
| `WorkflowOutcomes.TaskRowTakesItsAnswer` | backend/app/services/workflow_engine.py:240-257 | A row with a task succeeds exactly on success or partial, fails exactly on a failed, timed-out or canceled task or a lost one, resumes on a running one; a waiting one may time out. |
| `WorkflowOutcomes.SleeperTakesItsTime` | backend/app/services/workflow_engine.py:283-303 | A sleeping row times out exactly when overdue, and otherwise succeeds exactly when its point in time or its duration has passed. |
| `WorkflowOutcomes.CallbackTakesItsCall` | backend/app/services/workflow_engine.py:337-340 | A waiting callback succeeds on its call, which touches no other row; a step ends it exactly when overdue. |
| `WorkflowOutcomes.FailedRunNamesItsError` | backend/app/services/workflow_engine.py:394-402 | A run that ends as failed carries the error of its first failed row. |
| `WorkflowOutcomes.CancelSkipsOpenRows` | backend/app/services/workflow_service.py:528-561 | Cancelling a live run skips exactly its open rows. |
| `WorkflowOutcomes.EndedRunsNeverChange` | backend/app/services/workflow_engine.py:350-352 | No step, cancel or callback changes a run that has ended. |
| `WorkflowLiveness.StuckOnSkippedSource` | backend/app/services/workflow_engine.py:134-150 | With an acyclic wait graph, a deadlock needs a pending node with a skipped or cancelled success source. |
| `WorkflowLiveness.ProgressUnlessDeadlocked` | backend/app/services/workflow_engine.py:347-409 | With nothing in flight a step raises only if its own end fails; if it does not, it makes progress if and only if the run is not deadlocked. |
| `WorkflowLiveness.DeadlockIsForever` | backend/app/services/workflow_engine.py:347-409 | A deadlocked run never changes a row again until it is cancelled. |
| `WorkflowLiveness.EmptyRunNeverEnds` | backend/app/services/workflow_engine.py:395-395 | A run without nodes never ends by itself. |
| `WorkflowLiveness.DependsOnlyWaitsAcyclically` | backend/app/services/workflow_service.py:211-228 | An accepted definition without success routes has an acyclic wait graph. |
| `WorkflowLiveness.RoutesOnlyWaitsAcyclically` | backend/app/services/workflow_service.py:211-228 | An accepted definition without dependencies has an acyclic wait graph (it can still deadlock, see `RouteChainDeadlocks`). |
| `WorkflowLiveness.DependsOnlyNeverStuck` | backend/app/services/workflow_engine.py:347-409 | An accepted, non-empty definition without success routes makes progress in every reachable state in which nothing is in flight, in every step whose commit does not fail. |
| `WorkflowLiveness.MixedAccepted` | backend/app/services/workflow_service.py:224-228 | A definition in which two nodes wait for each other is accepted. |
| `WorkflowLiveness.MixedDefinitionDeadlocks` | backend/app/services/workflow_engine.py:127-150 | Its run never changes a row, whatever happens short of a cancel. |
| `WorkflowSkips.SkippedRowsHaveACause` | backend/app/services/workflow_engine.py:134-150 | In every uncancelled run a skipped row has a failed success source or a failed or skipped dependency, and no row is cancelled. |
| `WorkflowSkips.SkipVerdict` | backend/app/services/workflow_engine.py:134-150 | The verdict is `skip` exactly when a success source failed or a dependency ended without success, and no failed node routes here through `on_failure`. |
| `WorkflowSkips.CoveredNeverStuck` | backend/app/services/workflow_engine.py:347-409 | Every accepted, non-empty definition with an acyclic wait graph in which c waits for all that b waits for, along each success route b -> c: no run deadlocks, and with nothing in flight the next step whose commit does not fail progresses. |
| `WorkflowBiased.BiasedRest` | backend/app/services/workflow_engine.py:240-257 | If every task is created at once and only one chosen node's task fails, an n-node run is at rest after 4n + 2 steps. |
| `WorkflowStuck.UnfollowedDeadlocks` | backend/app/services/workflow_engine.py:134-150 | If some node's failure dooms b but not its success target c, a run in which only that node fails deadlocks. |
| `WorkflowStuck.CyclicDeadlocks` | backend/app/services/workflow_engine.py:134-150 | If the wait graph has a cycle, even the run in which every task succeeds deadlocks. |
| `WorkflowStuck.NeverStuckIff` | backend/app/services/workflow_engine.py:123-150 | For accepted, non-empty definitions of exec tasks without failure routes: no run ever deadlocks if and only if the wait graph is acyclic and every success route is followed. |
| `WorkflowStuck.RoutesOnlyNeverStuckIff` | backend/app/services/workflow_engine.py:123-150 | With routes alone: if and only if the routes are transitive. |
| `WorkflowChain.RouteChainDeadlocks` | backend/app/services/workflow_engine.py:142-149 | Three sleeping nodes in a chain of success routes are accepted, deadlock after three steps, and stay so until cancelled. |
| `ExecCas.AggregateMeaning` | backend/app/tasks/exec_tasks.py:203-223 | No result while a host is active; success iff all hosts succeeded; partial iff only successes and cancels, at least one of each; failed otherwise. |
| `ExecCas.AggregatorsAgree` | backend/app/ws/agent_ws.py:304-335 | The agent loop's aggregate equals the dispatcher's if and only if the task has a host. |
| `ExecCas.EachVersionConsumedOnce` | backend/app/repositories/__init__.py:305-312 | In every interleaving of reading and updating clients, each version is consumed by exactly one transition, the transitions form one chain of legal moves, and `approved` and `pending` never occur. |
| `ExecCas.GuardsAreExact` | backend/app/services/exec_service.py:389-447 | From the statuses that occur, the clients' own guards let through exactly the legal moves of a task's life. |
| `ExecCas.MovesAreLegal` | backend/app/repositories/__init__.py:305-312 | In every interleaving each transition is one of these moves, made by one who may make it. |
| `ExecCas.FinishedForGood` | backend/app/services/exec_service.py:389-389 | `success` and `partial` are absorbing. |
| `ExecRaces.CasLandsIffUndisturbed` | backend/app/repositories/__init__.py:305-312 | An update lands if and only if the client's own guards pass and no transition landed since it read the row. |
| `ExecRaces.CancelAndRetryDefeatOldClients` | backend/app/repositories/__init__.py:305-312 | After a cancel and a retry the status is the same again, yet no update of an old reader can land. |
| `ExecRaces.OneEndPerAttempt` | backend/app/tasks/exec_tasks.py:193-235 | Between two transitions out of `running` a retry or an approval re-enters it: a dispatcher never overwrites a cancel or a timeout. |
| `ExecRaces.FinishedTasksHaveNoActiveHost` | backend/app/tasks/exec_tasks.py:203-235 | When a finishing update lands, a host is pending or running if and only if the last of its stale starts and terminal results since the counts were read is a stale start. |
| `ExecRaces.StaleStartSlipsThrough` | backend/app/tasks/exec_tasks.py:140-158 | A run from the creation of a task to `success` that leaves a host running. |
| `ExecRaces.HostsHaveCauses` | backend/app/tasks/exec_tasks.py:140-158 | Over every interleaving a running host was started, a succeeded or failed one has reported it, and a canceled or timed-out one has reported it or went with its task. |
| `ExecRaces.SuccessMeansReported` | backend/app/tasks/exec_tasks.py:203-235 | A task that succeeded has hosts and each of them has reported success; one that partly succeeded has a host that has. |
| `ExecRaces.LandingMovesHosts` | backend/app/services/exec_service.py:392-509 | A landed cancel or timeout ends exactly the active hosts, a landed restart resets exactly the unsuccessful ones, other transitions leave hosts alone. |
| `ExecCas.TaskRow.OptimisticUpdate` | backend/app/repositories/__init__.py:305-312 | Hits exactly when status and version match, then moves both; otherwise changes nothing. |
| `ExecTimeouts.TaskTable.TimeOut` | backend/app/tasks/exec_tasks.py:287-294 | One candidate of the sweep under compare-and-set, together with its active hosts. |
| `ExecTimeouts.TaskTable.ScanTimeouts` | backend/app/tasks/exec_tasks.py:277-299 | Exactly the due tasks whose row is still the one read become `timed_out`, with exactly their active hosts; the count is exact. |
| `AutoPolicy.LevelMatrix.PutLevel` | backend/app/services/ai_automation_service.py:132-160 | Refused exactly for unknown levels and for L4 without governed policies; otherwise the new level is the only enabled one and is the current one. |
| `AutoPolicy.WithLevelIsExclusive` | backend/app/services/ai_automation_service.py:151-158 | Setting a level leaves exactly that level enabled, adding its row when missing. |
| `AutoPolicy.AutoHitExactly` | backend/app/services/ai_automation_service.py:75-115 | The hit test names policy p if and only if the feature is on, the risk is low, L4 is enabled, the breaker is not open, p is the only matching L4 policy, and its action is listed as low risk. |
| `AutoPolicy.BreakerRow.RecordVerificationResult` | backend/app/services/ai_automation_service.py:365-398 | The in-place breaker transition equals `Record`. |
| `AutoPolicy.FailuresTrip` | backend/app/services/ai_automation_service.py:365-398 | As many failures in a row as the threshold (and at least one) open the breaker from any state. |
| `AutoPolicy.OpensExactlyOnAStreak` | backend/app/services/ai_automation_service.py:365-398 | A closed breaker opens at a result if and only if the last `threshold` results, at least one, are failures. |
| `AutoPolicy.TwoSuccessesClose` | backend/app/services/ai_automation_service.py:365-398 | Two successes in a row close it from any history and reset the counter. |
| `AutoPolicy.ReopeningNeedsTwo` | backend/app/services/ai_automation_service.py:365-398 | An open breaker is closed again only after two successes in a row. |
| `ExecApprovals.LockstepInEveryRun` | backend/app/services/approval_service.py:97-215 | Over every run of transactions an exec approval is pending exactly when its task awaits approval and points back to it; biz ids stay unique and at most one level is enabled. |
| `ExecApprovals.NoUnlicensedStart` | backend/app/services/exec_service.py:195-232 | Every entry of a task into `running`, in any run, has a non-sensitive verdict, its own approval moving from pending to approved in that transaction, or a policy hit under L4 as the only enabled level. |
| `ExecApprovals.TasksMoveAsTold` | backend/app/services/exec_service.py:140-509 | Over every run, whatever the transaction: a task starts, is gated, is canceled or ends if and only if `Brings` says so, each move raises its version by one, and nothing else touches its row. |
| `ExecApprovals.DecisionsTakeEffect` | backend/app/services/approval_service.py:97-215 | Over every run, of a pending exec approval: only approving approves it and that starts its task; only rejecting rejects it, only withdrawing it or cancelling the task cancels it, and these cancel the task; as long as it is undecided the task stays. |
| `ExecApprovals.ForeignDecisions` | backend/app/services/approval_service.py:97-133 | Approvals of the other known domains are decided as asked and move no task; of an unknown domain nothing is decided. |
| `ExecApprovals.SensitiveCreateLandsIff` | backend/app/services/exec_service.py:176-196 | A sensitive creation lands if and only if no approval of any domain owns the new task's number. |
| `ExecApprovals.SensitiveRetryLandsIff` | backend/app/services/exec_service.py:474-496 | A sensitive retry lands if and only if the task is retryable and no approval was ever raised for its number. |
| `ExecApprovals.GatedAtMostOnce` | backend/app/db/models/schedule.py:53-59 | Over every run a task enters `awaiting_approval` at most once in its life. |
| `ExecApprovals.Store.CreateExecTask` | backend/app/services/exec_service.py:140-233 | The stepwise creation, with rollback, equals the specified transaction; it succeeds exactly when not sensitive or the number is free. |
| `ExecApprovals.Store.Gate` | backend/app/services/exec_service.py:176-221 | Gating a fresh task: approval inserted and linked, then decided at once on a policy hit. |
| `ExecApprovals.Store.PreAuthorise` | backend/app/services/exec_service.py:200-218 | A hit approves the row under its policy and starts the task; a miss changes nothing. |
| `ExecApprovals.Store.ApproveLinkages` | backend/app/services/approval_service.py:97-133 | Starts exactly the awaiting task of an exec approval, refuses unknown domains and lost tasks. |
| `ExecApprovals.Store.ApproveRequest` | backend/app/services/approval_service.py:136-154 | Decision and task start land together or not at all. |
| `ExecApprovals.Store.RefuseRequest` | backend/app/services/approval_service.py:157-215 | Reject and cancel decide the approval and cancel the awaiting task with it. |
| `ExecApprovals.Store.CloseOrphanApproval` | backend/app/services/exec_service.py:512-518 | Cancels the linked approval exactly when it is still pending. |
| `ExecApprovals.Store.CancelExecTask` | backend/app/services/exec_service.py:392-420 | Moves a cancellable task to canceled and closes its pending approval; nothing else. |
| `ExecApprovals.Store.StopTask` | backend/app/services/exec_service.py:423-436 | Accepted exactly on running tasks, then as a cancel. |
| `ExecApprovals.Store.RetryTask` | backend/app/services/exec_service.py:452-509 | Restarts, gates or refuses a retry with rollback, and says exactly which. |
| `Semaphore.NeverOverLimit` | backend/app/core/redis_helper.py:110-134 | Under every interleaving of single commands and crashes of any number of processes, with the lock outliving the sections of live processes, holders never exceed the limit and the counter never falls below them. |
| `Semaphore.CounterAccount` | backend/app/core/redis_helper.py:110-134 | Over every such run the counter is exactly the holders, plus the decrements between a read and its granting write, plus the permits of crashed owners. |
| `Semaphore.CounterExactIff` | backend/app/core/redis_helper.py:110-134 | The counter equals the holders if and only if no decrement was lost and no owner crashed. |
| `Semaphore.IdleAcquireIff` | backend/app/core/redis_helper.py:110-134 | With no holder and the lock free, the next acquire succeeds if and only if the lost permits are fewer than the limit. |
| `Semaphore.IdleMeansAvailable` | backend/app/core/redis_helper.py:110-134 | Without a crashed owner it always succeeds: lost decrements alone never close the semaphore. |
| `Semaphore.AcquireOutcome` | backend/app/core/redis_helper.py:117-127 | An uninterrupted acquire succeeds exactly when the lock is free and the counter below the limit, and restores the lock. |
| `Semaphore.ExpiryBreaksLimit` | backend/app/core/redis_helper.py:117-127 | With the lock expiring inside a section, two processes hold one permit. |
| `Semaphore.LostDecrement` | backend/app/core/redis_helper.py:130-134 | A release between another process's read and write is lost. |
| `Semaphore.Client.AcquireSemaphore` | backend/app/core/redis_helper.py:110-127 | The helper's code performs exactly the modelled commands and reports exactly whether it holds a permit. |
| `Semaphore.Client.ReleaseSemaphore` | backend/app/core/redis_helper.py:130-134 | Release is one bare decrement. |
| `ExecDispatch.StartRows` | backend/app/tasks/exec_tasks.py:139-162 | The start loop holds exactly one global and one per-host permit for each started row, plus what the row that ended the loop keeps, whichever call was refused or raised. |
| `ExecDispatch.TryRow` | backend/app/tasks/exec_tasks.py:142-157 | One row of the start loop through its nested handlers: passed over, started, or ending the loop, with exactly the permits it then holds. |
| `ExecDispatch.GiveBack` | backend/app/tasks/exec_tasks.py:189-191 | Both permits of a row, the host's first: says which come back when a release raises. |
| `ExecDispatch.FinishRows` | backend/app/tasks/exec_tasks.py:165-191 | The second loop keeps exactly what `Finish` tells of the started rows. |
| `ExecDispatch.Dispatch` | backend/app/tasks/exec_tasks.py:139-191 | Permits are conserved: what a dispatch still holds at its end, whichever calls raised, are exactly the permits told by `DispatchKeeps`. |
| `ExecDispatch.NothingLeaksIff` | backend/app/tasks/exec_tasks.py:139-191 | All permits come back if and only if the row that ended the first loop kept none, and every started row was read, present and released with none but the last aborting the loop, or, when the rollback raises too, none was started. |
| `LogReplay.PageIsSlice` | backend/app/repositories/__init__.py:346-350 | A page is the contiguous piece of the log that begins right after the cursor. |
| `LogReplay.CommittedPage` | backend/app/services/exec_service.py:366-370 | A page over a committed prefix is a slice of the full log. |
| `LogReplay.LinesAreExact` | frontend/src/composables/useRealtimeLog.ts:56-143 | Under any loss, duplication, reordering and overlap, the lines are exactly the log entries up to the cursor, in order and once each. |
| `LogReplay.EveryFrameCounts` | frontend/src/composables/useRealtimeLog.ts:131-143 | In every reachable state the frame right after the cursor is shown at once, a later one asks for a backfill from the cursor, an earlier one changes nothing; it is on screen afterwards exactly when it is not past that place. |
| `LogReplay.LiveTail` | frontend/src/composables/useRealtimeLog.ts:131-143 | Frames of a log numbered without gaps that arrive in order show the log line by line, without any backfill. |
| `LogReplay.BackfillRecovers` | frontend/src/composables/useRealtimeLog.ts:66-74 | Whatever was lost before, one undisturbed backfill over a committed log ends with the whole log on screen. |
| `LogReplay.EndedBackfillCaughtUp` | frontend/src/composables/useRealtimeLog.ts:66-74 | When a backfill ends on an answer, everything committed when that answer was served is shown. |
| `LogReplay.BackfillTerminates` | frontend/src/composables/useRealtimeLog.ts:66-74 | A backfill handles at most one page per remaining entry plus one. |
| `LogReplay.Client.AppendBatch` | frontend/src/composables/useRealtimeLog.ts:56-63 | The loop equals `Append`. |
| `LogReplay.Client.OnMessage` | frontend/src/composables/useRealtimeLog.ts:131-143 | The frame handler equals `OnFrame`, and asks for a backfill exactly on a gap. |
| `LogReplay.Client.HandlePage` | frontend/src/composables/useRealtimeLog.ts:66-74 | One backfill iteration equals `OnPage`, and goes on exactly when it asked again. |
| `AlertModel.Latest` | backend/app/repositories/__init__.py:811-857 | The query returns the selected alert with the highest id, or none when none is selected. |
| `AlertModel.ActiveIds` | backend/app/repositories/__init__.py:859-865 | All active alerts, ascending, each once. |
| `AlertEngine.Engine.Write` | backend/app/services/monitor_service.py:756-763 | Row and log row are written together. |
| `AlertEngine.Engine.MaybeNotify` | backend/app/services/monitor_service.py:722-735 | Suppresses exactly inside the cooldown of the latest fire row. |
| `AlertEngine.Engine.FindLastFire` | backend/app/services/monitor_service.py:726-729 | The scan finds the latest fire row of the alert. |
| `AlertEngine.Engine.MaybeEscalate` | backend/app/services/monitor_service.py:674-699 | Escalates to the next level exactly when it is due. |
| `AlertEngine.Engine.ResolveEngine` | backend/app/services/monitor_service.py:702-719 | Resolves exactly active alerts. |
| `AlertEngine.Engine.TryConverge` | backend/app/services/monitor_service.py:560-588 | Reopens the latest alert resolved within the window, if there is one. |
| `AlertEngine.Engine.EvaluateRule` | backend/app/services/monitor_service.py:600-670 | One rule's treatment of an event equals `OnRule`. |
| `AlertEngine.Engine.EvaluateEvent` | backend/app/services/monitor_service.py:591-671 | The loop over the rules equals the ingest transaction. |
| `AlertEngine.Engine.SweepAlert` | backend/app/services/monitor_service.py:1356-1378 | One alert's treatment by the sweep, with exact flags. |
| `AlertEngine.Engine.SweepActiveAlerts` | backend/app/services/monitor_service.py:1336-1380 | The sweep equals its transaction; its counters are exactly the firing and escalation rows it wrote. |
| `AlertEngine.Engine.AcknowledgeAlert` | backend/app/services/monitor_service.py:885-903 | Accepted exactly on firing alerts. |
| `AlertEngine.Engine.ResolveAlert` | backend/app/services/monitor_service.py:906-927 | Accepted exactly on active alerts. |
| `AlertRuns.OneActivePerRuleAndEntity` | backend/app/services/monitor_service.py:591-671 | In every run each rule and entity have at most one pending, firing or acknowledged alert. |
| `AlertRuns.LogIsAChain` | backend/app/services/monitor_service.py:591-719 | In every run each alert's log is a contiguous chain that ends in the alert's status and severity. |
| `AlertRuns.FiringMeansSustained` | backend/app/services/monitor_service.py:605-660 | In every run, when an alert fires it has been pending since an opening row at least the rule's duration before, and no event since then failed the condition; reopenings included. |
| `AlertOutcomes.EventOutcome` | backend/app/services/monitor_service.py:591-671 | In every run, what an event makes of each rule's alerts: nothing if it is not the rule's business; failing the condition it resolves the open alert of its entity; meeting it, the one open alert is held or fired, or the latest recent one is reopened, or a new one opened. |
| `AlertOutcomes.OneOpenExactlyOnHits` | backend/app/services/monitor_service.py:600-670 | After a failing event no alert of rule and entity is active; after a hit exactly one is, last touched now, firing if it had been pending for the duration. |
| `AlertOutcomes.SweepListMeaning` | backend/app/repositories/__init__.py:859-865 | The sweep's list holds exactly the active alerts with fewer than 500 active ones before them. |
| `AlertOutcomes.SweepOutcome` | backend/app/services/monitor_service.py:1356-1378 | In every run a sweep fires a listed, fresh, enabled pending alert exactly when its duration has passed, raises a fired one exactly when due, and leaves stale and all other alerts as they are. |
| `AlertOutcomes.LogTellsWhatHappened` | backend/app/services/monitor_service.py:756-763 | In every run each log row's action names the move it records. |
| `AlertOutcomes.OperatorOutcome` | backend/app/services/monitor_service.py:885-927 | Acknowledging moves exactly a firing alert, resolving exactly an active one; no other alert changes status. |
| `AlertEscalation.EscalationsAreBounded` | backend/app/services/monitor_service.py:674-699 | If the levels after the initial severity do not repeat earlier ones, the escalations of an alert's whole life are exactly the positions climbed, at most the number of levels. |
| `AlertEscalation.DistinctLevelsClimb` | backend/app/services/monitor_service.py:682-690 | Distinct levels meet that condition from any severity. |
| `AlertEscalation.EscalationTakesItsWindows` | backend/app/services/monitor_service.py:691-693 | Position p is reached only p + 1 windows after the alert last fired. |
| `AlertEscalation.RepeatedLevelsNeverEnd` | backend/app/services/monitor_service.py:682-699 | If the levels ahead do repeat an earlier one, any number of late hits each escalate once more. |
| `AlertEscalation.EscalationsWithoutBound` | backend/app/services/monitor_service.py:674-699 | For every n there is a run from empty tables that escalates one alert exactly n times, under a rule whose levels repeat. |
| `AlertEscalation.FreshFiringIsMutedIff` | backend/app/services/monitor_service.py:722-735 | The notification of a fresh firing is suppressed if and only if a cooldown is set. |
| `AlertEscalation.LaterHitIsMutedIff` | backend/app/services/monitor_service.py:722-735 | A hit on an alert that has fired writes a suppress row if and only if some fire row of the alert is younger than the cooldown. |
| `CmdbTopology.EdgesFor` | backend/app/services/cmdb_service.py:121-139 | Exactly the relations of the asked types in the asked direction at the node. |
| `CmdbTopology.BallSound` | backend/app/services/cmdb_service.py:317-332 | Everything within k levels is reached by a walk of at most k relations. |
| `CmdbTopology.BallComplete` | backend/app/services/cmdb_service.py:317-332 | Every walk of at most k relations ends within k levels. |
| `CmdbTopology.BallMeansPaths` | backend/app/services/cmdb_service.py:121-139 | Within k levels lies exactly what paths of at most k relations of the asked types reach: downward from source to target, upward from target to source, or either way. |
| `CmdbTopology.UpstreamMirrorsDownstream` | backend/app/services/cmdb_service.py:121-139 | One entity lies within k levels downstream of another exactly when that one lies within k levels upstream of it. |
| `CmdbTopology.RolesMeanDirections` | backend/app/services/cmdb_service.py:259-275 | An entity's role says whether it is the target or the source of a relation of a nearer entity; one-way searches give one role. |
| `CmdbTopology.ExpandNode` | backend/app/services/cmdb_service.py:320-327 | One node: visits exactly its neighbours and appends exactly the new ones, once. |
| `CmdbTopology.ExpandLevel` | backend/app/services/cmdb_service.py:318-327 | One level: exactly the unvisited neighbours of the frontier, once each. |
| `CmdbTopology.Search` | backend/app/services/cmdb_service.py:313-332 | Exactly the entities within `depth` but the root, once each, nearest first; truncated exactly when some entity lies at distance `depth`. |
| `CmdbTopology.Impact` | backend/app/services/cmdb_service.py:297-345 | Exactly the visible entities at distance 1 to `depth`, once each and nearest first; depth out of range is refused. |
| `CmdbTopology.TopoLevel` | backend/app/services/cmdb_service.py:259-275 | One level of topology: exact relations, new entities and roles. |
| `CmdbTopology.TopoSearch` | backend/app/services/cmdb_service.py:253-280 | Roles for exactly the entities within `depth`, each explained by a nearer entity, and exactly the relations fetched on the way. |
| `CmdbTopology.Topology` | backend/app/services/cmdb_service.py:251-294 | The visible entities of impact plus the root, once each, nearest first and with their roles; every returned relation joins two returned entities. |
| `CategoryForest.MoveShiftsDepths` | backend/app/services/kb_service.py:134-146 | A move shifts the depths of a whole subtree by the same amount and changes no other depth. |
| `CategoryForest.MoveCheckExact` | backend/app/services/kb_service.py:141-145 | With an existing target outside the subtree, the move keeps the forest if and only if new depth plus height is within the maximum. |
| `CategoryForest.BadMove` | backend/app/services/kb_service.py:136-140 | A move under itself, a descendant or a missing parent always breaks the forest. |
| `CategoryForest.NewLeaf` | backend/app/services/kb_service.py:84-93 | A new category keeps the forest if and only if its depth is within the maximum. |
| `CategoryForest.DeleteLeaf` | backend/app/services/kb_service.py:158-164 | Deleting keeps the forest if and only if the category has no children. |
| `CategoryForest.ChainsDoNotRepeat` | backend/app/services/kb_service.py:41-53 | In a forest no category is its own ancestor, so the cycle guard never triggers. |
| `CategoryForest.Categories.CategoryDepth` | backend/app/services/kb_service.py:41-53 | The loop computes the depth; a missing category has depth 0. |
| `CategoryForest.Categories.IsDescendant` | backend/app/services/kb_service.py:56-68 | True exactly for the category itself and everything under it; a missing node descends from itself alone. |
| `CategoryForest.Categories.SubtreeHeight` | backend/app/services/kb_service.py:71-78 | The recursion ends and returns the largest extra depth below the category. |
| `CategoryForest.Categories.Create` | backend/app/services/kb_service.py:81-99 | Accepted exactly when the result is a forest with an existing parent. |
| `CategoryForest.Categories.Move` | backend/app/services/kb_service.py:124-149 | Accepted exactly when the result is a forest; refusals change nothing. |
| `CategoryForest.Categories.Delete` | backend/app/services/kb_service.py:152-166 | Accepted exactly for existing categories without children and articles; the forest is kept. |
| `ConfigCodec.EchoedMaskKeepsConfig` | backend/app/services/monitor_service.py:276-324 | Over any nested configuration, writing back the masked view leaves it unchanged if and only if it is stable. |
| `ConfigCodec.EncryptStable` | backend/app/services/monitor_service.py:296-324 | A clean submission over a stable configuration gives a stable one. |
| `ConfigCodec.EchoAfterAnyHistory` | backend/app/services/monitor_service.py:276-324 | After any history of clean submissions, echoing the masked view changes nothing. |
| `ConfigCodec.RoundTrip` | backend/app/services/sso_service.py:102-146 | Decrypting a freshly encrypted SSO configuration gives it back if and only if no string starts with the prefix. |
| `ConfigCodec.DecryptIsPointwise` | backend/app/services/sso_service.py:102-114 | Decryption turns each tagged string into its plaintext, or the empty string, and leaves every other value where it was. |
| `ConfigCodec.UpdateIsPointwise` | backend/app/services/monitor_service.py:296-324 | At any depth and in listed objects: a new secret is stored encrypted, a masked or tagged one keeps what was stored, any other submitted leaf is taken as it is, and every omitted path keeps what is stored. |
| `ConfigCodec.SealsExactly` | backend/app/services/sso_service.py:126-146 | Writing a submission over a sealed configuration leaves every string at or below a secret key as ciphertext, and no number there, if and only if each string directly under a secret key is plain (no asterisk, no prefix), is ciphertext already or is kept from what is stored, and everything else below a secret key is sealed as submitted. |
| `ConfigCodec.PlaintextStored` | backend/app/services/monitor_service.py:303-323 | A value under a secret key of which the codec encrypts nothing is stored as submitted, and the result is sealed exactly when the value was. |
| `ConfigCodec.ReadableShapes` | backend/app/services/sso_service.py:135-145 | A new starred or falsely prefixed string, a number, a string in a list and a string under an ordinary key of an object all stay readable below a secret key, in both variants. |
| `ConfigCodec.MaskConfig` | backend/app/services/monitor_service.py:276-287 | The loop that fills the masked view equals `Mask`. |
| `ConfigCodec.MaskHidesExactly` | backend/app/services/monitor_service.py:276-287 | Two configurations of one shape have the same masked view if and only if they are equal but for secrets that look alike: both undecipherable, both at most four long, or both longer with the same first two and last two characters. |
| `ConfigCodec.MaskedLook` | backend/app/core/security.py:112-122 | A long secret is shown as ten characters, its first two, six asterisks and its last two; a short one as four asterisks. |
| `ConfigCodec.EncryptConfig` | backend/app/services/monitor_service.py:296-324 | The merge loop equals `EncryptObj`. |
| `ConfigCodec.EncryptEntry` | backend/app/services/monitor_service.py:303-323 | One key of the merge equals `EncryptField`. |
| `ConfigCodec.DecryptConfig` | backend/app/services/sso_service.py:102-114 | The loop equals `Decrypt`, with undecipherable values turned into the empty string. |

## Left out

- Permissions, ownership, visibility of hosts, feature flags of the services and HTTP error texts: single-branch checks before the modelled code.
- Node output, `finished_at`, context and error texts of workflow rows: written but never read by the modelled logic.
- `workflow_service.retry_run`: it builds rows from one version of the definition and stores another; `cancel_release` and `rollback_run` set a run status without its nodes.
- WorkflowEngine.Run.CancelRun: does not cancel the linked exec tasks in the same transaction; that cancellation is modelled on the exec side (`ExecApprovals.Store.CancelExecTask`).
- WorkflowEngine.Run.CallbackNode: leaves out the token, JWT and payload-size checks, which only refuse.
- WorkflowStuck.NeverStuckIff: is stated for exec tasks without failure routes. A sleep or wait node without a timeout cannot fail, so the converse would depend on every node's configuration; a failure route can start a node whose dependencies failed. For such definitions `CoveredNeverStuck` gives the sufficient half.
- A step that fails before its second loop: it leaves the database as it was. The reuse of a session after a raise by the engine's own timeout scan.
- WorkflowValidation.CollectRefs: references that are not strings are not represented.
- ExecApprovals.Store.CancelExecTask: host rows and the stop frames to agents are not in this layer; the host side of a cancel is in `ExecCas`.
- ExecApprovals.Store.RetryTask: the reset of host rows is not in this layer; it is in `ExecCas`.
- AlertEngine.Engine.SweepActiveAlerts: the feature flag and the sweep interval, which only skip a sweep, are left out.
- Host rows of the agent path: a result overwrites a host's status unconditionally, so no stability of terminal hosts is claimed; which host a dispatcher picks from a stale read is the event `StaleStart`.
- Semaphore fairness, the degraded mode without Redis, and changing limits.
- Lost database commits of log frames broadcast before their commit, and WebSocket reconnection, pings and tokens.
- The inbox, deduplication and metric normalisation in front of rule evaluation; legacy alert rows without `pending_since`; alert versions and concurrent evaluations of one event.
- Delivery of notifications and cooldown spacing between them.
- Topology: the order of the returned relations and the labels of entities.
- Randomness of encryption nonces: `enc` is a function, so re-encrypting a plaintext gives the same ciphertext.
- Category names, sort order and article contents.
- Cron due times, file transfer, tickets, releases, dashboards, LDAP and OAuth exchanges: easy tables, plumbing or foreign code.
