# AgentHero runtime: verified model

AgentHero runs applications as DAGs of agents, tools and control nodes. This project models the parts of the
runtime whose correctness spans many functions or whole runs, and proves what they promise.

- **Manifests and layering** (`Manifest`, `Graph`, `Layers`, `Validation`, `GraphEdits`, `ManifestEdits`). The
  layered Kahn sort, the graph checks of validation, and the commands that add and remove agents. A layering is
  declared by longest paths; the loop is proved to compute it exactly when the expanded edges have no cycle.
- **Runs of a DAG** (`NodeRules`, `NodeFacts`, `Executor`, `ExecutorRun`, `RunOutcomes`, `RunHalts`, `BudgetRuns`). Attempts, loops, maps,
  branches, gates, approvals, budgets, concurrent and sequential passes, pauses, cancellation and replay. `Executor`
  holds the meaning of a run as functions; `ExecutorRun` holds the loops, each proved equal to that meaning.
- **Resuming** (`Artifacts`, `Infixes`, `Checkpoints`, `Locality`, `RunMoves`, `Reference`, `Simulation`, `Resume`, `ResumeExample`). A run that is paused,
  approved and resumed from its own report, any number of times, ends as if it had never paused. A resume is refused
  exactly when an artifact that it would restore has drifted from its file.
- **Concurrent layers** (`ConcurrentLayer`). The semaphore-bounded layer as interleaved steps.
- **Approvals** (`Approvals`). Which keys a paused run's report accepts, and why approving always makes progress.
- **App runs** (`AppRuns`, `AppRunHistory`, `AppRunStore`). The claim, lease, complete, approve, recover and cancel
  protocol over run and lease rows, one step per atomic statement, under every interleaving.
- **Canonical JSON and comparison** (`Json`, `CanonicalJson`, `JsonText`, `CanonicalWriter`, `Normalise`,
  `Comparison`, `RunAgreement`). The printer behind hash comparison is injective up to member order, so equal hashes mean agreement.
  Every check of a comparison is told as agreement of payloads or rows.
- **Adapter output** (`StderrLines`, `StderrFilter`). The chunked reader that separates event lines from log lines.
- **Contracts and manifest hash** (`Doubles`, `ContractSchema`, `Fnv`). Bounds are compared as the doubles the code reads
  them as.

The application is a parameter: `App` holds its handler, its refusals and its contracts. So are the surroundings:
cancellation is a signal per position of the run, expired leases are any set of leases, and the readable files are any
map from paths to hashes and sizes, a new one for every resume.

Hypotheses of the resume theorem (`Locality.Lawful`): the handler and the checks of a node depend only on its
ancestors' keys and on plain inputs; nodes write only their own id or declared outputs, and no key twice; gate sources
are ancestors and branch decisions are visible; there are no loops, maps, node budgets, `#` in node ids or
cancellation; a last attempt is never worse than an earlier degraded one. Run inputs hold no key a node writes. Nothing
is assumed about the files: the theorems say which resumes drift refuses. Approval keys are exactly the keys the runtime's own checks read: a tool that needs no
approval has none. That checkpoint preparation accepts a run's reports needs no more than these; that a resumed run
ends like the uninterrupted one also needs the uninterrupted one not to wait for a handler of its own.
`ResumeExample.PausedThenApproved` shows that they can be met by a run that executes a tool, pauses, and restores the
tool's report, value and file when it is resumed, unless the file has changed.

Behaviour that a reader of the documentation may not expect, kept as the code has it:

- A sequential pass walks the whole layer, so in a partly replayed layer a replayed node may run again
  (`crates/dag-executor/src/lib.rs:1476`). Resume is therefore stated about outcomes.
- Replay restores the last replayable report of a node, not its last report
  (`crates/dag-executor/src/lib.rs:2691-2702`), so a degraded attempt followed by a failed one is replayed as degraded.
  `Locality.AttemptsReplayTheEnd` says exactly when replay tells how a node ended.
- A sequential pass that pauses reports awaiting approval even after an earlier failure
  (`crates/dag-executor/src/lib.rs:1837`); a concurrent one does not pause then (`crates/dag-executor/src/lib.rs:1461`).
  `RunOutcomes.PausedRunStatus` says when the reported status is the worst one.
- A schema bound and a value are compared as doubles, so beyond 53 bits a value just outside a bound can pass:
  `ContractSchema.MinimumExactly` and `Doubles.FirstBlurredBound`.
- Completion and recovery are guarded by the run's state only, so an older lease that is still live can requeue a run
  under its new worker: `AppRunHistory.StaleLeaseRequeues` is a history in which it happens. It cannot happen when no
  approval finds a lease of the run live (`AppRunHistory.ApprovalsKeepLeasesProper`), and two leases are live together
  exactly when some claim found one (`AppRunHistory.OneLiveLeaseExactly`).
- Releasing a lease early strands its run exactly when the run is still running under it:
  `AppRunHistory.ReleaseKeepsRecoverable`.
- An empty difference list does not by itself mean that two runs match: `Comparison.UnreadyDifferencesMislead` is an
  input, and `Comparison.ChecksMeanNoDifferences` the exact condition.
- A misplaced approval policy makes an accepted key useless: `Approvals.MisplacedPolicyKeepsWaiting`.

## Model

| member | source | states |
|---|---|---|
| Layers.ExecutionLayers | crates/dag-runtime/src/lib.rs:681-727 | When every edge target is known, fails with a cycle exactly when the edges have a cycle or an unknown source blocks a node; otherwise returns the layering by longest paths. An unknown target is reported, the first in edge order |
| Layers.PeelLayers | crates/dag-runtime/src/lib.rs:705-724 | The shrinking loop terminates with every node at a level that follows its dependencies, one layer per level, or with a remainder in which nothing is ready |
| Layers.CollectDependencies | crates/dag-runtime/src/lib.rs:688-703 | The dependency map holds exactly the expanded predecessors of each node, or the first unknown target is returned |
| Layers.SortByNodeOrder | crates/dag-runtime/src/lib.rs:707-714 | A layer's nodes are exactly the ready ones, in manifest order |
| Layers.LayeringUnique | crates/dag-runtime/src/lib.rs:681-727 | A manifest has at most one layering: layer index is longest path, order is manifest order |
| Layers.EdgesCrossLayers | crates/dag-runtime/src/lib.rs:681-727 | Every edge leads from an earlier layer to a later one |
| Graph.StuckSetHasCycle | crates/dag-runtime/src/lib.rs:711-713 | A non-empty set in which every node waits for another contains a cycle |
| Graph.RankIsHeight | crates/dag-runtime/src/lib.rs:681-727 | Ranks that grow by one along some incoming edge are longest path lengths |
| Graph.RankExcludesCycle | crates/dag-runtime/src/lib.rs:681-727 | A graph whose edges raise a rank has no cycle |
| Validation.ValidateGraph | crates/dag-runtime/src/lib.rs:473-679 | The graph checks of validation: accepts exactly the manifests with a positive concurrency, unique node ids, known edge ends and policy references, and no cycle; a failure names a demand that really fails |
| GraphEdits.AttachCycle | crates/orchestrator/src/cli.rs:3464-3477 | Attaching a fresh node to an acyclic graph makes a cycle exactly when a `before` node equals or reaches an `after` node |
| GraphEdits.SubgraphKeepsAcyclic | crates/orchestrator/src/cli.rs:3479-3491 | Dropping edges keeps a graph acyclic |
| GraphEdits.SubgraphLowersHeight | crates/orchestrator/src/cli.rs:3479-3491 | Dropping edges never lengthens a longest path |
| ManifestEdits.StripOneOrMany | crates/orchestrator/src/cli.rs:3493-3508 | An edge end keeps exactly its surviving ids, and disappears exactly when none survives |
| ManifestEdits.StripExpands | crates/orchestrator/src/cli.rs:3479-3508 | Stripping edges leaves exactly the expanded pairs with both ends kept, across One and Many |
| ManifestEdits.StrippedForm | crates/orchestrator/src/cli.rs:3493-3508 | A single surviving end is written alone, several stay a list in their order |
| ManifestEdits.StripInOrder | crates/orchestrator/src/cli.rs:3479-3491 | Edges are stripped one by one and keep their order |
| ManifestEdits.PushedExpand | crates/orchestrator/src/cli.rs:3464-3477 | Pushed edges add exactly the pairs from `after` to the node and from the node to `before` |
| ManifestEdits.AddKeepsValid | crates/orchestrator/src/cli.rs:3257-3306 | A fresh node keeps a manifest valid exactly when its neighbours are nodes and no `before` node leads back to an `after` node |
| ManifestEdits.RemoveKeepsValid | crates/orchestrator/src/cli.rs:3308-3336 | Removal keeps a manifest valid exactly when no surviving policy names a removed node |
| ManifestEdits.RemoveLowersLayers | crates/orchestrator/src/cli.rs:3479-3508 | After removal no surviving node has a longer longest path |
| ManifestEdits.ManifestDraft.PushEdges | crates/orchestrator/src/cli.rs:3464-3477 | The edge list grows by the pushed edges, and the graph by exactly the attached pairs |
| ManifestEdits.ManifestDraft.RemoveNodesAndEdges | crates/orchestrator/src/cli.rs:3479-3491 | Nodes and edges are replaced by the surviving ones |
| ManifestEdits.ManifestDraft.AddAgent | crates/orchestrator/src/cli.rs:3257-3306 | For an agent kind that manifests accept: added exactly when role and node are new, the neighbours exist and no cycle arises; the result is layered |
| ManifestEdits.ManifestDraft.RemoveAgent | crates/orchestrator/src/cli.rs:3308-3336 | Accepted exactly when the role exists and no surviving policy names a removed node; no survivor moves to a later layer |
| NodeFacts.AttemptsExactly | crates/dag-executor/src/lib.rs:2902-3043 | Attempts are numbered calls; each but the last errored or ended failed or degraded under a retry policy that allows one more, and the last did not or was the last allowed; nothing else is an attempt history |
| NodeFacts.HandlerEndsByLastCall | crates/dag-executor/src/lib.rs:2902-3043 | A node ends by its first call that does not go wrong, or the last one allowed: an error fails a required node and degrades an optional one, only usable results have outputs, and each call has one report |
| NodeFacts.CallComesThrough | crates/dag-executor/src/lib.rs:3045-3186 | A handler's reply comes through unchanged exactly when the input contract, the policy checks and the approval check let the call through and the outputs keep to contract and declaration |
| NodeFacts.RefusedNodeEnds | crates/dag-executor/src/lib.rs:3045-3140 | A node refused by contract or policy fails if required and else is degraded, without outputs, after all its attempts |
| NodeFacts.UsableKeepsContracts | crates/dag-executor/src/lib.rs:3045-3186 | A usable outcome with output met the input contract, the output contract and the declared artifacts |
| NodeFacts.LoopRunsItsRounds | crates/dag-executor/src/lib.rs:2033-2262 | A loop runs rounds while they ask to continue; round views, merged outputs, round statuses and the final status are those of the round history |
| NodeFacts.RoundIsTold | crates/dag-executor/src/lib.rs:2063-2076 | A round sees its view and, over it, its number, the limit and the loop's id |
| NodeFacts.ItemIsTold | crates/dag-executor/src/lib.rs:2338-2356 | An item sees its view and, over it, the item and its index under the policy's keys and the runtime's own keys, later ones winning |
| NodeFacts.NothingToDo | crates/dag-executor/src/lib.rs:2033-2335 | Loops without policy or rounds and maps without policy, list or items make no call and end failed, ok or degraded as the code has it |
| NodeFacts.AggregateTells | crates/dag-executor/src/lib.rs:1560-1790 | A loop or map closes with one report of its final status that names all artifacts if usable; its outputs are merged whatever the status |
| NodeFacts.MapHandlesItsItems | crates/dag-executor/src/lib.rs:2264-2495 | A map handles its items in order, all or up to the first that stops it, each seeing the outputs of earlier items |
| NodeFacts.GateOpens | crates/dag-executor/src/lib.rs:5229-5265 | A gate opens exactly when enough source positions ended usable |
| NodeFacts.BranchValue | crates/dag-executor/src/lib.rs:5183-5227 | An ok branch leaves its decision and selected targets under its own id, and nothing else |
| NodeFacts.GateValue | crates/dag-executor/src/lib.rs:5229-5265 | An open gate leaves what it asked for, what it found and its sources, and nothing else |
| NodeFacts.ApprovalValues | crates/dag-executor/src/lib.rs:5267-5302 | What an approved approval node leaves, and what an approval gate tool answers with and without the value true under its key |
| NodeFacts.TargetsSorted | crates/dag-executor/src/lib.rs:5183-5227 | The selected targets are told in ascending order, each once |
| BudgetRuns.BudgetConserved | crates/dag-executor/src/lib.rs:3886-3925 | In every fresh run of a valid manifest, however it ends, if no node writes a budget key itself, what remains of the budget is the initial one less the units of the nodes that spend, never below zero; a run without a budget never gains one |
| BudgetRuns.NodeSpends | crates/dag-executor/src/lib.rs:1560-1816 | A loop or map spends its units however it ends, any other node exactly when it ends usable |
| BudgetRuns.UnitsAreTheTools | crates/dag-executor/src/lib.rs:3886-3892 | A node's units are those of the policy of the first tool of its tool id, else none |
| BudgetRuns.BudgetUnitsRead | crates/dag-executor/src/lib.rs:3917-3925 | A budget reads from a number, negative ones as zero, or a 64-bit numeral with an optional plus sign, and from nothing else |
| BudgetRuns.BudgetIsRead | crates/dag-executor/src/lib.rs:3907-3915 | A run's budget is the first of three keys that reads as one |
| ExecutorRun.ExecuteAttempts | crates/dag-executor/src/lib.rs:2902-2978 | The attempt loop returns the attempt history, told without the loop's own retry test |
| ExecutorRun.ExecuteLoopNode | crates/dag-executor/src/lib.rs:2033-2262 | The round loop computes the loop's evaluation |
| ExecutorRun.ExecuteMapNode | crates/dag-executor/src/lib.rs:2264-2495 | The item loop computes the map's evaluation |
| ExecutorRun.RunLayerConcurrently | crates/dag-executor/src/lib.rs:1384-1474 | Folding the outcomes of a concurrent layer gives the concurrent meaning, with its pause rule |
| ExecutorRun.RunLayerSequentially | crates/dag-executor/src/lib.rs:1476-1848 | Walking a layer node by node gives the sequential meaning, stopping at a pause or cancellation |
| ExecutorRun.ReplayCompleted | crates/dag-executor/src/lib.rs:1337-1382 | Replaying a layer restores exactly the checkpointed nodes, in layer order |
| ExecutorRun.RunAllLayers | crates/dag-executor/src/lib.rs:1315-1849 | The layer loop gives the meaning of a run |
| ExecutorRun.ComputeOverallStatus | crates/dag-executor/src/lib.rs:5348-5371 | The last-report-wins scan computes the overall status |
| ExecutorRun.CollectReplayable | crates/dag-executor/src/lib.rs:2677-2731 | The scan keeps the last replayable report of each node, and fails exactly when a kept report does not fit its node |
| ExecutorRun.ExecuteWithCheckpoint | crates/dag-executor/src/lib.rs:1275-1861 | For any report at all: succeeds exactly when the graph is valid, DAG id and manifest hash agree, every report a resume would restore fits its node, and every artifact these name is in the outputs under its uri and has not drifted; each failed demand has its own error. Then reports the run over the unique layering |
| Checkpoints.CheckpointDecided | crates/dag-executor/src/lib.rs:2662-2804 | The four demands on a checkpoint, in the order they are checked, for an arbitrary report |
| Checkpoints.RestoredReports | crates/dag-executor/src/lib.rs:2690-2731 | Exactly the last usable report of each node is restored, with all usable reports of its rounds and items |
| Checkpoints.RestoredExactly | crates/dag-executor/src/lib.rs:2737-2804 | Exactly the frozen values under a restored node's id or outputs and the artifacts restored reports name are restored |
| Checkpoints.ChildParentMeans | crates/dag-executor/src/lib.rs:2832-2837 | A report belongs to the loop or map whose id is cut at the first round marker, or else at the first item marker |
| Checkpoints.ReplayRestores | crates/dag-executor/src/lib.rs:1337-1382 | Replaying a layer gives exactly its checkpointed nodes the checkpoint's status and leaves outputs and other nodes alone |
| Checkpoints.ReplayTells | crates/dag-executor/src/lib.rs:2839-2885 | A replayed node reports its kept children, then its checkpointed status, attempt, artifacts, selection and executor |
| Locality.ManifestIndexed | crates/dag-executor/src/lib.rs:1285-1312 | A valid manifest's indexes agree with its edges and layers |
| Locality.EvalAgrees | crates/dag-executor/src/lib.rs:1524-1790 | A node that ended usable evaluates alike, reports included, on any snapshot that agrees on what it may depend on and has at least its approvals; with equal approvals every node does |
| Locality.ReplayTellsTheEnd | crates/dag-executor/src/lib.rs:2691-2702 | For any reports of one node, replay restores it exactly if its last report is usable, if and only if the last report is usable or none is |
| Locality.AttemptsReplayTheEnd | crates/dag-executor/src/lib.rs:2902-2978 | The same for the attempts of one evaluation: replay tells how the node ended exactly when its last attempt is usable or none is |
| RunMoves.ConcurrentIsSequential | crates/dag-executor/src/lib.rs:1384-1474 | A concurrent layer has the effect of its nodes taken one at a time |
| RunMoves.EvalMoves | crates/dag-executor/src/lib.rs:1315-1849 | Every layer, replayed or not, is a sequence of single-node moves in dependency order |
| Reference.FreshRun | crates/dag-executor/src/lib.rs:1315-1849 | A fresh run settles every node by the same local rule, whichever passes ran it |
| Simulation.MovesKeepSim | crates/dag-executor/src/lib.rs:1315-1849 | Every move of a paused or resumed run keeps it in step with the uninterrupted one |
| Artifacts.IntactUntilDrift | crates/dag-executor/src/lib.rs:3997-4077 | A reference made to a local file passes the integrity check later exactly when the file then reads as it did, or could not be read when it was referenced |
| Artifacts.IntactMeans | crates/dag-executor/src/lib.rs:4015-4057 | A reference passes if it records neither hash nor size or is no local file, and else exactly when its file has every recorded hash and size |
| Artifacts.LocalPathMeans | crates/dag-executor/src/lib.rs:4059-4067 | A file uri names its path, a uri of another scheme no file, any other text a path |
| Resume.CheckpointAccepted | crates/dag-executor/src/lib.rs:2662-2804 | Checkpoint preparation accepts a faithful report exactly when no artifact named by a report it keeps has drifted, and refuses it for nothing else |
| Resume.RefusedOnlyForDrift | crates/dag-executor/src/lib.rs:2662-2804 | A lawful run resumed from its latest report any number of times with growing approvals is refused exactly when an artifact it would restore has drifted by then, and for no other reason |
| Resume.ResumeStep | crates/dag-executor/src/lib.rs:1275-1861 | One resume from a faithful report is refused exactly for drift and else leaves a faithful report; with every key it ends as the uninterrupted run, if that one does not wait |
| Resume.ResumedEndsLikeUninterrupted | crates/dag-executor/src/lib.rs:1275-1861 | Paused any number of times and resumed from its own reports, a run ends with the overall status, node statuses and outputs of one uninterrupted run that had every key from the start; only drift can stop it, and nothing does while the uninterrupted run's artifacts stay as recorded |
| ResumeExample.PausedThenApproved | crates/dag-executor/src/lib.rs:1275-1861 | The hypotheses are met by a run whose tool writes a file before an approval: resumed, it is accepted exactly when the file is unchanged, restores the tool and ends like the uninterrupted run |
| ResumeExample.FailedRetryReplaysDegraded | crates/dag-executor/src/lib.rs:2691-2702 | An input where `Locality.ReplayTellsTheEnd` fails: a degraded attempt followed by a failed one ends failed but would be replayed as degraded |
| RunOutcomes.EvaluatedAfterUsableAncestors | crates/dag-executor/src/lib.rs:5114-5152 | In every fresh run a node is evaluated only after all its transitive ancestors ended usable and no branch deselected it |
| RunOutcomes.FinishedRunStatuses | crates/dag-executor/src/lib.rs:1315-1849 | In a finished fresh run every node has one final status, and the skipped ones are exactly those deselected or behind a failed, skipped or awaiting predecessor |
| RunOutcomes.BranchTakesOneCase | crates/dag-executor/src/lib.rs:5114-5227 | In every fresh run a branch that ended ok selected one declared case or its default, and every handled successor outside it is skipped |
| RunOutcomes.CancelledRunAccountsForAll | crates/dag-executor/src/lib.rs:1898-1970 | A cancelled fresh run reports itself skipped, keeps the statuses reached, and reports every other node as skipped |
| RunHalts.FreshRunStops | crates/dag-executor/src/lib.rs:1315-1849 | Where every fresh run stops: the nodes it handled, which layers ran together, and that each layer ended at its first cancelled check or first waiting node, or together at a wait without failure |
| RunHalts.CancelIsHeeded | crates/dag-executor/src/lib.rs:1315-1326 | A layer whose start is cancelled is not entered, nor any later one, and only a request to cancel cancels a run |
| RunOutcomes.ReportCarries | crates/dag-executor/src/lib.rs:1870-1970 | Every report names the DAG, its hash and the frozen input, and carries the outputs and node reports reached |
| RunOutcomes.SkippedLeavesNothing | crates/dag-executor/src/lib.rs:1524-1560 | A skipped node leaves one report without outputs or selection |
| RunOutcomes.PausedRunStatus | crates/dag-executor/src/lib.rs:1461-1848 | A paused fresh run has a waiting node; its reported status is the worst of its node statuses, and of its reports, exactly when no node failed |
| RunOutcomes.OverallIsWorstNode | crates/dag-executor/src/lib.rs:5348-5371 | In a finished fresh run without `#` in node ids, no node ended worse than the overall status over all attempt, round and item reports, and some node ended with it unless it is ok |
| RunOutcomes.LoopBounded | crates/dag-executor/src/lib.rs:2033-2262 | No round report outranks its loop's own status |
| RunOutcomes.MapBounded | crates/dag-executor/src/lib.rs:2264-2495 | No item report outranks its map's own status |
| ConcurrentLayer.EveryInterleaving | crates/dag-executor/src/lib.rs:1972-2031 | In every interleaving at most the declared concurrency, if positive, is in flight, each node starts once and in order, and the joined vector is that of running nodes one at a time |
| ConcurrentLayer.ConcurrencyReached | crates/dag-executor/src/lib.rs:1979-1984 | Some interleaving has the declared number in flight, or all nodes if fewer or none is declared |
| ConcurrentLayer.NeverStuck | crates/dag-executor/src/lib.rs:1972-2031 | After every interleaving, until all handles are joined, some step is enabled |
| ConcurrentLayer.RunsAreBounded | crates/dag-executor/src/lib.rs:1972-2031 | No interleaving is longer than one acquire, spawn and join and the allowed attempts of each node |
| Approvals.OnlyAwaitedKeyAccepted | crates/orchestrator/src/app_runs.rs:767-800 | It accepts nothing else exactly when the node's policies are well placed |
| Approvals.ToolNodeAccepts | crates/orchestrator/src/app_runs.rs:767-800 | A waiting tool node's report accepts exactly its approval policy's key and, if its tool is a gate or requires approval, the tool's key |
| Approvals.ExecutorNamed | crates/dag-executor/src/lib.rs:5323-5346 | The executor named in a report: the gate's name for gate tools only, and a role, tool or child DAG by node kind |
| Approvals.ApprovalNodeOpens | crates/dag-executor/src/lib.rs:5267-5302 | An approval node is ok exactly when its key holds the value true, and else waits |
| Approvals.MisplacedPolicyKeepsWaiting | crates/orchestrator/src/app_runs.rs:775-800 | An approval policy on a gate tool is accepted but does not clear the wait |
| Approvals.ApprovedNodeNeverWaits | crates/dag-executor/src/lib.rs:3109-3140 | With the key its check reads set, a node of any kind does not wait |
| Approvals.ClosedCheckWaits | crates/dag-executor/src/lib.rs:3045-3140 | With that key unset a node that its contract and policy let through waits and produces nothing; a loop waits in its first round and a map on its first item |
| Approvals.EvalAsksOutside | crates/dag-executor/src/lib.rs:5267-5302 | Awaiting reports of one evaluation ask only for unapproved checked keys, and for at least one |
| Approvals.PauseIsApprovable | crates/orchestrator/src/app_runs.rs:1448-1515 | A run that ends waiting accepts some checked key that is not approved yet |
| Approvals.PausesBounded | crates/orchestrator/src/app_runs.rs:730-745 | Accepted approvals number at most the open checked keys, and after that many the run does not end waiting |
| AppRunHistory.StepMoves | crates/orchestrator/src/app_runs.rs:1050-1528 | Run rows are never dropped and move by one transition table; a lease row is added exactly when a run is claimed |
| AppRunHistory.RunAccounted | crates/orchestrator/src/app_runs.rs:1050-1242 | Lease rows, attempts and claims of a run are equal, and claims are exits plus one if running |
| AppRunHistory.BudgetsKept | crates/orchestrator/src/app_runs.rs:1050-1242 | In every reachable state attempts stay within the limit, queued runs are claimable, and claims fit the first limit plus approvals |
| AppRunHistory.QueuedCanStart | crates/orchestrator/src/app_runs.rs:1104-1163 | Claiming any queued run of a reachable state starts it |
| AppRunHistory.TerminalStays | crates/orchestrator/src/app_runs.rs:1262-1272 | A run in a terminal state keeps its row whatever follows |
| AppRunHistory.CompletionIsFinal | crates/orchestrator/src/app_runs.rs:1255-1446 | A run completed with anything but a pending, running or awaiting report keeps, whatever follows, the state told case by case for its report or error |
| AppRunHistory.FinishedStale | crates/orchestrator/src/scheduler.rs:463-626 | A finished worker's lease is never the newest lease of a running run |
| AppRunHistory.RunningIsRecoverable | crates/orchestrator/src/app_runs.rs:1166-1219 | When workers finish before releasing, the newest lease of every running run is still leased |
| AppRunHistory.ReleaseKeepsRecoverable | crates/orchestrator/src/app_runs.rs:1518-1528 | With disciplined workers so far, releasing a live lease keeps its run recoverable exactly when the run is not running or a newer lease exists |
| AppRunHistory.EarlyReleaseStrands | crates/orchestrator/src/app_runs.rs:1518-1528 | A history where that fails: released before completing, the run stays running and no recovery moves it |
| AppRunHistory.ApprovalsKeepLeasesProper | crates/orchestrator/src/app_runs.rs:1448-1515 | If no approval of a run finds one of its leases live, then in every reachable state at most its newest lease is live, none while it is queued, and no claim finds one live |
| AppRunHistory.OneLiveLeaseExactly | crates/orchestrator/src/app_runs.rs:1104-1163 | At most the newest lease of a run was live in every state of a history exactly when no claim of the run found one live |
| AppRunHistory.ApprovalCheck | crates/orchestrator/src/app_runs.rs:1448-1515 | Approving a waiting run and claiming it leaves one live lease exactly when none is live at the approval |
| AppRunHistory.RecoveryTakesNewest | crates/orchestrator/src/app_runs.rs:1166-1219 | A running run is recovered through its newest lease only, whatever has expired, exactly when no older lease of it is live |
| AppRunHistory.StaleLeaseRequeues | crates/orchestrator/src/app_runs.rs:1166-1190 | A history where that fails: approved over a live lease a run gets two, and the older one expiring requeues it |
| AppRunStore.Store.InsertQueued | crates/orchestrator/src/app_runs.rs:803-831 | Queues a run with its limit, which the manifest must put above zero |
| AppRunStore.Store.ClaimNext | crates/orchestrator/src/app_runs.rs:1050-1101 | Claims the oldest claimable unlocked run, or shows there is none |
| AppRunStore.Store.ClaimRun | crates/orchestrator/src/app_runs.rs:1104-1163 | Claims the given run exactly when it is queued, unlocked and has attempts left |
| AppRunStore.Store.RecoverExpired | crates/orchestrator/src/app_runs.rs:1166-1219 | Expires exactly the joined leases and moves exactly their runs |
| AppRunStore.Store.Complete | crates/orchestrator/src/app_runs.rs:1255-1446 | Exactly when the run is running: done, partial, failed, system failed, awaiting or running, told case by case for each report and error; nothing else changes |
| AppRunStore.Store.Approve | crates/orchestrator/src/app_runs.rs:1448-1515 | Requeues exactly a paused run whose checkpoint accepts the key and can be replayed |
| AppRunStore.Store.ReleaseLease | crates/orchestrator/src/app_runs.rs:1518-1528 | Ends a lease only while it is leased |
| AppRunStore.Store.CancelRun | crates/orchestrator/src/cli.rs:2471-2488 | Cancels exactly queued and running runs |
| AppRunStore.Store.FailLeases | crates/orchestrator/src/cli.rs:2489-2498 | Fails exactly the live leases of the run |
| CanonicalJson.SortSorts | crates/orchestrator/src/app_runs.rs:3513-3514 | Sorting members with distinct keys puts them in strictly ascending key order |
| CanonicalJson.BeforeMeans | crates/orchestrator/src/app_runs.rs:3513-3514 | Key order is lexicographic by code points |
| CanonicalJson.EscapesExactly | crates/orchestrator/src/app_runs.rs:3498-3501 | How each character of a string is written, by code point |
| JsonText.UnescapeEscape | crates/orchestrator/src/app_runs.rs:3498-3501 | Decoding an escaped string by section 7 of RFC 8259 gives the string back |
| JsonText.NumeralOf | crates/orchestrator/src/app_runs.rs:3497 | A number is written as its decimal numeral without leading zeros |
| JsonText.TextEnds | crates/orchestrator/src/app_runs.rs:3493-3528 | A value's text, whatever may follow it, determines the value and what follows |
| JsonText.TextInjective | crates/orchestrator/src/app_runs.rs:3493-3528 | No two values print alike |
| CanonicalWriter.CanonicalArray | crates/orchestrator/src/app_runs.rs:3502-3511 | An array's canonical text is its items' canonical texts, comma separated |
| CanonicalWriter.CanonicalObject | crates/orchestrator/src/app_runs.rs:3512-3527 | An object's canonical text is its sorted members' texts, comma separated |
| CanonicalWriter.WriteCanonicalJson | crates/orchestrator/src/app_runs.rs:3493-3528 | The recursive writer appends exactly the canonical text to the buffer |
| Normalise.CanonicalEqualsAgreement | crates/orchestrator/src/app_runs.rs:3484-3528 | Values with unique keys have the same canonical text exactly when they are equal up to member order |
| Normalise.PayloadErases | crates/orchestrator/src/app_runs.rs:2070-2145 | The normalisers erase runtime identities at every depth of values and the location of each artifact, and nothing else |
| Normalise.IgnoredKeys | crates/orchestrator/src/app_runs.rs:2070-2145 | Payloads that differ in one key agree exactly if it is one of the six runtime identities among values, an artifact's uri, or the values agree |
| Normalise.NormalizedTextDecidesAgreement | crates/orchestrator/src/app_runs.rs:2070-2145 | Normalised payloads have the same canonical text exactly when they agree after erasing |
| Normalise.NormalizingTwice | crates/orchestrator/src/app_runs.rs:2070-2145 | Normalisation is idempotent |
| Normalise.RawEqualityNormalizes | crates/orchestrator/src/app_runs.rs:2070-2145 | Equal raw text implies equal normalised text |
| Comparison.ReadyMeans | crates/orchestrator/src/app_runs.rs:1760-1817 | A run is ready for comparison exactly when it has a DAG run, every node row an output hash and every artifact row a SHA-256; and for replay, exactly when manifest hash, stored report and both hashes of every row are there |
| Comparison.EqualMapsMeans | crates/orchestrator/src/app_runs.rs:2163-2185 | Signature maps are equal exactly when no difference is pushed and no missing key is hidden by an unsigned one |
| Comparison.ChecksMeanNoDifferences | crates/orchestrator/src/app_runs.rs:1820-1980 | Ready or not, all checks pass exactly when no difference is listed and neither signature map hides a missing key; for work products only artifacts can hide one |
| Comparison.MatchMeansNoDifferences | crates/orchestrator/src/app_runs.rs:1820-1980 | Runs match exactly when both are ready and the difference list is empty; likewise for work products |
| RunAgreement.ChecksDecideAgreement | crates/orchestrator/src/app_runs.rs:1820-1980 | Every check, without hashes or keys: identity, agreement of DAG inputs and outputs raw and erased, and agreement of node rows, artifact rows and work products |
| RunAgreement.WorkProductMeans | crates/orchestrator/src/app_runs.rs:2045-2068 | Work products hash alike exactly when status, exit status, outputs, warning and, locations apart, artifact integrity agree |
| RunAgreement.ArtifactKeyMeans | crates/orchestrator/src/app_runs.rs:2014-2029 | Artifact keys are equal exactly when owner and name run together alike and the attempts are equal |
| Comparison.HashChecksDecideAgreement | crates/orchestrator/src/app_runs.rs:1760-1770 | Input and output hash checks decide agreement, raw and after erasing |
| RunAgreement.DifferencesListed | crates/orchestrator/src/app_runs.rs:1862-1968 | A difference is listed exactly when its field, node output or artifact differs, with its left and right value |
| RunAgreement.SummaryCounts | crates/orchestrator/src/app_runs.rs:1760-1817 | The counts of a determinism summary |
| Comparison.UnreadyDifferencesMislead | crates/orchestrator/src/app_runs.rs:2163-2185 | An input where that condition fails: without readiness an empty difference list hides a missing node |
| Comparison.DifferenceList.PushMap | crates/orchestrator/src/app_runs.rs:2163-2185 | One difference per differing key, in key order |
| Comparison.CompareDetails | crates/orchestrator/src/app_runs.rs:1820-1980 | Verdicts, checks and both difference lists of a comparison |
| StderrLines.NothingLost | crates/orchestrator/src/dag_apps.rs:1611-1687 | However the stream is chunked, the handled pieces concatenate to it |
| StderrLines.ChunkingMeans | crates/orchestrator/src/dag_apps.rs:1611-1660 | A chunking splits the stream into reads of 1 to 8192 characters |
| StderrLines.ChunkingInvisible | crates/orchestrator/src/dag_apps.rs:1611-1687 | Every chunking is handled as the lines of the whole stream exactly when each line, terminator included, is at most 4096 characters |
| StderrFilter.HandledAll | crates/orchestrator/src/dag_apps.rs:1689-1749 | After any pieces: retained bytes are the first of the log up to the limit, truncated exactly when there were more, with the events and log lines in order |
| StderrFilter.FilteredLineByLine | crates/orchestrator/src/dag_apps.rs:1611-1749 | For every chunking of a stream whose lines fit, all results are those of splitting the whole stream into lines |
| StderrFilter.ReadLimitedAndFilter | crates/orchestrator/src/dag_apps.rs:1611-1687 | The chunk loop handles exactly the pieces of the chunking |
| StderrFilter.HandleReady | crates/orchestrator/src/dag_apps.rs:1654-1685 | One read handles its complete lines, then its full-length cuts, and leaves the rest pending |
| StderrFilter.StderrSinks.HandleStderrLine | crates/orchestrator/src/dag_apps.rs:1689-1719 | One piece becomes an event, or a log line and retained bytes |
| StderrFilter.StderrSinks.AppendLimitedOutput | crates/orchestrator/src/dag_apps.rs:1721-1731 | Appends within the limit and notes truncation |
| StderrFilter.ReadLimited | crates/orchestrator/src/dag_apps.rs:1511-1538 | Keeps the first bytes up to the limit, and reports truncation exactly when there were more |
| StderrFilter.TrimEndMeans | crates/orchestrator/src/dag_apps.rs:1689-1700 | Trimming removes the whole line ending and nothing else |
| StderrFilter.EventMeans | crates/orchestrator/src/dag_apps.rs:1733-1737 | A line is an event exactly when its text starts with the marker and events are listened to |
| ContractSchema.CheckDecidesMeaning | crates/dag-executor/src/lib.rs:3255-3479 | Validation by a well-formed schema accepts exactly the values that meet its keywords at every depth, bounds compared as doubles |
| ContractSchema.CheckDecidesExactly | crates/dag-executor/src/lib.rs:3255-3479 | A value that meets the schema with bounds compared as integers is accepted, and no other is when every bound is sharp |
| ContractSchema.MinimumExactly | crates/dag-executor/src/lib.rs:3280-3287 | A minimum is enforced on every integer exactly when no smaller integer reads as the same double |
| Doubles.DoubleIsNearest | crates/dag-executor/src/lib.rs:3280-3297 | A bound is read as the nearest double, the even one between two equally near |
| Doubles.SmallBoundsSharp | crates/dag-executor/src/lib.rs:3280-3297 | Bounds within 53 bits are sharp, so they are enforced exactly |
| ContractSchema.RejectionIsReal | crates/dag-executor/src/lib.rs:3255-3479 | A rejection names a place in the value and a keyword the value breaks there, even with bounds compared as integers |
| ContractSchema.OneTypeAccepts | crates/dag-executor/src/lib.rs:3433-3479 | Which values each type name accepts |
| ContractSchema.WellFormedMeans | crates/dag-executor/src/lib.rs:3423-3466 | Which type keywords are accepted: a known name, or a list of known names that is not empty |
| ContractSchema.MalformedAcceptsNothing | crates/dag-executor/src/lib.rs:3255-3430 | A malformed schema or keyword rejects every value |
| Fnv.Fnv1a64 | crates/dag-executor/src/lib.rs:3486-3493 | The byte loop computes the hash |
| Fnv.HashByteBijective | crates/dag-executor/src/lib.rs:3486-3493 | For each byte one hash step is a bijection on 64-bit states |
| Fnv.OneByteChangesManifestHash | crates/dag-executor/src/lib.rs:3481-3493 | Serialised manifests of equal length that differ in one byte never share a printed hash |
| Fnv.KnownHashes | crates/dag-executor/src/lib.rs:3481-3493 | The published hash values of no bytes and of one, and the printed form: prefix and sixteen lower-case digits |

## Left out

- Process spawning, HTTP tools, file writes, reading a file's bytes for its hash, and event, trace and telemetry payloads: input and output without a hard property.
- Report fields other than identity, status, attempt, output references, branch selection and the approval-relevant policy: they are carried along unread.
- Validation.ValidateGraph: states the graph checks of `DagManifest::validate`; its role, tool, artifact-key, policy-shape and schema checks are flat checks beside the graph and are not modelled.
- ManifestEdits.ManifestDraft.AddAgent: does not model the refusal of agent kinds that manifests do not accept, which is a flat check made before the graph is touched.
- The tool-adding and tool-removing commands: they edit the graph through the same two helpers as the agent commands.
- Writing an edited manifest to disk, which happens only after validation: a refused edit leaves the draft changed in memory, as in the code.
- Handlers that answer differently when called twice with the same node, call number and inputs: a handler is a function.
- The generic tool runner's command, network and file-system policy errors: they are the application's `refuses`.
- BudgetRuns.BudgetConserved: is about runs whose nodes write no budget key themselves, since such a write replaces the budget; and about fresh runs, since a sequential pass over a partly replayed layer may charge a replayed node again.
- Fractional numbers: JSON numbers are integers; schema bounds compare them as the doubles they round to.
- Task panics, invalid UTF-8 split across chunks, and characters longer than one byte in adapter output.
- SHA-256 internals: a hash of canonical text is that text.
- The width of `attempt`: it is unbounded, where the code has 32 bits.
- Lease renewal: it only moves a deadline, and any leased lease may expire here.
- The bulk cancel of queued runs (`crates/orchestrator/src/cli.rs:2543-2659`): it writes after a separate read without a state guard, so it can overwrite any state and no terminal-state promise holds beside it.
- Replay runs queued from a finished run: they insert a row like any other.
- Event rows, observability summaries, worker registration and SQL text.
- The order in which a schema's properties are visited is the order of its members; it decides only which fault is named first.
