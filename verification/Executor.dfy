/** A whole run of a manifest: layers, concurrent and sequential passes, pauses, cancellation and replay. */
module Executor {
  import opened Results
  import opened Manifest
  import opened Json
  import opened DagIo
  import opened Artifacts
  import opened Infixes
  import opened NodeRules
  import opened Layers

  /** The executor's indexes over a manifest: nodes and predecessor sets by id. */
  function MakeContext(app: App, m: DagManifest): Context {
    var order := NodeOrder(m.nodes);
    Context(app, m, map id | id in order :: m.nodes[order[id]], map id | id in order :: Preds(m.edges, id))
  }

  datatype RunState = RunState(
    statuses: map<string, NodeStatus>,
    selections: map<string, set<string>>,
    outputs: Io,
    reports: seq<Report>)

  datatype Halt = Pause | Cancel

  datatype Progress = Going(st: RunState) | Halted(st: RunState, why: Halt)

  /** Whether cancellation has been requested when layer `i` starts (`j == 0`) or before its `j`-th node. */
  type CancelSignal = (nat, nat) -> bool

  // ---- Skipping ----

  predicate Blocks(status: NodeStatus) {
    status in {Failed, Skipped, AwaitingApproval}
  }

  /** A predecessor failed, was skipped or awaits approval. */
  predicate HasBlockingDependency(deps: set<string>, statuses: map<string, NodeStatus>) {
    exists d :: d in deps && d in statuses && Blocks(statuses[d])
  }

  /** A branch predecessor made a selection that leaves the node out. */
  predicate IsUnselected(deps: set<string>, id: string, selections: map<string, set<string>>) {
    exists d :: d in deps && d in selections && id !in selections[d]
  }

  predicate Skips(cx: Context, id: string, st: RunState)
    requires id in cx.deps
  {
    IsUnselected(cx.deps[id], id, st.selections) || HasBlockingDependency(cx.deps[id], st.statuses)
  }

  predicate Knows(cx: Context, ids: seq<string>) {
    forall id :: id in ids ==> id in cx.nodes && id in cx.deps
  }

  // ---- One node ----

  function SkipReport(cx: Context, node: DagNode): Report {
    Report(node.id, node.kind, Skipped, 1, map[], None, TraceOf(cx.manifest, node, None))
  }

  function Skip(cx: Context, id: string, st: RunState): RunState
    requires id in cx.nodes
  {
    st.(statuses := st.statuses[id := Skipped], reports := st.reports + [SkipReport(cx, cx.nodes[id])])
  }

  function Settle(cx: Context, node: DagNode, ev: NodeEval, outputs: Io): Io {
    var merged := Merge(outputs, ev.produced);
    if ev.spends then Spend(cx.manifest, node, merged) else merged
  }

  function Record(cx: Context, id: string, ev: NodeEval, st: RunState): RunState
    requires id in cx.nodes
  {
    RunState(st.statuses[id := ev.status],
             if ev.selected.Some? && Usable(ev.status) then st.selections[id := ev.selected.value] else st.selections,
             Settle(cx, cx.nodes[id], ev, st.outputs),
             st.reports + ev.reports)
  }

  function StepNode(cx: Context, id: string, st: RunState): (st': RunState)
    requires id in cx.nodes && id in cx.deps
    ensures id in st'.statuses
  {
    if Skips(cx, id, st) then Skip(cx, id, st)
    else Record(cx, id, EvalNode(cx, cx.nodes[id], st.outputs, st.statuses), st)
  }

  // ---- One layer ----

  function RunSequential(cx: Context, layer: seq<string>, i: nat, j: nat, st: RunState, cancel: CancelSignal): Progress
    requires j <= |layer| && Knows(cx, layer)
    decreases |layer| - j
  {
    if j == |layer| then Going(st)
    else if cancel(i, j + 1) then Halted(st, Cancel)
    else
      var st' := StepNode(cx, layer[j], st);
      if st'.statuses[layer[j]] == AwaitingApproval then Halted(st', Pause)
      else RunSequential(cx, layer, i, j + 1, st', cancel)
  }

  predicate CanRunConcurrently(cx: Context, ids: seq<string>, st: RunState)
    requires Knows(cx, ids)
  {
    && |ids| > 1
    && (forall id :: id in ids ==> NodeBudget(cx.manifest, cx.nodes[id]).None?)
    && (forall id :: id in ids ==> IsOrdinary(cx.nodes[id]) && !Skips(cx, id, st))
  }

  /** Fold the outcomes of `ids[j..]`, all evaluated on the same snapshot, into the state in list order. */
  function RecordAll(cx: Context, ids: seq<string>, j: nat, snapshot: Io, st: RunState): (st': RunState)
    requires j <= |ids| && Knows(cx, ids)
    ensures forall id :: id in ids[j..] ==> id in st'.statuses
    ensures forall id :: id in st.statuses ==> id in st'.statuses
    decreases |ids| - j
  {
    if j == |ids| then st
    else
      var st1 := Record(cx, ids[j], EvalHandler(cx, cx.nodes[ids[j]], snapshot), st);
      RecordAll(cx, ids, j + 1, snapshot, st1)
  }

  predicate SomeStatus(ids: seq<string>, statuses: map<string, NodeStatus>, status: NodeStatus) {
    exists id :: id in ids && id in statuses && statuses[id] == status
  }

  function RunConcurrent(cx: Context, ids: seq<string>, st: RunState): Progress
    requires Knows(cx, ids)
  {
    var st' := RecordAll(cx, ids, 0, st.outputs, st);
    if SomeStatus(ids, st'.statuses, AwaitingApproval) && !SomeStatus(ids, st'.statuses, Failed) then Halted(st', Pause)
    else Going(st')
  }

  // ---- Replay ----

  datatype Checkpoint = Checkpoint(
    outputs: Io,
    nodeReports: map<string, Report>,
    childReports: map<string, seq<Report>>)

  function ReplayedReport(cx: Context, node: DagNode, r: Report): Report {
    Report(node.id, node.kind, r.status, r.attempt, r.outputRefs, r.selected,
           TraceOf(cx.manifest, node, OrElse(r.policy.executor, ExecutorLabel(cx.manifest, node))))
  }

  function ReplayNode(cx: Context, id: string, ck: Checkpoint, st: RunState): RunState
    requires id in cx.nodes && id in ck.nodeReports
  {
    var node, r := cx.nodes[id], ck.nodeReports[id];
    RunState(st.statuses[id := r.status],
             if node.kind == Branch && r.selected.Some? then st.selections[id := r.selected.value] else st.selections,
             st.outputs,
             st.reports + (if id in ck.childReports then ck.childReports[id] else []) + [ReplayedReport(cx, node, r)])
  }

  function ReplayLayer(cx: Context, layer: seq<string>, j: nat, ck: Checkpoint, st: RunState): RunState
    requires j <= |layer| && Knows(cx, layer)
    decreases |layer| - j
  {
    if j == |layer| then st
    else ReplayLayer(cx, layer, j + 1, ck, if layer[j] in ck.nodeReports then ReplayNode(cx, layer[j], ck, st) else st)
  }

  function Unreplayed(layer: seq<string>, j: nat, ck: Checkpoint): (ids: seq<string>)
    requires j <= |layer|
    ensures forall id :: id in ids ==> id in layer && id !in ck.nodeReports
    decreases |layer| - j
  {
    if j == |layer| then []
    else (if layer[j] in ck.nodeReports then [] else [layer[j]]) + Unreplayed(layer, j + 1, ck)
  }

  function RunLayer(cx: Context, layer: seq<string>, i: nat, st: RunState, ck: Option<Checkpoint>, cancel: CancelSignal): Progress
    requires Knows(cx, layer)
  {
    if cancel(i, 0) then Halted(st, Cancel)
    else
      var replayed := if ck.Some? then ReplayLayer(cx, layer, 0, ck.value, st) else st;
      var ids := if ck.Some? then Unreplayed(layer, 0, ck.value) else layer;
      if ck.Some? && ids == [] then Going(replayed)
      else if CanRunConcurrently(cx, ids, replayed) then RunConcurrent(cx, ids, replayed)
      else RunSequential(cx, layer, i, 0, replayed, cancel)
  }

  function RunLayers(cx: Context, layers: seq<seq<string>>, i: nat, st: RunState, ck: Option<Checkpoint>, cancel: CancelSignal): Progress
    requires i <= |layers| && forall l :: l in layers ==> Knows(cx, l)
    decreases |layers| - i
  {
    if i == |layers| then Going(st)
    else
      var p := RunLayer(cx, layers[i], i, st, ck, cancel);
      if p.Halted? then p else RunLayers(cx, layers, i + 1, p.st, ck, cancel)
  }

  predicate SomeAwaiting(statuses: map<string, NodeStatus>) {
    exists id :: id in statuses && statuses[id] == AwaitingApproval
  }

  /** A pause leaves a node waiting. */
  predicate PauseAwaits(p: Progress) {
    p.Halted? && p.why == Pause ==> SomeAwaiting(p.st.statuses)
  }

  // ---- Reports ----

  datatype ExecutionReport = ExecutionReport(
    dag: string,
    hash: string,
    status: NodeStatus,
    input: Io,
    nodes: seq<Report>,
    outputs: Io)

  /** The status each report id ends with: later reports replace earlier ones. */
  function FinalStatuses(reports: seq<Report>): map<string, NodeStatus> {
    if |reports| == 0 then map[]
    else FinalStatuses(reports[..|reports| - 1])[reports[|reports| - 1].nodeId := reports[|reports| - 1].status]
  }

  function WorstOf(statuses: set<NodeStatus>): NodeStatus {
    if Failed in statuses then Failed
    else if AwaitingApproval in statuses then AwaitingApproval
    else if Degraded in statuses then Degraded
    else Ok
  }

  function OverallStatus(reports: seq<Report>): NodeStatus {
    WorstOf(FinalStatuses(reports).Values)
  }

  function CancelReports(cx: Context, nodes: seq<DagNode>, statuses: map<string, NodeStatus>): seq<Report> {
    if |nodes| == 0 then []
    else
      (if nodes[0].id in statuses then []
       else [NodeReport(cx.manifest, nodes[0], 1, Skipped, EMPTY, None)]) + CancelReports(cx, nodes[1..], statuses)
  }

  function Conclude(cx: Context, frozen: Io, p: Progress): ExecutionReport {
    var hash := cx.app.hash(cx.manifest);
    match p
    case Going(st) => ExecutionReport(cx.manifest.id, hash, OverallStatus(st.reports), frozen, st.reports, st.outputs)
    case Halted(st, Pause) => ExecutionReport(cx.manifest.id, hash, AwaitingApproval, frozen, st.reports, st.outputs)
    case Halted(st, Cancel) =>
      ExecutionReport(cx.manifest.id, hash, Skipped, frozen,
                      st.reports + CancelReports(cx, cx.manifest.nodes, st.statuses), st.outputs)
  }

  // ---- Checkpoint preparation ----

  datatype CheckpointError = WrongDag | WrongHash | BadNodeReport | BadArtifact

  /** The last report of `id` with a replayable status. */
  function LastReplayable(reports: seq<Report>, id: string): (r: Option<Report>)
    ensures r.Some? ==> r.value in reports && r.value.nodeId == id && Usable(r.value.status)
  {
    if |reports| == 0 then None
    else
      var later := LastReplayable(reports[1..], id);
      if later.Some? then later
      else if reports[0].nodeId == id && Usable(reports[0].status) then Some(reports[0])
      else None
  }

  function KeptReports(nodes: map<string, DagNode>, reports: seq<Report>): map<string, Report> {
    map id | id in nodes && LastReplayable(reports, id).Some? :: LastReplayable(reports, id).value
  }

  predicate ValidNodeReport(node: DagNode, r: Report) {
    r.kind == node.kind && forall k :: k in r.outputRefs ==> k in node.outputs
  }

  /** The node a loop round or map item report belongs to, read off its id. */
  function ChildParent(id: string): Option<string> {
    var round, item := FindInfix(id, "#round-", 0), FindInfix(id, "#item-", 0);
    if round.Some? then Some(id[..round.value])
    else if item.Some? then Some(id[..item.value])
    else None
  }

  function ChildrenOf(reports: seq<Report>, id: string): (children: seq<Report>)
    ensures forall r :: r in children ==> r in reports && ChildParent(r.nodeId) == Some(id) && Usable(r.status)
  {
    if |reports| == 0 then []
    else (if ChildParent(reports[0].nodeId) == Some(id) && Usable(reports[0].status) then [reports[0]] else [])
         + ChildrenOf(reports[1..], id)
  }

  function KeptChildren(kept: map<string, Report>, reports: seq<Report>): map<string, seq<Report>> {
    map id | id in kept && ChildrenOf(reports, id) != [] :: ChildrenOf(reports, id)
  }

  predicate ArtifactsIntact(files: Files, outputs: Io, refs: map<string, string>) {
    forall k :: k in refs ==>
      k in outputs.artifacts && outputs.artifacts[k].uri == refs[k] && Intact(files, outputs.artifacts[k])
  }

  /** The frozen outputs that belong to replayed nodes: declared values, and artifacts their reports name. */
  function RestoredOutputs(cx: Context, frozen: Io, kept: map<string, Report>, children: map<string, seq<Report>>): Io
    requires kept.Keys <= cx.nodes.Keys
  {
    var valueKeys := kept.Keys + set id, k | id in kept && k in cx.nodes[id].outputs :: k;
    var artifactKeys := (set id, k | id in kept && k in kept[id].outputRefs :: k)
                        + set id, r, k | id in children && r in children[id] && k in r.outputRefs :: k;
    Io(map k | k in valueKeys && k in frozen.values :: frozen.values[k],
       map k | k in artifactKeys && k in frozen.artifacts :: frozen.artifacts[k])
  }

  /** Prepare a report for replay, checking its artifacts against the files as they are now. */
  function PrepareCheckpoint(cx: Context, files: Files, report: ExecutionReport): Result<Checkpoint, CheckpointError> {
    if report.dag != cx.manifest.id then Failure(WrongDag)
    else if report.hash != cx.app.hash(cx.manifest) then Failure(WrongHash)
    else
      var kept := KeptReports(cx.nodes, report.nodes);
      var children := KeptChildren(kept, report.nodes);
      if exists id :: id in kept && !ValidNodeReport(cx.nodes[id], kept[id]) then Failure(BadNodeReport)
      else if exists id :: id in children && exists r :: r in children[id] && !ValidNodeReport(cx.nodes[id], r) then Failure(BadNodeReport)
      else if exists id :: id in kept && !ArtifactsIntact(files, report.outputs, kept[id].outputRefs) then Failure(BadArtifact)
      else if exists id :: id in children && exists r :: r in children[id] && !ArtifactsIntact(files, report.outputs, r.outputRefs) then
        Failure(BadArtifact)
      else Success(Checkpoint(RestoredOutputs(cx, report.outputs, kept, children), kept, children))
  }

  // ---- The whole run ----

  function Fresh(outputs: Io): RunState {
    RunState(map[], map[], outputs, [])
  }

  predicate Layered(cx: Context, layers: seq<seq<string>>) {
    forall l :: l in layers ==> Knows(cx, l)
  }

  function RunFresh(cx: Context, layers: seq<seq<string>>, input: Io, cancel: CancelSignal): Progress
    requires Layered(cx, layers)
  {
    RunLayers(cx, layers, 0, Fresh(input), None, cancel)
  }

  /** Continue from a prepared checkpoint whose report froze `frozenInput`. */
  function RunResumed(cx: Context, layers: seq<seq<string>>, frozenInput: Io, ck: Checkpoint, input: Io, cancel: CancelSignal): Progress
    requires Layered(cx, layers)
  {
    RunLayers(cx, layers, 0, Fresh(Merge(Merge(frozenInput, ck.outputs), input)), Some(ck), cancel)
  }

  function Execute(cx: Context, layers: seq<seq<string>>, input: Io, checkpoint: Option<ExecutionReport>, files: Files, cancel: CancelSignal)
    : Result<ExecutionReport, CheckpointError>
    requires Layered(cx, layers)
  {
    match checkpoint
    case None => Success(Conclude(cx, input, RunFresh(cx, layers, input, cancel)))
    case Some(report) =>
      match PrepareCheckpoint(cx, files, report)
      case Failure(e) => Failure(e)
      case Success(ck) =>
        Success(Conclude(cx, Merge(report.input, input), RunResumed(cx, layers, report.input, ck, input, cancel)))
  }
}
