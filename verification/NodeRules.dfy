/** Evaluation of one manifest node: attempts, loops, maps, branches, gates and approvals. */
module NodeRules {
  import opened Results
  import opened Manifest
  import opened Json
  import CanonicalJson
  import opened DagIo

  const LOOP_ROUND_INPUT := "loop_round"
  const LOOP_MAX_ROUNDS_INPUT := "loop_max_rounds"
  const LOOP_NODE_ID_INPUT := "loop_node_id"
  const MAP_INDEX_INPUT := "map_index"
  const MAP_MAX_ITEMS_INPUT := "map_max_items"
  const MAP_NODE_ID_INPUT := "map_node_id"
  const BUDGET_REMAINING := "agenthero_budget_units_remaining"

  datatype NodeResult = NodeResult(status: NodeStatus, outputs: Io)

  type Reply = Result<NodeResult, string>

  /** The application side of a run. `handler` receives the node, the 1-based attempt or round (0-based
      item index for a map) and the visible inputs; within one run each such call happens once, so a
      function stands for any handler. `refuses` are the runner's own policy checks, `inputContract` and
      `outputContract` the tool schemas. */
  datatype App = App(
    handler: (DagNode, nat, Io) -> Reply,
    refuses: (DagNode, Io) -> bool,
    inputContract: (DagNode, Io) -> bool,
    outputContract: (DagNode, Io) -> bool,
    hash: DagManifest -> string)

  /** A manifest being run by an application, with its node and dependency indexes. */
  datatype Context = Context(
    app: App,
    manifest: DagManifest,
    nodes: map<string, DagNode>,
    deps: map<string, set<string>>)

  /** The approval-relevant part of a report's policy trace, with the executor label and tool id. */
  datatype PolicyTrace = PolicyTrace(
    approvedKey: Option<string>,
    tool: Option<string>,
    executor: Option<string>,
    toolApprovalRequired: bool)

  datatype Report = Report(
    nodeId: string,
    kind: NodeKind,
    status: NodeStatus,
    attempt: nat,
    outputRefs: map<string, string>,
    selected: Option<set<string>>,
    policy: PolicyTrace)

  predicate Usable(status: NodeStatus) {
    status == Ok || status == Degraded
  }

  // ---- Tools and approval keys ----

  function FindTool(tools: seq<DagTool>, id: string): (r: Option<DagTool>)
    ensures r.Some? ==> r.value.id == id && r.value in tools
  {
    if |tools| == 0 then None
    else if tools[0].id == id then Some(tools[0])
    else FindTool(tools[1..], id)
  }

  function NodeTool(m: DagManifest, node: DagNode): (r: Option<DagTool>)
    ensures r.Some? ==> node.tool == Some(r.value.id)
  {
    if node.tool.None? then None else FindTool(m.tools, node.tool.value)
  }

  function ToolApprovalKey(tool: string): string {
    "approval/" + tool
  }

  predicate RequiresApproval(tool: DagTool) {
    tool.policy.Some? && tool.policy.value.approvalRequired
  }

  predicate IsGenericExecutor(e: ToolExecutor) {
    e != Rust
  }

  /** The key the runtime's own check of a node reads, if the node has such a check. */
  function CheckedKey(m: DagManifest, node: DagNode): Option<string> {
    match node.kind
    case Branch => None
    case Gate => None
    case Approval => if node.approval.Some? then Some(node.approval.value.approvedKey) else None
    case _ =>
      match NodeTool(m, node)
      case None => None
      case Some(t) =>
        if (t.executor == Rust && RequiresApproval(t))
           || (t.executor != Rust && node.kind == Tool && (t.executor == ApprovalGate || RequiresApproval(t))) then
          Some(ToolApprovalKey(t.id))
        else None
  }

  // ---- One handler call ----

  function Refused(node: DagNode): NodeResult {
    NodeResult(if node.required then Failed else Degraded, EMPTY)
  }

  const AWAITING := NodeResult(AwaitingApproval, EMPTY)

  /** The generic tool runner: an approval gate answers by itself; other tools run after policy and approval checks. */
  function RunGenericTool(cx: Context, node: DagNode, tool: DagTool, call: nat, inputs: Io): Reply {
    if tool.executor == ApprovalGate then
      if IsTrue(inputs, ToolApprovalKey(tool.id)) then
        Success(NodeResult(Ok, WithValue(EMPTY, node.id,
          Obj([Member("approved_key", Str(ToolApprovalKey(tool.id))), Member("approved", Bool(true)), Member("tool", Str(tool.id))]))))
      else Success(AWAITING)
    else if cx.app.refuses(node, inputs) then Success(Refused(node))
    else if RequiresApproval(tool) && !IsTrue(inputs, ToolApprovalKey(tool.id)) then Success(AWAITING)
    else cx.app.handler(node, call, inputs)
  }

  function NormalStatus(status: NodeStatus): NodeStatus {
    match status
    case Pending => Ok
    case Running => Ok
    case Skipped => Ok
    case other => other
  }

  /** A usable result must keep to its declared artifacts and its output contract. */
  function CheckOutputs(cx: Context, node: DagNode, reply: Reply): Reply {
    if reply.Success? && Usable(NormalStatus(reply.value.status)) then
      if !(forall k :: k in reply.value.outputs.artifacts ==> k in node.outputs) then Failure("undeclared artifact output")
      else if !cx.app.outputContract(node, reply.value.outputs) then Failure("output contract")
      else reply
    else reply
  }

  function ExecuteOnce(cx: Context, node: DagNode, call: nat, inputs: Io): Reply {
    var tool := NodeTool(cx.manifest, node);
    if !cx.app.inputContract(node, inputs) then Failure("input contract")
    else if tool.Some? && !IsGenericExecutor(tool.value.executor) then
      if cx.app.refuses(node, inputs) then Success(Refused(node))
      else if RequiresApproval(tool.value) && !IsTrue(inputs, ToolApprovalKey(tool.value.id)) then Success(AWAITING)
      else CheckOutputs(cx, node, cx.app.handler(node, call, inputs))
    else if tool.Some? && node.kind == Tool then
      CheckOutputs(cx, node, RunGenericTool(cx, node, tool.value, call, inputs))
    else CheckOutputs(cx, node, cx.app.handler(node, call, inputs))
  }

  // ---- Attempts ----

  function MaxAttempts(node: DagNode): (n: nat)
    ensures n >= 1
  {
    if node.retry.Some? && node.retry.value.maxAttempts > 1 then node.retry.value.maxAttempts else 1
  }

  predicate ShouldRetry(node: DagNode, reply: Reply) {
    && node.retry.Some?
    && (reply.Failure? || NormalStatus(reply.value.status) in {Failed, Degraded})
  }

  /** The replies of attempts `k`, `k + 1`, ... until one needs no retry or attempts run out. */
  function Attempts(cx: Context, node: DagNode, inputs: Io, k: nat): (replies: seq<Reply>)
    requires 1 <= k <= MaxAttempts(node)
    ensures |replies| >= 1
    decreases MaxAttempts(node) - k
  {
    var reply := ExecuteOnce(cx, node, k, inputs);
    if k < MaxAttempts(node) && ShouldRetry(node, reply) then [reply] + Attempts(cx, node, inputs, k + 1)
    else [reply]
  }

  /** A reply's status: an error fails a required node and degrades an optional one. */
  function ReplyStatus(node: DagNode, reply: Reply): NodeStatus {
    if reply.Success? then NormalStatus(reply.value.status)
    else if node.required then Failed else Degraded
  }

  function ReplyOutputs(node: DagNode, reply: Reply): Io {
    if reply.Success? && Usable(NormalStatus(reply.value.status)) then reply.value.outputs else EMPTY
  }

  // ---- Node evaluation ----

  /** What evaluating a node contributes to the run; `spends` tells whether its budget units are consumed. */
  datatype NodeEval = NodeEval(
    status: NodeStatus,
    produced: Io,
    spends: bool,
    selected: Option<set<string>>,
    reports: seq<Report>)

  function ExecutorName(e: ToolExecutor): string {
    match e
    case Rust => "rust" case Cli => "cli" case Shell => "shell" case Python => "python"
    case RustBinary => "rust_binary" case Llm => "llm" case Http => "http" case Lean => "lean"
    case Haskell => "haskell" case Docker => "docker" case Wasm => "wasm" case ApprovalGate => "approval_gate"
  }

  function OrElse(a: Option<string>, b: Option<string>): Option<string> {
    if a.Some? then a else b
  }

  function ExecutorLabel(m: DagManifest, node: DagNode): Option<string> {
    match node.kind
    case Tool => (match NodeTool(m, node) case Some(t) => Some(ExecutorName(t.executor)) case None => None)
    case Agent => node.role
    case Synthesizer => node.role
    case Verify => node.role
    case DagCall => node.childDag
    case Loop => OrElse(node.tool, OrElse(node.role, node.childDag))
    case Map => OrElse(node.tool, OrElse(node.role, node.childDag))
    case _ => None
  }

  function TraceOf(m: DagManifest, node: DagNode, executor: Option<string>): PolicyTrace {
    PolicyTrace(
      if node.approval.Some? then Some(node.approval.value.approvedKey) else None,
      node.tool,
      executor,
      match NodeTool(m, node) case Some(t) => RequiresApproval(t) case None => false)
  }

  function NodeReport(m: DagManifest, node: DagNode, attempt: nat, status: NodeStatus,
                      outputs: Io, selected: Option<set<string>>): Report {
    Report(node.id, node.kind, status, attempt, Uris(outputs.artifacts), selected, TraceOf(m, node, ExecutorLabel(m, node)))
  }

  function AttemptReports(m: DagManifest, node: DagNode, replies: seq<Reply>, first: nat): (reports: seq<Report>)
    ensures |reports| == |replies|
    ensures forall i :: 0 <= i < |reports| ==>
      reports[i] == NodeReport(m, node, first + i, ReplyStatus(node, replies[i]), ReplyOutputs(node, replies[i]), None)
  {
    seq(|replies|, i requires 0 <= i < |replies| =>
      NodeReport(m, node, first + i, ReplyStatus(node, replies[i]), ReplyOutputs(node, replies[i]), None))
  }

  function EvalHandler(cx: Context, node: DagNode, inputs: Io): NodeEval {
    var replies := Attempts(cx, node, inputs, 1);
    var last := replies[|replies| - 1];
    NodeEval(ReplyStatus(node, last), ReplyOutputs(node, last), Usable(ReplyStatus(node, last)), None,
             AttemptReports(cx.manifest, node, replies, 1))
  }

  /** Evaluation of a node the executor answers itself, from its reply. */
  function EvalReply(cx: Context, node: DagNode, reply: Reply, selected: Option<set<string>>): NodeEval {
    var status, outputs := ReplyStatus(node, reply), ReplyOutputs(node, reply);
    NodeEval(status, outputs, Usable(status), selected, [NodeReport(cx.manifest, node, 1, status, outputs, selected)])
  }

  function Text(io: Io, key: string): string {
    if key in io.values && io.values[key].Str? then io.values[key].s else ""
  }

  /** The targets a branch selects: the case of the decision, else a non-empty default. */
  function SelectTargets(b: BranchPolicy, inputs: Io): Option<seq<string>> {
    var decision := Text(inputs, b.decisionKey);
    if decision in b.cases then Some(b.cases[decision])
    else if |b.otherwise| > 0 then Some(b.otherwise)
    else None
  }

  function InsertTarget(x: string, sorted: seq<string>): (r: seq<string>)
    ensures forall t :: t in r <==> t == x || t in sorted
  {
    if sorted == [] || CanonicalJson.Before(x, sorted[0]) then [x] + sorted
    else if x == sorted[0] then sorted
    else [sorted[0]] + InsertTarget(x, sorted[1..])
  }

  /** Targets in key order, each once. */
  function SortedTargets(targets: seq<string>): (r: seq<string>)
    ensures forall t :: t in r <==> t in targets
  {
    if targets == [] then [] else InsertTarget(targets[0], SortedTargets(targets[1..]))
  }

  function Strings(items: seq<string>): (j: Json)
    ensures j.Arr? && |j.items| == |items| && forall i :: 0 <= i < |items| ==> j.items[i] == Str(items[i])
  {
    Arr(seq(|items|, i requires 0 <= i < |items| => Str(items[i])))
  }

  function EvalBranch(cx: Context, node: DagNode, inputs: Io): NodeEval {
    if node.branch.None? then EvalReply(cx, node, Failure("no branch policy"), None)
    else
      var policy := node.branch.value;
      var targets := SelectTargets(policy, inputs);
      if targets.None? then EvalReply(cx, node, Failure("no case and no default"), None)
      else
        var value := Obj([Member("decision_key", Str(policy.decisionKey)),
                          Member("decision", Str(Text(inputs, policy.decisionKey))),
                          Member("selected", Strings(SortedTargets(targets.value)))]);
        EvalReply(cx, node, Success(NodeResult(Ok, WithValue(EMPTY, node.id, value))), Some(set t | t in targets.value))
  }

  function UsableSources(sources: seq<string>, statuses: map<string, NodeStatus>): (n: nat)
    ensures n <= |sources|
  {
    if |sources| == 0 then 0
    else (if sources[0] in statuses && Usable(statuses[sources[0]]) then 1 else 0) + UsableSources(sources[1..], statuses)
  }

  function EvalGate(cx: Context, node: DagNode, statuses: map<string, NodeStatus>): NodeEval {
    if node.gate.None? then EvalReply(cx, node, Failure("no gate policy"), None)
    else
      var needed := if node.gate.value.minUsable.Some? then node.gate.value.minUsable.value else 1;
      var usable := UsableSources(node.gate.value.sources, statuses);
      if usable >= needed then
        EvalReply(cx, node, Success(NodeResult(Ok, WithValue(EMPTY, node.id,
          Obj([Member("min_usable", Num(needed)), Member("usable", Num(usable)), Member("sources", Strings(node.gate.value.sources))])))), None)
      else EvalReply(cx, node, Failure("too few usable sources"), None)
  }

  function EvalApproval(cx: Context, node: DagNode, inputs: Io): NodeEval {
    if node.approval.None? then EvalReply(cx, node, Failure("no approval policy"), None)
    else if IsTrue(inputs, node.approval.value.approvedKey) then
      EvalReply(cx, node, Success(NodeResult(Ok, WithValue(EMPTY, node.id,
        Obj([Member("approved_key", Str(node.approval.value.approvedKey)), Member("approved", Bool(true))])))), None)
    else EvalReply(cx, node, Success(AWAITING), None)
  }

  // ---- Loop and map nodes ----

  datatype RoundsEnd = RoundsEnd(status: NodeStatus, combined: Io, reports: seq<Report>)

  function ChildReport(m: DagManifest, node: DagNode, infix: string, index: nat, attempt: nat, status: NodeStatus, outputs: Io): Report {
    Report(node.id + infix + NatText(index), node.kind, status, attempt, Uris(outputs.artifacts), None,
           PolicyTrace(None, node.tool, ExecutorLabel(m, node), false))
  }

  function RoundInputs(node: DagNode, policy: LoopPolicy, round: nat, visible: Io): Io {
    visible.(values := visible.values[LOOP_ROUND_INPUT := Num(round)][LOOP_MAX_ROUNDS_INPUT := Num(policy.maxRounds)]
                                     [LOOP_NODE_ID_INPUT := Str(node.id)])
  }

  function DegradedOrOk(sawDegraded: bool): NodeStatus {
    if sawDegraded then Degraded else Ok
  }

  function FailOrDegrade(node: DagNode): NodeStatus {
    if node.required then Failed else Degraded
  }

  function LoopRounds(cx: Context, node: DagNode, policy: LoopPolicy, round: nat,
                      visible: Io, combined: Io, reports: seq<Report>, sawDegraded: bool): RoundsEnd
    requires 1 <= round <= policy.maxRounds
    decreases policy.maxRounds - round
  {
    var reply := ExecuteOnce(cx, node, round, RoundInputs(node, policy, round, visible));
    var status, outputs := ReplyStatus(node, reply), ReplyOutputs(node, reply);
    var reports' := reports + [ChildReport(cx.manifest, node, "#round-", round, round, status, outputs)];
    var combined' := Merge(combined, outputs);
    var saw := sawDegraded || status == Degraded;
    if reply.Failure? || status == AwaitingApproval || status == Failed then RoundsEnd(status, combined', reports')
    else if !IsTrue(outputs, policy.continueKey) then RoundsEnd(DegradedOrOk(saw), combined', reports')
    else if round == policy.maxRounds then RoundsEnd(FailOrDegrade(node), combined', reports')
    else LoopRounds(cx, node, policy, round + 1, Merge(visible, outputs), combined', reports', saw)
  }

  /** Close a loop or map evaluation with the node's own aggregate report. */
  function Aggregate(cx: Context, node: DagNode, end: RoundsEnd): NodeEval {
    var refs := if Usable(end.status) then end.combined else EMPTY;
    NodeEval(end.status, end.combined, true, None, end.reports + [NodeReport(cx.manifest, node, 1, end.status, refs, None)])
  }

  function EvalLoop(cx: Context, node: DagNode, inputs: Io): NodeEval {
    if node.loopPolicy.None? then Aggregate(cx, node, RoundsEnd(Failed, EMPTY, []))
    else if node.loopPolicy.value.maxRounds == 0 then Aggregate(cx, node, RoundsEnd(Ok, EMPTY, []))
    else Aggregate(cx, node, LoopRounds(cx, node, node.loopPolicy.value, 1, inputs, EMPTY, [], false))
  }

  function ItemInputs(node: DagNode, policy: MapPolicy, item: Json, index: nat, visible: Io): Io {
    visible.(values := visible.values[policy.itemKey := item][policy.indexKey := Num(index)][MAP_INDEX_INPUT := Num(index)]
                                     [MAP_MAX_ITEMS_INPUT := Num(policy.maxItems)][MAP_NODE_ID_INPUT := Str(node.id)])
  }

  function MapItems(cx: Context, node: DagNode, policy: MapPolicy, items: seq<Json>, index: nat,
                    visible: Io, combined: Io, reports: seq<Report>, sawDegraded: bool): RoundsEnd
    requires index <= |items|
    decreases |items| - index
  {
    if index == |items| then RoundsEnd(DegradedOrOk(sawDegraded), combined, reports)
    else
      var reply := ExecuteOnce(cx, node, index, ItemInputs(node, policy, items[index], index, visible));
      var status, outputs := ReplyStatus(node, reply), ReplyOutputs(node, reply);
      var reports' := reports + [ChildReport(cx.manifest, node, "#item-", index, 1, status, outputs)];
      var combined' := Merge(combined, outputs);
      if reply.Failure? || status == AwaitingApproval || status == Failed then RoundsEnd(status, combined', reports')
      else MapItems(cx, node, policy, items, index + 1, Merge(visible, outputs), combined', reports',
                    sawDegraded || status == Degraded)
  }

  function EvalMap(cx: Context, node: DagNode, inputs: Io): NodeEval {
    if node.mapPolicy.None? then Aggregate(cx, node, RoundsEnd(Failed, EMPTY, []))
    else
      var policy := node.mapPolicy.value;
      if !(policy.itemsKey in inputs.values && inputs.values[policy.itemsKey].Arr?)
         || |inputs.values[policy.itemsKey].items| > policy.maxItems then
        Aggregate(cx, node, RoundsEnd(FailOrDegrade(node), EMPTY, []))
      else Aggregate(cx, node, MapItems(cx, node, policy, inputs.values[policy.itemsKey].items, 0, inputs, EMPTY, [], false))
  }

  predicate IsOrdinary(node: DagNode) {
    node.kind !in {Branch, Gate, Approval, Loop, Map}
  }

  function EvalNode(cx: Context, node: DagNode, inputs: Io, statuses: map<string, NodeStatus>): NodeEval {
    match node.kind
    case Branch => EvalBranch(cx, node, inputs)
    case Loop => EvalLoop(cx, node, inputs)
    case Map => EvalMap(cx, node, inputs)
    case Gate => EvalGate(cx, node, statuses)
    case Approval => EvalApproval(cx, node, inputs)
    case _ => EvalHandler(cx, node, inputs)
  }

  // ---- Budget ----

  function ParseDigits(s: string, acc: nat): Option<nat> {
    if |s| == 0 then Some(acc)
    else if '0' <= s[0] <= '9' then ParseDigits(s[1..], acc * 10 + (s[0] as int - '0' as int))
    else None
  }

  /** A budget value: a number clamped at zero, or a string that parses as an unsigned 64-bit number. */
  function BudgetUnits(v: Json): Option<nat> {
    match v
    case Num(n) => Some(if n < 0 then 0 else n)
    case Str(s) =>
      var digits := if |s| > 0 && s[0] == '+' then s[1..] else s;
      var n := ParseDigits(digits, 0);
      if |digits| == 0 || (n.Some? && n.value >= 0x1_0000_0000_0000_0000) then None else n
    case _ => None
  }

  function BudgetAt(io: Io, key: string): Option<nat> {
    if key in io.values then BudgetUnits(io.values[key]) else None
  }

  function RemainingBudget(io: Io): Option<nat> {
    if BudgetAt(io, BUDGET_REMAINING).Some? then BudgetAt(io, BUDGET_REMAINING)
    else if BudgetAt(io, "budget_units_remaining").Some? then BudgetAt(io, "budget_units_remaining")
    else BudgetAt(io, "budget_remaining")
  }

  function NodeBudget(m: DagManifest, node: DagNode): Option<nat> {
    match NodeTool(m, node)
    case Some(t) => if t.policy.Some? then t.policy.value.budgetUnits else None
    case None => None
  }

  /** Deduct a node's budget units, saturating at zero. */
  function Spend(m: DagManifest, node: DagNode, outputs: Io): Io {
    var units, remaining := NodeBudget(m, node), RemainingBudget(outputs);
    if units.None? || remaining.None? then outputs
    else WithValue(outputs, BUDGET_REMAINING,
                   Num(if units.value > remaining.value then 0 else remaining.value - units.value))
  }
}
