/** Approval pauses: which keys a paused run's report accepts, and why approving keeps making progress. */
module Approvals {
  import opened Results
  import opened Manifest
  import opened Json
  import opened DagIo
  import opened Artifacts
  import opened NodeRules
  import opened Executor
  import RunOutcomes

  // ---- What an operator may approve ----

  /** Whether an awaiting node report accepts an approval key. */
  predicate Accepts(r: Report, key: string) {
    if r.policy.approvedKey == Some(key) then true
    else if r.policy.tool.None? then false
    else if r.policy.executor == Some("approval_gate") then key == ToolApprovalKey(r.policy.tool.value)
    else r.policy.toolApprovalRequired && key == ToolApprovalKey(r.policy.tool.value)
  }

  predicate Awaits(r: Report) {
    r.status == AwaitingApproval
  }

  predicate CheckpointAccepts(report: ExecutionReport, key: string) {
    exists r :: r in report.nodes && Awaits(r) && Accepts(r, key)
  }

  // ---- What the runtime checks ----

  function CheckedKeys(cx: Context): set<string> {
    set n | n in cx.nodes && CheckedKey(cx.manifest, cx.nodes[n]).Some? :: CheckedKey(cx.manifest, cx.nodes[n]).value
  }

  /** Approval policies sit on approval nodes only, and an approval node's own tool asks for no other key. */
  predicate WellPlaced(m: DagManifest, node: DagNode) {
    && (node.approval.Some? && node.kind != Approval ==> CheckedKey(m, node) == Some(node.approval.value.approvedKey))
    && (node.kind == Approval && NodeTool(m, node).Some? && RequiresApproval(NodeTool(m, node).value) ==>
          CheckedKey(m, node) == Some(ToolApprovalKey(NodeTool(m, node).value.id)))
  }

  function AwaitingReport(m: DagManifest, node: DagNode, attempt: nat): Report {
    NodeReport(m, node, attempt, AwaitingApproval, EMPTY, None)
  }

  /** The report of a node whose own check is waiting accepts the key that check reads. */
  lemma AwaitedKeyAccepted(m: DagManifest, node: DagNode, attempt: nat)
    requires CheckedKey(m, node).Some?
    ensures Accepts(AwaitingReport(m, node, attempt), CheckedKey(m, node).value)
  {
  }

  /** It accepts nothing else exactly when the node's policies are well placed. */
  lemma OnlyAwaitedKeyAccepted(m: DagManifest, node: DagNode, attempt: nat)
    requires CheckedKey(m, node).Some?
    ensures (forall key :: Accepts(AwaitingReport(m, node, attempt), key) ==> CheckedKey(m, node) == Some(key)) <==> WellPlaced(m, node)
  {
    var r := AwaitingReport(m, node, attempt);
    if node.approval.Some? {
      assert Accepts(r, node.approval.value.approvedKey);
    }
    if node.kind == Approval && NodeTool(m, node).Some? && RequiresApproval(NodeTool(m, node).value) {
      assert Accepts(r, ToolApprovalKey(NodeTool(m, node).value.id));
    }
  }

  /** An approval policy misplaced on a gate tool: its key is accepted, yet the check still waits. */
  lemma MisplacedPolicyKeepsWaiting(cx: Context, call: nat, io: Io)
    ensures var gate := DagTool("gate", ApprovalGate, None);
      var node := DagNode("n", Tool, None, Some("gate"), None, [], true, None, None, None, None,
                          Some(ApprovalPolicy("release")), None);
      var m := cx.manifest.(tools := [gate]);
      var approved := WithValue(io, "release", Bool(true));
      && Accepts(AwaitingReport(m, node, 1), "release")
      && (!IsTrue(io, "approval/gate") ==> RunGenericTool(cx.(manifest := m), node, gate, call, approved) == Success(AWAITING))
  {
    assert |"release"| != |"approval/gate"| && ToolApprovalKey("gate") == "approval/gate";
    assert FindTool([DagTool("gate", ApprovalGate, None)], "gate").Some?;
  }

  /** The name a report gives the executor: the tool's kind for tool nodes, the role or the child DAG for others. */
  lemma ExecutorNamed(m: DagManifest, node: DagNode)
    ensures var name := ExecutorLabel(m, node);
      && (node.kind == Tool && NodeTool(m, node).None? ==> name == None)
      && (node.kind == Tool && NodeTool(m, node).Some? ==>
            name.Some? && (name.value == "approval_gate" <==> NodeTool(m, node).value.executor == ApprovalGate))
      && (node.kind in {Agent, Synthesizer, Verify} ==> name == node.role)
      && (node.kind == DagCall ==> name == node.childDag)
      && (node.kind in {Loop, Map} ==> name == if node.tool.Some? then node.tool else if node.role.Some? then node.role else node.childDag)
      && (node.kind !in {Tool, Agent, Synthesizer, Verify, DagCall, Loop, Map} ==> name == None)
  {
    if node.kind == Tool && NodeTool(m, node).Some? {
      OnlyGatesAreGates(NodeTool(m, node).value.executor);
    }
  }

  lemma OnlyGatesAreGates(e: ToolExecutor)
    ensures ExecutorName(e) == "approval_gate" <==> e == ApprovalGate
  {
    assert |"approval_gate"| == 13;
    assert forall x :: x in {"rust", "cli", "shell", "python", "rust_binary", "llm", "http", "lean", "haskell", "docker", "wasm"} ==> |x| != 13;
  }

  /** Which keys the report of a waiting tool node accepts, in terms of the node alone: its approval policy's key, and
      its tool's key if the tool is a gate or its policy requires approval. */
  lemma ToolNodeAccepts(m: DagManifest, node: DagNode, attempt: nat, key: string)
    requires node.kind == Tool
    ensures Accepts(AwaitingReport(m, node, attempt), key) <==>
      || (node.approval.Some? && node.approval.value.approvedKey == key)
      || (NodeTool(m, node).Some? && key == "approval/" + NodeTool(m, node).value.id
          && var t := NodeTool(m, node).value; t.executor == ApprovalGate || (t.policy.Some? && t.policy.value.approvalRequired))
  {
    hide ExecutorLabel, FindTool;
    ExecutorNamed(m, node);
  }

  /** An approval node is ok exactly when its key holds the JSON value true, whatever else the key may hold. */
  lemma ApprovalNodeOpens(cx: Context, node: DagNode, io: Io, statuses: map<string, NodeStatus>)
    requires node.kind == Approval && node.approval.Some?
    ensures var key := node.approval.value.approvedKey;
      EvalNode(cx, node, io, statuses).status == if key in io.values && io.values[key] == Bool(true) then Ok else AwaitingApproval
  {
  }

  // ---- Hypotheses ----

  /** Runtime keys that the executor itself writes into inputs and outputs. */
  const RESERVED := {LOOP_ROUND_INPUT, LOOP_MAX_ROUNDS_INPUT, LOOP_NODE_ID_INPUT,
                     MAP_INDEX_INPUT, MAP_MAX_ITEMS_INPUT, MAP_NODE_ID_INPUT, BUDGET_REMAINING}

  ghost predicate QuietReply(keys: set<string>, reply: Reply) {
    reply.Success? ==> reply.value.status != AwaitingApproval && forall k :: k in reply.value.outputs.values ==> k !in keys
  }

  ghost predicate QuietNode(cx: Context, node: DagNode) {
    var keys := CheckedKeys(cx);
    && node.id !in keys
    && (node.mapPolicy.Some? ==> node.mapPolicy.value.itemKey !in keys && node.mapPolicy.value.indexKey !in keys)
    && WellPlaced(cx.manifest, node)
    && (forall call, io {:trigger cx.app.handler(node, call, io)} :: QuietReply(keys, cx.app.handler(node, call, io)))
  }

  /** Pauses come from the runtime's own checks only, and no node writes a checked key. */
  ghost predicate RuntimePauses(cx: Context) {
    && RESERVED !! CheckedKeys(cx)
    && forall n {:trigger QuietNode(cx, cx.nodes[n])} :: n in cx.nodes ==> cx.nodes[n].id == n && QuietNode(cx, cx.nodes[n])
  }

  ghost predicate Approved(keys: set<string>, io: Io) {
    forall k :: k in keys ==> IsTrue(io, k)
  }

  // ---- One node ----

  ghost predicate Quiet(cx: Context, io: Io) {
    forall k :: k in io.values ==> k !in CheckedKeys(cx)
  }

  /** The node's check waits for a key outside `done`. */
  ghost predicate WaitsOutside(cx: Context, node: DagNode, done: set<string>) {
    var key := CheckedKey(cx.manifest, node);
    key.Some? && key.value in CheckedKeys(cx) && key.value !in done
  }

  lemma KeyIsChecked(cx: Context, n: string)
    requires n in cx.nodes && CheckedKey(cx.manifest, cx.nodes[n]).Some?
    ensures CheckedKey(cx.manifest, cx.nodes[n]).value in CheckedKeys(cx)
  {
  }

  lemma QuietOutputs(cx: Context, n: string, call: nat, io: Io)
    requires RuntimePauses(cx) && n in cx.nodes
    ensures Quiet(cx, ReplyOutputs(cx.nodes[n], ExecuteOnce(cx, cx.nodes[n], call, io)))
  {
    hide CheckedKeys, WellPlaced;
    assert QuietNode(cx, cx.nodes[n]);
    assert QuietReply(CheckedKeys(cx), cx.app.handler(cx.nodes[n], call, io));
  }

  lemma CallWaits(cx: Context, n: string, call: nat, io: Io, done: set<string>)
    requires RuntimePauses(cx) && n in cx.nodes && Approved(done, io)
    requires cx.nodes[n].kind !in {Branch, Gate, Approval}
    requires ReplyStatus(cx.nodes[n], ExecuteOnce(cx, cx.nodes[n], call, io)) == AwaitingApproval
    ensures WaitsOutside(cx, cx.nodes[n], done)
  {
    hide WellPlaced, FindTool;
    var node := cx.nodes[n];
    assert QuietNode(cx, node);
    assert QuietReply(CheckedKeys(cx), cx.app.handler(node, call, io));
  }

  predicate AnyAwaits(reports: seq<Report>) {
    exists r :: r in reports && Awaits(r)
  }

  /** Every awaiting report asks for keys outside `done` only, and if one awaits, some key is asked for. */
  ghost predicate AsksOutside(cx: Context, done: set<string>, reports: seq<Report>) {
    && (forall r, key :: r in reports && Awaits(r) && Accepts(r, key) ==> key in CheckedKeys(cx) && key !in done)
    && (AnyAwaits(reports) ==> exists r, key :: r in reports && Awaits(r) && Accepts(r, key))
  }

  lemma QuietMerge(cx: Context, done: set<string>, io: Io, more: Io)
    requires Approved(done, io) && Quiet(cx, more) && done <= CheckedKeys(cx)
    ensures Approved(done, Merge(io, more))
  {
    hide CheckedKeys;
  }

  lemma {:induction false} AttemptsWait(cx: Context, n: string, io: Io, k: nat, done: set<string>)
    requires RuntimePauses(cx) && n in cx.nodes && Approved(done, io) && IsOrdinary(cx.nodes[n]) && 1 <= k <= MaxAttempts(cx.nodes[n])
    ensures var replies := Attempts(cx, cx.nodes[n], io, k);
      && (forall i :: 0 <= i < |replies| - 1 ==> ReplyStatus(cx.nodes[n], replies[i]) != AwaitingApproval)
      && (ReplyStatus(cx.nodes[n], replies[|replies| - 1]) == AwaitingApproval ==> WaitsOutside(cx, cx.nodes[n], done))
      && Quiet(cx, ReplyOutputs(cx.nodes[n], replies[|replies| - 1]))
    decreases MaxAttempts(cx.nodes[n]) - k
  {
    hide RuntimePauses, ExecuteOnce, WaitsOutside, Quiet, Approved;
    var node := cx.nodes[n];
    var reply := ExecuteOnce(cx, node, k, io);
    QuietOutputs(cx, n, k, io);
    if ReplyStatus(node, reply) == AwaitingApproval {
      CallWaits(cx, n, k, io, done);
    }
    if k < MaxAttempts(node) && ShouldRetry(node, reply) {
      AttemptsWait(cx, n, io, k + 1, done);
    }
  }

  /** The outcome of a node's own evaluation: it awaits only outside `done`, and leaves checked keys alone. */
  ghost predicate Waits(cx: Context, node: DagNode, done: set<string>, status: NodeStatus, produced: Io) {
    Quiet(cx, produced) && (status == AwaitingApproval ==> WaitsOutside(cx, node, done))
  }

  /** An awaiting report of `node` accepts no other key than the one its check waits for. */
  ghost predicate AsksOwnKey(cx: Context, node: DagNode, status: NodeStatus, r: Report) {
    Awaits(r) ==> status == AwaitingApproval && forall key :: Accepts(r, key) ==> CheckedKey(cx.manifest, node) == Some(key)
  }

  /** Reports that ask for the node's own key at most, followed by the node's own report with `status`. */
  lemma OwnReportAsks(cx: Context, n: string, done: set<string>, parts: seq<Report>, own: Report)
    requires RuntimePauses(cx) && n in cx.nodes && own.policy == TraceOf(cx.manifest, cx.nodes[n], ExecutorLabel(cx.manifest, cx.nodes[n]))
    requires own.status == AwaitingApproval ==> WaitsOutside(cx, cx.nodes[n], done)
    requires forall r :: r in parts ==> AsksOwnKey(cx, cx.nodes[n], own.status, r)
    ensures AsksOutside(cx, done, parts + [own])
    ensures own.status == AwaitingApproval ==> AnyAwaits(parts + [own])
  {
    hide CheckedKeys;
    var node := cx.nodes[n];
    var all := parts + [own];
    assert QuietNode(cx, node);
    if Awaits(own) {
      assert own in all;
      AwaitedKeyAccepted(cx.manifest, node, 1);
      OnlyAwaitedKeyAccepted(cx.manifest, node, 1);
      assert forall key :: Accepts(own, key) <==> Accepts(AwaitingReport(cx.manifest, node, 1), key);
      assert Accepts(own, CheckedKey(cx.manifest, node).value);
    }
  }

  // ---- Loops and maps ----

  /** What rounds or items contribute while checked keys outside `done` may be awaited. */
  ghost predicate RoundsWait(cx: Context, node: DagNode, done: set<string>, end: RoundsEnd) {
    && Waits(cx, node, done, end.status, end.combined)
    && forall r :: r in end.reports ==> AsksOwnKey(cx, node, end.status, r)
  }

  lemma ChildAsksOwnKey(cx: Context, n: string, infix: string, index: nat, attempt: nat, status: NodeStatus, outputs: Io, done: set<string>)
    requires n in cx.nodes && cx.nodes[n].kind in {Loop, Map} && (status == AwaitingApproval ==> WaitsOutside(cx, cx.nodes[n], done))
    ensures AsksOwnKey(cx, cx.nodes[n], status, ChildReport(cx.manifest, cx.nodes[n], infix, index, attempt, status, outputs))
  {
    hide CheckedKeys;
  }

  lemma ApprovedInputs(cx: Context, n: string, done: set<string>, visible: Io)
    requires RuntimePauses(cx) && n in cx.nodes && done <= CheckedKeys(cx) && Approved(done, visible)
    ensures forall policy, round :: Approved(done, RoundInputs(cx.nodes[n], policy, round, visible))
    ensures cx.nodes[n].mapPolicy.Some? ==>
      forall item, index :: Approved(done, ItemInputs(cx.nodes[n], cx.nodes[n].mapPolicy.value, item, index, visible))
  {
    hide CheckedKeys, WellPlaced;
    assert QuietNode(cx, cx.nodes[n]);
    assert RESERVED !! done;
    assert LOOP_ROUND_INPUT in RESERVED && LOOP_MAX_ROUNDS_INPUT in RESERVED && LOOP_NODE_ID_INPUT in RESERVED;
    assert MAP_INDEX_INPUT in RESERVED && MAP_MAX_ITEMS_INPUT in RESERVED && MAP_NODE_ID_INPUT in RESERVED;
  }

  lemma {:induction false} LoopWaits(cx: Context, n: string, policy: LoopPolicy, round: nat,
                                     visible: Io, combined: Io, reports: seq<Report>, saw: bool, done: set<string>)
    requires RuntimePauses(cx) && n in cx.nodes && cx.nodes[n].kind == Loop && 1 <= round <= policy.maxRounds
    requires done <= CheckedKeys(cx) && Approved(done, visible) && Quiet(cx, combined)
    requires forall r :: r in reports ==> !Awaits(r)
    ensures RoundsWait(cx, cx.nodes[n], done, LoopRounds(cx, cx.nodes[n], policy, round, visible, combined, reports, saw))
    decreases policy.maxRounds - round
  {
    hide RuntimePauses, ExecuteOnce, CheckedKeys, Approved, RoundInputs, WaitsOutside;
    var node := cx.nodes[n];
    ApprovedInputs(cx, n, done, visible);
    var inputs := RoundInputs(node, policy, round, visible);
    var reply := ExecuteOnce(cx, node, round, inputs);
    var status, outputs := ReplyStatus(node, reply), ReplyOutputs(node, reply);
    QuietOutputs(cx, n, round, inputs);
    if status == AwaitingApproval {
      CallWaits(cx, n, round, inputs, done);
    }
    var child := ChildReport(cx.manifest, node, "#round-", round, round, status, outputs);
    ChildAsksOwnKey(cx, n, "#round-", round, round, status, outputs, done);
    if !(reply.Failure? || status == AwaitingApproval || status == Failed || !IsTrue(outputs, policy.continueKey) || round == policy.maxRounds) {
      QuietMerge(cx, done, visible, outputs);
      LoopWaits(cx, n, policy, round + 1, Merge(visible, outputs), Merge(combined, outputs), reports + [child], saw || status == Degraded, done);
    }
  }

  lemma {:induction false} MapWaits(cx: Context, n: string, items: seq<Json>, index: nat,
                                    visible: Io, combined: Io, reports: seq<Report>, saw: bool, done: set<string>)
    requires RuntimePauses(cx) && n in cx.nodes && cx.nodes[n].kind == Map && cx.nodes[n].mapPolicy.Some? && index <= |items|
    requires done <= CheckedKeys(cx) && Approved(done, visible) && Quiet(cx, combined)
    requires forall r :: r in reports ==> !Awaits(r)
    ensures RoundsWait(cx, cx.nodes[n], done, MapItems(cx, cx.nodes[n], cx.nodes[n].mapPolicy.value, items, index, visible, combined, reports, saw))
    decreases |items| - index
  {
    hide RuntimePauses, ExecuteOnce, CheckedKeys, Approved, ItemInputs, WaitsOutside;
    if index < |items| {
      var node := cx.nodes[n];
      ApprovedInputs(cx, n, done, visible);
      var inputs := ItemInputs(node, node.mapPolicy.value, items[index], index, visible);
      var reply := ExecuteOnce(cx, node, index, inputs);
      var status, outputs := ReplyStatus(node, reply), ReplyOutputs(node, reply);
      QuietOutputs(cx, n, index, inputs);
      if status == AwaitingApproval {
        CallWaits(cx, n, index, inputs, done);
      }
      var child := ChildReport(cx.manifest, node, "#item-", index, 1, status, outputs);
      ChildAsksOwnKey(cx, n, "#item-", index, 1, status, outputs, done);
      if !(reply.Failure? || status == AwaitingApproval || status == Failed) {
        QuietMerge(cx, done, visible, outputs);
        MapWaits(cx, n, items, index + 1, Merge(visible, outputs), Merge(combined, outputs), reports + [child], saw || status == Degraded, done);
      }
    }
  }

  // ---- Whole evaluations ----

  ghost predicate EvalWaits(cx: Context, node: DagNode, done: set<string>, ev: NodeEval) {
    Quiet(cx, ev.produced) && AsksOutside(cx, done, ev.reports) && (ev.status == AwaitingApproval ==> AnyAwaits(ev.reports) && WaitsOutside(cx, node, done))
  }

  lemma AggregateWaits(cx: Context, n: string, done: set<string>, end: RoundsEnd)
    requires RuntimePauses(cx) && n in cx.nodes && RoundsWait(cx, cx.nodes[n], done, end)
    ensures EvalWaits(cx, cx.nodes[n], done, Aggregate(cx, cx.nodes[n], end))
  {
    hide RuntimePauses, CheckedKeys, AsksOutside, AsksOwnKey, WaitsOutside, AnyAwaits;
    var refs := if Usable(end.status) then end.combined else EMPTY;
    OwnReportAsks(cx, n, done, end.reports, NodeReport(cx.manifest, cx.nodes[n], 1, end.status, refs, None));
  }

  lemma LoopEvalWaits(cx: Context, n: string, io: Io, done: set<string>)
    requires RuntimePauses(cx) && n in cx.nodes && done <= CheckedKeys(cx) && Approved(done, io) && cx.nodes[n].kind == Loop
    ensures EvalWaits(cx, cx.nodes[n], done, EvalLoop(cx, cx.nodes[n], io))
  {
    hide RuntimePauses, CheckedKeys, AsksOutside, LoopRounds, Aggregate, EvalWaits;
    var node := cx.nodes[n];
    if node.loopPolicy.None? {
      AggregateWaits(cx, n, done, RoundsEnd(Failed, EMPTY, []));
    } else if node.loopPolicy.value.maxRounds == 0 {
      AggregateWaits(cx, n, done, RoundsEnd(Ok, EMPTY, []));
    } else {
      LoopWaits(cx, n, node.loopPolicy.value, 1, io, EMPTY, [], false, done);
      AggregateWaits(cx, n, done, LoopRounds(cx, node, node.loopPolicy.value, 1, io, EMPTY, [], false));
    }
  }

  lemma MapEvalWaits(cx: Context, n: string, io: Io, done: set<string>)
    requires RuntimePauses(cx) && n in cx.nodes && done <= CheckedKeys(cx) && Approved(done, io) && cx.nodes[n].kind == Map
    ensures EvalWaits(cx, cx.nodes[n], done, EvalMap(cx, cx.nodes[n], io))
  {
    hide RuntimePauses, CheckedKeys, AsksOutside, MapItems, Aggregate, EvalWaits;
    var node := cx.nodes[n];
    AggregateWaits(cx, n, done, RoundsEnd(Failed, EMPTY, []));
    AggregateWaits(cx, n, done, RoundsEnd(FailOrDegrade(node), EMPTY, []));
    if node.mapPolicy.Some? && node.mapPolicy.value.itemsKey in io.values && io.values[node.mapPolicy.value.itemsKey].Arr? {
      var items := io.values[node.mapPolicy.value.itemsKey].items;
      MapWaits(cx, n, items, 0, io, EMPTY, [], false, done);
      AggregateWaits(cx, n, done, MapItems(cx, node, node.mapPolicy.value, items, 0, io, EMPTY, [], false));
    }
  }

  lemma HandlerEvalWaits(cx: Context, n: string, io: Io, done: set<string>)
    requires RuntimePauses(cx) && n in cx.nodes && Approved(done, io) && IsOrdinary(cx.nodes[n])
    ensures EvalWaits(cx, cx.nodes[n], done, EvalHandler(cx, cx.nodes[n], io))
  {
    hide RuntimePauses, CheckedKeys, AsksOutside, Attempts, WaitsOutside;
    var node := cx.nodes[n];
    AttemptsWait(cx, n, io, 1, done);
    var replies := Attempts(cx, node, io, 1);
    var reports := AttemptReports(cx.manifest, node, replies, 1);
    var parts, own := reports[..|reports| - 1], reports[|reports| - 1];
    assert parts + [own] == reports;
    OwnReportAsks(cx, n, done, parts, own);
  }

  lemma OwnAnswerWaits(cx: Context, n: string, io: Io, statuses: map<string, NodeStatus>, done: set<string>)
    requires RuntimePauses(cx) && n in cx.nodes && Approved(done, io) && cx.nodes[n].kind in {Branch, Gate, Approval}
    ensures EvalWaits(cx, cx.nodes[n], done, EvalNode(cx, cx.nodes[n], io, statuses))
  {
    hide CheckedKeys, AsksOutside, WellPlaced, SelectTargets, UsableSources, FindTool;
    var node := cx.nodes[n];
    assert QuietNode(cx, node);
    if node.kind == Approval && node.approval.Some? {
      KeyIsChecked(cx, n);
    }
    var ev := EvalNode(cx, node, io, statuses);
    var own := ev.reports[0];
    assert ev.reports == [] + [own];
    OwnReportAsks(cx, n, done, [], own);
  }

  lemma EvalAsksOutside(cx: Context, n: string, io: Io, statuses: map<string, NodeStatus>, done: set<string>)
    requires RuntimePauses(cx) && n in cx.nodes && done <= CheckedKeys(cx) && Approved(done, io)
    ensures EvalWaits(cx, cx.nodes[n], done, EvalNode(cx, cx.nodes[n], io, statuses))
  {
    hide RuntimePauses, CheckedKeys, EvalWaits, EvalHandler, EvalLoop, EvalMap, EvalBranch, EvalGate, EvalApproval;
    match cx.nodes[n].kind
    case Branch => OwnAnswerWaits(cx, n, io, statuses, done);
    case Gate => OwnAnswerWaits(cx, n, io, statuses, done);
    case Approval => OwnAnswerWaits(cx, n, io, statuses, done);
    case Loop => LoopEvalWaits(cx, n, io, done);
    case Map => MapEvalWaits(cx, n, io, done);
    case _ => HandlerEvalWaits(cx, n, io, done);
  }

  /** Setting the key a node's check reads clears the check, whatever the node and its policies. */
  lemma ApprovedNodeNeverWaits(cx: Context, n: string, io: Io, statuses: map<string, NodeStatus>)
    requires RuntimePauses(cx) && n in cx.nodes
    requires CheckedKey(cx.manifest, cx.nodes[n]).Some? ==> IsTrue(io, CheckedKey(cx.manifest, cx.nodes[n]).value)
    ensures EvalNode(cx, cx.nodes[n], io, statuses).status != AwaitingApproval
  {
    hide RuntimePauses, CheckedKey, AsksOutside, EvalNode, Quiet;
    var key := CheckedKey(cx.manifest, cx.nodes[n]);
    EvalAsksOutside(cx, n, io, statuses, if key.Some? then {key.value} else {});
  }

  /** The inputs of the first call an evaluation would make: those of round 1 of a loop that has rounds, of item 0
      of a non-empty map list within its bound, or the node's own. */
  function FirstInputs(node: DagNode, io: Io): Option<Io> {
    match node.kind
    case Loop =>
      if node.loopPolicy.None? || node.loopPolicy.value.maxRounds == 0 then None
      else Some(RoundInputs(node, node.loopPolicy.value, 1, io))
    case Map =>
      if node.mapPolicy.None? then None
      else
        var policy := node.mapPolicy.value;
        if policy.itemsKey in io.values && io.values[policy.itemsKey].Arr? && 0 < |io.values[policy.itemsKey].items| <= policy.maxItems then
          Some(ItemInputs(node, policy, io.values[policy.itemsKey].items[0], 0, io))
        else None
    case _ => Some(io)
  }

  /** The checks made before the approval check let the call through. */
  predicate LetThrough(cx: Context, node: DagNode, io: Io) {
    && cx.app.inputContract(node, io)
    && NodeTool(cx.manifest, node).Some?
    && (NodeTool(cx.manifest, node).value.executor == ApprovalGate || !cx.app.refuses(node, io))
  }

  lemma ClosedCallWaits(cx: Context, node: DagNode, call: nat, io: Io)
    requires node.kind !in {Branch, Gate, Approval} && CheckedKey(cx.manifest, node).Some? && LetThrough(cx, node, io)
    requires !IsTrue(io, CheckedKey(cx.manifest, node).value)
    ensures ExecuteOnce(cx, node, call, io) == Success(AWAITING)
  {
  }

  /** A closed check holds a node's work back, first round and first item included: the node waits and produces
      nothing, unless its inputs or the runner's policy refuse it first. */
  lemma ClosedCheckWaits(cx: Context, node: DagNode, io: Io, statuses: map<string, NodeStatus>)
    requires CheckedKey(cx.manifest, node).Some? && FirstInputs(node, io).Some?
    requires !IsTrue(FirstInputs(node, io).value, CheckedKey(cx.manifest, node).value)
    requires node.kind == Approval || LetThrough(cx, node, FirstInputs(node, io).value)
    ensures EvalNode(cx, node, io, statuses).status == AwaitingApproval
    ensures EvalNode(cx, node, io, statuses).produced == EMPTY
  {
    hide ExecuteOnce, CheckedKey, LetThrough, RoundInputs, ItemInputs;
    if node.kind == Approval {
      ClosedApprovalWaits(cx, node, io);
    } else {
      var inputs := FirstInputs(node, io).value;
      ClosedKinds(cx.manifest, node);
      ClosedCallWaits(cx, node, 0, inputs);
      ClosedCallWaits(cx, node, 1, inputs);
    }
  }

  lemma ClosedApprovalWaits(cx: Context, node: DagNode, io: Io)
    requires node.kind == Approval && CheckedKey(cx.manifest, node).Some? && !IsTrue(io, CheckedKey(cx.manifest, node).value)
    ensures EvalApproval(cx, node, io).status == AwaitingApproval && EvalApproval(cx, node, io).produced == EMPTY
  {
  }

  lemma ClosedKinds(m: DagManifest, node: DagNode)
    requires CheckedKey(m, node).Some?
    ensures node.kind !in {Branch, Gate}
  {
  }

  // ---- Runs ----

  /** Checked keys in `done` are approved, and every awaiting report so far asks for others only. */
  ghost predicate Asking(cx: Context, done: set<string>, st: RunState) {
    && Approved(done, st.outputs) && AsksOutside(cx, done, st.reports)
    && (SomeAwaiting(st.statuses) ==> AnyAwaits(st.reports))
  }

  /** Hypotheses on the nodes of a run and on the keys approved when it starts. */
  ghost predicate AskSetting(cx: Context, done: set<string>) {
    RuntimePauses(cx) && done <= CheckedKeys(cx)
  }

  lemma AsksConcat(cx: Context, done: set<string>, a: seq<Report>, b: seq<Report>)
    requires AsksOutside(cx, done, a) && AsksOutside(cx, done, b)
    ensures AsksOutside(cx, done, a + b)
    ensures AnyAwaits(a + b) <==> AnyAwaits(a) || AnyAwaits(b)
  {
    hide CheckedKeys, Accepts;
    assert AnyAwaits(a) || AnyAwaits(b) ==> AnyAwaits(a + b) by {
      if ra :| ra in a && Awaits(ra) {
        assert ra in a + b;
      }
      if rb :| rb in b && Awaits(rb) {
        assert rb in a + b;
      }
    }
    if ra, ka :| ra in a && Awaits(ra) && Accepts(ra, ka) {
      assert ra in a + b;
    }
    if rb, kb :| rb in b && Awaits(rb) && Accepts(rb, kb) {
      assert rb in a + b;
    }
  }

  lemma NoneAwaits(cx: Context, done: set<string>, reports: seq<Report>)
    requires forall r :: r in reports ==> !Awaits(r)
    ensures AsksOutside(cx, done, reports)
  {
  }

  lemma RecordAsks(cx: Context, id: string, ev: NodeEval, done: set<string>, st: RunState)
    requires AskSetting(cx, done) && id in cx.nodes && Asking(cx, done, st) && EvalWaits(cx, cx.nodes[id], done, ev)
    ensures Asking(cx, done, Record(cx, id, ev, st))
  {
    hide AsksOutside, CheckedKeys, QuietNode, RemainingBudget, NodeBudget;
    AsksConcat(cx, done, st.reports, ev.reports);
    QuietMerge(cx, done, st.outputs, ev.produced);
    assert BUDGET_REMAINING in RESERVED;
  }

  lemma StepAsks(cx: Context, id: string, done: set<string>, st: RunState)
    requires AskSetting(cx, done) && id in cx.nodes && id in cx.deps && Asking(cx, done, st)
    ensures Asking(cx, done, StepNode(cx, id, st))
  {
    hide AsksOutside, CheckedKeys, RuntimePauses, EvalNode, EvalWaits, Record, Skips;
    if Skips(cx, id, st) {
      NoneAwaits(cx, done, [SkipReport(cx, cx.nodes[id])]);
      AsksConcat(cx, done, st.reports, [SkipReport(cx, cx.nodes[id])]);
    } else {
      EvalAsksOutside(cx, id, st.outputs, st.statuses, done);
      RecordAsks(cx, id, EvalNode(cx, cx.nodes[id], st.outputs, st.statuses), done, st);
    }
  }

  lemma {:induction false} SequentialAsks(cx: Context, layer: seq<string>, i: nat, j: nat, done: set<string>, st: RunState, cancel: CancelSignal)
    requires AskSetting(cx, done) && Knows(cx, layer) && j <= |layer| && Asking(cx, done, st)
    ensures Asking(cx, done, RunSequential(cx, layer, i, j, st, cancel).st)
    decreases |layer| - j
  {
    hide AskSetting, Asking, StepNode;
    if j < |layer| && !cancel(i, j + 1) {
      StepAsks(cx, layer[j], done, st);
      SequentialAsks(cx, layer, i, j + 1, done, StepNode(cx, layer[j], st), cancel);
    }
  }

  lemma {:induction false} RecordAllAsks(cx: Context, ids: seq<string>, j: nat, snapshot: Io, done: set<string>, st: RunState)
    requires AskSetting(cx, done) && Knows(cx, ids) && j <= |ids| && Approved(done, snapshot) && Asking(cx, done, st)
    requires forall id :: id in ids ==> IsOrdinary(cx.nodes[id])
    ensures Asking(cx, done, RecordAll(cx, ids, j, snapshot, st))
    decreases |ids| - j
  {
    hide Asking, EvalHandler, Record, RuntimePauses, CheckedKeys, EvalWaits, Approved;
    if j < |ids| {
      HandlerEvalWaits(cx, ids[j], snapshot, done);
      var ev := EvalHandler(cx, cx.nodes[ids[j]], snapshot);
      RecordAsks(cx, ids[j], ev, done, st);
      RecordAllAsks(cx, ids, j + 1, snapshot, done, Record(cx, ids[j], ev, st));
    }
  }

  ghost predicate UsableCheckpoint(ck: Checkpoint) {
    && (forall id :: id in ck.nodeReports ==> Usable(ck.nodeReports[id].status))
    && forall id, r :: id in ck.childReports && r in ck.childReports[id] ==> Usable(r.status)
  }

  lemma {:induction false} ReplayAsks(cx: Context, layer: seq<string>, j: nat, ck: Checkpoint, done: set<string>, st: RunState)
    requires UsableCheckpoint(ck) && Knows(cx, layer) && j <= |layer| && Asking(cx, done, st)
    ensures Asking(cx, done, ReplayLayer(cx, layer, j, ck, st))
    decreases |layer| - j
  {
    hide AsksOutside, Approved;
    if j < |layer| {
      if layer[j] in ck.nodeReports {
        var id := layer[j];
        var more := (if id in ck.childReports then ck.childReports[id] else []) + [ReplayedReport(cx, cx.nodes[id], ck.nodeReports[id])];
        NoneAwaits(cx, done, more);
        AsksConcat(cx, done, st.reports, more);
        assert ReplayNode(cx, id, ck, st).reports == st.reports + more;
        ReplayAsks(cx, layer, j + 1, ck, done, ReplayNode(cx, id, ck, st));
      } else {
        ReplayAsks(cx, layer, j + 1, ck, done, st);
      }
    }
  }

  lemma LayerAsks(cx: Context, layer: seq<string>, i: nat, done: set<string>, st: RunState, ck: Option<Checkpoint>, cancel: CancelSignal)
    requires AskSetting(cx, done) && Knows(cx, layer) && Asking(cx, done, st) && (ck.Some? ==> UsableCheckpoint(ck.value))
    ensures Asking(cx, done, RunLayer(cx, layer, i, st, ck, cancel).st)
  {
    hide AskSetting, AsksOutside, Approved, RunSequential, RecordAll, ReplayLayer, Skips, NodeBudget, UsableCheckpoint, Unreplayed;
    if !cancel(i, 0) {
      if ck.Some? {
        ReplayAsks(cx, layer, 0, ck.value, done, st);
      }
      var replayed := if ck.Some? then ReplayLayer(cx, layer, 0, ck.value, st) else st;
      var ids := if ck.Some? then Unreplayed(layer, 0, ck.value) else layer;
      if CanRunConcurrently(cx, ids, replayed) {
        RecordAllAsks(cx, ids, 0, replayed.outputs, done, replayed);
      }
      SequentialAsks(cx, layer, i, 0, done, replayed, cancel);
    }
  }

  lemma {:induction false} LayersAsk(cx: Context, layers: seq<seq<string>>, i: nat, done: set<string>, st: RunState,
                                     ck: Option<Checkpoint>, cancel: CancelSignal)
    requires AskSetting(cx, done) && Layered(cx, layers) && i <= |layers| && Asking(cx, done, st)
    requires ck.Some? ==> UsableCheckpoint(ck.value)
    ensures Asking(cx, done, RunLayers(cx, layers, i, st, ck, cancel).st)
    decreases |layers| - i
  {
    hide AskSetting, Asking, RunLayer, UsableCheckpoint;
    if i < |layers| {
      LayerAsks(cx, layers[i], i, done, st, ck, cancel);
      var p := RunLayer(cx, layers[i], i, st, ck, cancel);
      if p.Going? {
        LayersAsk(cx, layers, i + 1, done, p.st, ck, cancel);
      }
    }
  }

  // ---- Whole runs ----

  lemma {:induction false} FinalStatusReported(reports: seq<Report>, id: string)
    requires id in FinalStatuses(reports)
    ensures exists r :: r in reports && r.status == FinalStatuses(reports)[id]
  {
    var front, last := reports[..|reports| - 1], reports[|reports| - 1];
    if id != last.nodeId {
      FinalStatusReported(front, id);
    } else {
      assert last in reports;
    }
  }

  /** A concluded report asks outside `done`, and its status awaits only if a node report awaits. */
  ghost predicate AskingReport(cx: Context, done: set<string>, report: ExecutionReport) {
    AsksOutside(cx, done, report.nodes) && (report.status == AwaitingApproval ==> AnyAwaits(report.nodes))
  }

  lemma {:induction false} CancelReportsSkipped(cx: Context, nodes: seq<DagNode>, statuses: map<string, NodeStatus>)
    ensures forall r :: r in CancelReports(cx, nodes, statuses) ==> r.status == Skipped
  {
    if nodes != [] {
      CancelReportsSkipped(cx, nodes[1..], statuses);
    }
  }

  lemma ConcludeAsks(cx: Context, frozen: Io, done: set<string>, p: Progress)
    requires Asking(cx, done, p.st) && PauseAwaits(p)
    ensures AskingReport(cx, done, Conclude(cx, frozen, p))
  {
    hide AsksOutside, FinalStatuses, CheckedKeys, Approved;
    match p
    case Going(st) =>
      if OverallStatus(st.reports) == AwaitingApproval {
        var id :| id in FinalStatuses(st.reports) && FinalStatuses(st.reports)[id] == AwaitingApproval;
        FinalStatusReported(st.reports, id);
      }
    case Halted(st, Pause) =>
    case Halted(st, Cancel) =>
      CancelReportsSkipped(cx, cx.manifest.nodes, st.statuses);
      var more := CancelReports(cx, cx.manifest.nodes, st.statuses);
      NoneAwaits(cx, done, more);
      AsksConcat(cx, done, st.reports, more);
  }

  lemma PreparedUsable(cx: Context, files: Files, report: ExecutionReport)
    ensures PrepareCheckpoint(cx, files, report).Success? ==> UsableCheckpoint(PrepareCheckpoint(cx, files, report).value)
  {
    hide LastReplayable, ChildrenOf, ArtifactsIntact, RestoredOutputs, ValidNodeReport;
  }

  lemma ExecuteAsks(cx: Context, layers: seq<seq<string>>, input: Io, checkpoint: Option<ExecutionReport>, files: Files,
                    cancel: CancelSignal, done: set<string>)
    requires AskSetting(cx, done) && Layered(cx, layers) && Approved(done, input)
    requires Execute(cx, layers, input, checkpoint, files, cancel).Success?
    ensures AskingReport(cx, done, Execute(cx, layers, input, checkpoint, files, cancel).value)
  {
    hide AskSetting, RunLayers, AsksOutside, CheckedKeys, PrepareCheckpoint, Conclude, AskingReport, UsableCheckpoint;
    NoneAwaits(cx, done, []);
    match checkpoint {
      case None =>
        LayersAsk(cx, layers, 0, done, Fresh(input), None, cancel);
        RunOutcomes.LayersPauseAwaits(cx, layers, 0, Fresh(input), None, cancel);
        ConcludeAsks(cx, input, done, RunFresh(cx, layers, input, cancel));
      case Some(report) =>
        PreparedUsable(cx, files, report);
        var ck := PrepareCheckpoint(cx, files, report).value;
        LayersAsk(cx, layers, 0, done, Fresh(Merge(Merge(report.input, ck.outputs), input)), Some(ck), cancel);
        RunOutcomes.LayersPauseAwaits(cx, layers, 0, Fresh(Merge(Merge(report.input, ck.outputs), input)), Some(ck), cancel);
        ConcludeAsks(cx, Merge(report.input, input), done, RunResumed(cx, layers, report.input, ck, input, cancel));
    }
  }

  // ---- Rounds of pausing and approving ----

  /** The stored input after approving `keys` in turn. */
  function ApprovedInput(input: Io, keys: seq<string>): Io {
    if keys == [] then input
    else WithValue(ApprovedInput(input, keys[..|keys| - 1]), keys[|keys| - 1], Bool(true))
  }

  /** The files and the cancellation signal one execution meets. */
  datatype Conditions = Conditions(files: Files, cancel: CancelSignal)

  /** The report after a first run and one resumed run per approved key. */
  ghost function AfterApprovals(cx: Context, layers: seq<seq<string>>, input: Io, keys: seq<string>, settings: nat -> Conditions)
    : Result<ExecutionReport, CheckpointError>
    requires Layered(cx, layers)
    decreases |keys|
  {
    if keys == [] then Execute(cx, layers, input, None, settings(0).files, settings(0).cancel)
    else
      var paused := AfterApprovals(cx, layers, input, keys[..|keys| - 1], settings);
      if paused.Failure? then paused else Execute(cx, layers, ApprovedInput(input, keys), Some(paused.value), settings(|keys|).files, settings(|keys|).cancel)
  }

  /** Each key was accepted by the report it was approved on. */
  ghost predicate EachAccepted(cx: Context, layers: seq<seq<string>>, input: Io, keys: seq<string>, settings: nat -> Conditions)
    requires Layered(cx, layers)
  {
    forall i :: 0 <= i < |keys| ==>
      var paused := AfterApprovals(cx, layers, input, keys[..i], settings);
      paused.Success? && CheckpointAccepts(paused.value, keys[i])
  }

  function ApprovedKeys(cx: Context, io: Io): set<string> {
    set k | k in CheckedKeys(cx) && IsTrue(io, k)
  }

  /** In every round the report asks only for checked keys that are not approved yet. */
  lemma RoundAsks(cx: Context, layers: seq<seq<string>>, input: Io, keys: seq<string>, settings: nat -> Conditions)
    requires RuntimePauses(cx) && Layered(cx, layers) && AfterApprovals(cx, layers, input, keys, settings).Success?
    ensures AskingReport(cx, ApprovedKeys(cx, ApprovedInput(input, keys)), AfterApprovals(cx, layers, input, keys, settings).value)
  {
    hide RuntimePauses, Execute, AskingReport, CheckedKeys;
    var done := ApprovedKeys(cx, ApprovedInput(input, keys));
    if keys == [] {
      ExecuteAsks(cx, layers, input, None, settings(0).files, settings(0).cancel, done);
    } else {
      var paused := AfterApprovals(cx, layers, input, keys[..|keys| - 1], settings);
      ExecuteAsks(cx, layers, ApprovedInput(input, keys), Some(paused.value), settings(|keys|).files, settings(|keys|).cancel, done);
    }
  }

  /** A run that ends waiting can be moved on: some checked, not yet approved key is accepted. */
  lemma PauseIsApprovable(cx: Context, layers: seq<seq<string>>, input: Io, keys: seq<string>, settings: nat -> Conditions)
    requires RuntimePauses(cx) && Layered(cx, layers) && AfterApprovals(cx, layers, input, keys, settings).Success?
    requires AfterApprovals(cx, layers, input, keys, settings).value.status == AwaitingApproval
    ensures exists key :: CheckpointAccepts(AfterApprovals(cx, layers, input, keys, settings).value, key)
                          && key in CheckedKeys(cx) && !IsTrue(ApprovedInput(input, keys), key)
  {
    hide RuntimePauses, AfterApprovals, CheckedKeys;
    RoundAsks(cx, layers, input, keys, settings);
    var report := AfterApprovals(cx, layers, input, keys, settings).value;
    var r, key :| r in report.nodes && Awaits(r) && Accepts(r, key);
    assert CheckpointAccepts(report, key);
  }

  /** Approving a key that a paused run's report accepts adds exactly that key to the approved ones. */
  lemma AcceptedKeyIsNew(cx: Context, layers: seq<seq<string>>, input: Io, keys: seq<string>, settings: nat -> Conditions, key: string)
    requires RuntimePauses(cx) && Layered(cx, layers) && AfterApprovals(cx, layers, input, keys, settings).Success?
    requires CheckpointAccepts(AfterApprovals(cx, layers, input, keys, settings).value, key)
    ensures key !in ApprovedKeys(cx, ApprovedInput(input, keys))
    ensures ApprovedKeys(cx, ApprovedInput(input, keys + [key])) == ApprovedKeys(cx, ApprovedInput(input, keys)) + {key}
  {
    hide RuntimePauses, AfterApprovals, CheckedKeys, Accepts;
    RoundAsks(cx, layers, input, keys, settings);
    assert (keys + [key])[..|keys|] == keys;
  }

  /** With every checked key approved a run does not end waiting. */
  lemma AllApprovedNeverWaits(cx: Context, layers: seq<seq<string>>, input: Io, keys: seq<string>, settings: nat -> Conditions)
    requires RuntimePauses(cx) && Layered(cx, layers) && AfterApprovals(cx, layers, input, keys, settings).Success?
    requires ApprovedKeys(cx, ApprovedInput(input, keys)) == CheckedKeys(cx)
    ensures AfterApprovals(cx, layers, input, keys, settings).value.status != AwaitingApproval
  {
    hide RuntimePauses, AfterApprovals, CheckedKeys, ApprovedInput;
    RoundAsks(cx, layers, input, keys, settings);
  }

  lemma {:induction false} ApprovalsCounted(cx: Context, layers: seq<seq<string>>, input: Io, keys: seq<string>, settings: nat -> Conditions)
    requires RuntimePauses(cx) && Layered(cx, layers) && EachAccepted(cx, layers, input, keys, settings)
    ensures |ApprovedKeys(cx, ApprovedInput(input, keys))| == |ApprovedKeys(cx, input)| + |keys|
    decreases |keys|
  {
    hide RuntimePauses, AfterApprovals, ApprovedKeys, CheckpointAccepts;
    if keys != [] {
      var front, last := keys[..|keys| - 1], keys[|keys| - 1];
      assert forall i :: 0 <= i < |front| ==> front[..i] == keys[..i];
      ApprovalsCounted(cx, layers, input, front, settings);
      AcceptedKeyIsNew(cx, layers, input, front, settings, last);
      assert keys == front + [last];
    }
  }

  /** Every accepted approval approves one more checked key, so a run pauses at most once per checked key that
      its input leaves open. */
  lemma PausesBounded(cx: Context, layers: seq<seq<string>>, input: Io, keys: seq<string>, settings: nat -> Conditions)
    requires RuntimePauses(cx) && Layered(cx, layers) && EachAccepted(cx, layers, input, keys, settings)
    ensures |keys| <= |CheckedKeys(cx) - ApprovedKeys(cx, input)|
    ensures |keys| == |CheckedKeys(cx) - ApprovedKeys(cx, input)| && AfterApprovals(cx, layers, input, keys, settings).Success? ==>
      AfterApprovals(cx, layers, input, keys, settings).value.status != AwaitingApproval
  {
    hide RuntimePauses, AfterApprovals, CheckedKeys, ApprovedInput, EachAccepted;
    ApprovalsCounted(cx, layers, input, keys, settings);
    var done := ApprovedKeys(cx, ApprovedInput(input, keys));
    SubsetSizes(ApprovedKeys(cx, input), done, CheckedKeys(cx));
    if done == CheckedKeys(cx) && AfterApprovals(cx, layers, input, keys, settings).Success? {
      AllApprovedNeverWaits(cx, layers, input, keys, settings);
    }
  }

  lemma SubsetSizes(a: set<string>, b: set<string>, all: set<string>)
    requires a <= all && b <= all
    ensures |all - a| == |all| - |a| && |b| <= |all| && (|b| == |all| ==> b == all)
  {
    assert all == (all - a) + a && all == (all - b) + b;
  }
}
