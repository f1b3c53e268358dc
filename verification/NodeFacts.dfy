/** What evaluating one node promises: attempts, rounds, items, gates and contracts. */
module NodeFacts {
  import opened Results
  import opened Manifest
  import opened Json
  import opened DagIo
  import opened NodeRules
  import CanonicalJson

  // ---- Attempts ----

  /** The call errored, or its result is failed or degraded. */
  predicate WentWrong(reply: Reply) {
    reply.Failure? || reply.value.status == Failed || reply.value.status == Degraded
  }

  /** `replies` are those of attempts `first`, `first + 1`, ...: all but the last went wrong under a retry policy that
      allows one more, and the last did not go wrong, or was the last allowed. */
  ghost predicate IsAttemptHistory(cx: Context, node: DagNode, io: Io, first: nat, replies: seq<Reply>) {
    var n := |replies|;
    && n >= 1
    && (forall i :: 0 <= i < n ==> replies[i] == ExecuteOnce(cx, node, first + i, io))
    && (forall i :: 0 <= i < n - 1 ==> WentWrong(replies[i]))
    && (n > 1 ==> node.retry.Some? && first + n - 1 <= node.retry.value.maxAttempts)
    && (!WentWrong(replies[n - 1]) || node.retry.None? || first + n - 1 >= node.retry.value.maxAttempts)
  }

  lemma RetriesWhenWrong(node: DagNode, reply: Reply)
    ensures ShouldRetry(node, reply) <==> node.retry.Some? && WentWrong(reply)
  {
  }

  lemma {:induction false} AttemptsAreHistory(cx: Context, node: DagNode, io: Io, k: nat)
    requires 1 <= k <= MaxAttempts(node)
    ensures IsAttemptHistory(cx, node, io, k, Attempts(cx, node, io, k))
    decreases MaxAttempts(node) - k
  {
    hide ExecuteOnce, ShouldRetry, WentWrong;
    var reply := ExecuteOnce(cx, node, k, io);
    RetriesWhenWrong(node, reply);
    if k < MaxAttempts(node) && ShouldRetry(node, reply) {
      AttemptsAreHistory(cx, node, io, k + 1);
      var rest := Attempts(cx, node, io, k + 1);
      assert Attempts(cx, node, io, k) == [reply] + rest;
      forall i | 1 <= i < |rest| + 1
        ensures ([reply] + rest)[i] == ExecuteOnce(cx, node, k + i, io)
      {
        assert rest[i - 1] == ExecuteOnce(cx, node, (k + 1) + (i - 1), io);
      }
    }
  }

  /** Attempts stop at the first that does not go wrong, or at the limit, and nothing else is an attempt history. */
  lemma {:induction false} AttemptsExactly(cx: Context, node: DagNode, io: Io, k: nat, replies: seq<Reply>)
    requires 1 <= k <= MaxAttempts(node)
    ensures replies == Attempts(cx, node, io, k) <==> IsAttemptHistory(cx, node, io, k, replies)
    decreases MaxAttempts(node) - k
  {
    hide ExecuteOnce, ShouldRetry, WentWrong;
    AttemptsAreHistory(cx, node, io, k);
    RetriesWhenWrong(node, ExecuteOnce(cx, node, k, io));
    if IsAttemptHistory(cx, node, io, k, replies) && |replies| > 1 {
      var rest := replies[1..];
      forall i | 0 <= i < |rest|
        ensures rest[i] == ExecuteOnce(cx, node, (k + 1) + i, io)
      {
        assert replies[i + 1] == ExecuteOnce(cx, node, k + (i + 1), io);
      }
      AttemptsExactly(cx, node, io, k + 1, rest);
      assert replies == [replies[0]] + rest;
    }
  }

  lemma ReplyEnds(node: DagNode, last: Reply)
    ensures var status, produced := ReplyStatus(node, last), ReplyOutputs(node, last);
      && (last.Failure? ==> status == (if node.required then Failed else Degraded) && produced == EMPTY)
      && (last.Success? ==> status == if last.value.status in {AwaitingApproval, Failed, Degraded} then last.value.status else Ok)
      && (last.Success? ==> produced == if status in {Ok, Degraded} then last.value.outputs else EMPTY)
  {
  }

  /** How a node ends whose calls before the `n`-th went wrong, `n` within its retry policy, and whose `n`-th did not,
      or was the last allowed: by that call, one report per call. An error fails a required node and degrades an
      optional one, a node is never left pending, running or skipped, and only a usable result has outputs. */
  lemma HandlerEndsByLastCall(cx: Context, node: DagNode, io: Io, n: nat)
    requires n >= 1 && (n > 1 ==> node.retry.Some? && n <= node.retry.value.maxAttempts)
    requires forall i :: 1 <= i < n ==> WentWrong(ExecuteOnce(cx, node, i, io))
    requires !WentWrong(ExecuteOnce(cx, node, n, io)) || node.retry.None? || n >= node.retry.value.maxAttempts
    ensures var ev, last := EvalHandler(cx, node, io), ExecuteOnce(cx, node, n, io);
      && (last.Failure? ==> ev.status == (if node.required then Failed else Degraded) && ev.produced == EMPTY)
      && (last.Success? ==> ev.status == if last.value.status in {AwaitingApproval, Failed, Degraded} then last.value.status else Ok)
      && (last.Success? ==> ev.produced == if ev.status in {Ok, Degraded} then last.value.outputs else EMPTY)
      && |ev.reports| == n && forall i :: 0 <= i < n ==> ev.reports[i].nodeId == node.id && ev.reports[i].attempt == i + 1
  {
    hide ExecuteOnce, Attempts, ExecutorLabel, TraceOf, ReplyStatus, ReplyOutputs, WentWrong;
    ReplyEnds(node, ExecuteOnce(cx, node, n, io));
    var replies := seq(n, i requires 0 <= i < n => ExecuteOnce(cx, node, 1 + i, io));
    AttemptsExactly(cx, node, io, 1, replies);
  }

  // ---- One call ----

  /** The node's tool is run by the runtime, under its policy checks: a Rust tool, or another one on a tool node. */
  predicate RunsUnderPolicy(m: DagManifest, node: DagNode) {
    NodeTool(m, node).Some? && (NodeTool(m, node).value.executor == Rust || node.kind == Tool)
  }

  predicate IsGateTool(m: DagManifest, node: DagNode) {
    node.kind == Tool && NodeTool(m, node).Some? && NodeTool(m, node).value.executor == ApprovalGate
  }

  /** What stands between a call and the handler, in order: the input contract, the policy checks, and an unset
      approval key. A gate answers by itself. Otherwise the handler's reply comes through as it is, unless it is usable
      and breaks the output contract or holds an undeclared artifact. */
  lemma CallComesThrough(cx: Context, node: DagNode, call: nat, io: Io)
    requires node.kind !in {Branch, Gate, Approval}
    ensures var reply, key := ExecuteOnce(cx, node, call, io), CheckedKey(cx.manifest, node);
      var refused := RunsUnderPolicy(cx.manifest, node) && !IsGateTool(cx.manifest, node) && cx.app.refuses(node, io);
      var open := key.None? || (key.value in io.values && io.values[key.value] == Bool(true));
      && (!cx.app.inputContract(node, io) ==> reply.Failure?)
      && (cx.app.inputContract(node, io) && refused ==>
            reply == Success(NodeResult(if node.required then Failed else Degraded, EMPTY))
            || (node.kind == Tool && !node.required && reply.Failure? && !cx.app.outputContract(node, EMPTY)
                && NodeTool(cx.manifest, node).value.executor != Rust))
      && (cx.app.inputContract(node, io) && !refused && !open ==> reply == Success(NodeResult(AwaitingApproval, EMPTY)))
      && (cx.app.inputContract(node, io) && !refused && open && !IsGateTool(cx.manifest, node) ==>
            var answer := cx.app.handler(node, call, io);
            var breaks := answer.Success? && answer.value.status !in {AwaitingApproval, Failed} &&
              !((forall k :: k in answer.value.outputs.artifacts ==> k in node.outputs) && cx.app.outputContract(node, answer.value.outputs));
            if breaks then reply.Failure? else reply == answer)
  {
    hide FindTool;
  }

  /** A node whose inputs break its contract, or that its policy refuses, fails if it is required and else is degraded,
      without outputs, after all the attempts it is allowed. */
  lemma RefusedNodeEnds(cx: Context, node: DagNode, io: Io)
    requires IsOrdinary(node)
    requires !cx.app.inputContract(node, io)
             || (RunsUnderPolicy(cx.manifest, node) && !IsGateTool(cx.manifest, node) && cx.app.refuses(node, io))
    ensures var ev := EvalHandler(cx, node, io);
      && ev.status == (if node.required then Failed else Degraded) && ev.produced == EMPTY
      && |ev.reports| == if node.retry.Some? && node.retry.value.maxAttempts > 1 then node.retry.value.maxAttempts else 1
  {
    hide ExecuteOnce, CheckedKey, RunsUnderPolicy, IsGateTool, EvalHandler;
    var n := if node.retry.Some? && node.retry.value.maxAttempts > 1 then node.retry.value.maxAttempts else 1;
    forall i: nat | 1 <= i <= n
      ensures WentWrong(ExecuteOnce(cx, node, i, io))
    {
      CallComesThrough(cx, node, i, io);
    }
    CallComesThrough(cx, node, n, io);
    HandlerEndsByLastCall(cx, node, io, n);
  }

  // ---- Contracts ----

  /** The outputs met both contracts and hold declared artifacts only. */
  ghost predicate KeepsContracts(cx: Context, node: DagNode, io: Io, outputs: Io) {
    && cx.app.inputContract(node, io) && cx.app.outputContract(node, outputs)
    && forall k :: k in outputs.artifacts ==> k in node.outputs
  }

  lemma CallKeepsContracts(cx: Context, node: DagNode, call: nat, io: Io)
    requires var reply := ExecuteOnce(cx, node, call, io); Usable(ReplyStatus(node, reply)) && ReplyOutputs(node, reply) != EMPTY
    ensures KeepsContracts(cx, node, io, ReplyOutputs(node, ExecuteOnce(cx, node, call, io)))
  {
    hide RunGenericTool, FindTool, IsTrue;
  }

  /** A usable handler outcome with any output was produced from inputs that meet the node's input contract, meets
      its output contract, and holds no artifact the node does not declare. */
  lemma UsableKeepsContracts(cx: Context, node: DagNode, io: Io)
    requires Usable(EvalHandler(cx, node, io).status) && EvalHandler(cx, node, io).produced != EMPTY
    ensures cx.app.inputContract(node, io) && cx.app.outputContract(node, EvalHandler(cx, node, io).produced)
    ensures forall k :: k in EvalHandler(cx, node, io).produced.artifacts ==> k in node.outputs
  {
    hide Attempts, ExecuteOnce, ReplyOutputs, ReplyStatus, AttemptReports;
    AttemptsAreHistory(cx, node, io, 1);
    var replies := Attempts(cx, node, io, 1);
    assert replies[|replies| - 1] == ExecuteOnce(cx, node, 1 + (|replies| - 1), io);
    CallKeepsContracts(cx, node, 1 + (|replies| - 1), io);
  }

  // ---- Reports of rounds and items ----

  /** A report of the round or item `index`: its id is the node's, the marker and the index, and it names the uri of
      each artifact. */
  ghost predicate TellsChild(node: DagNode, marker: string, index: nat, attempt: nat, status: NodeStatus, outputs: Io, r: Report) {
    && r.nodeId == node.id + marker + NatText(index) && r.kind == node.kind && r.attempt == attempt && r.status == status
    && r.selected == None && r.outputRefs.Keys == outputs.artifacts.Keys
    && forall k :: k in r.outputRefs ==> r.outputRefs[k] == outputs.artifacts[k].uri
  }

  lemma ChildTells(m: DagManifest, node: DagNode, marker: string, index: nat, attempt: nat, status: NodeStatus, outputs: Io)
    ensures TellsChild(node, marker, index, attempt, status, outputs, ChildReport(m, node, marker, index, attempt, status, outputs))
  {
    hide NatText;
  }

  /** The node's own report closes a loop or map: it has the final status and, if that is usable, names the artifacts
      of all rounds or items; their outputs are merged into the run whatever the status. */
  lemma AggregateTells(cx: Context, node: DagNode, end: RoundsEnd)
    ensures var ev := Aggregate(cx, node, end);
      && ev.status == end.status && ev.produced == end.combined && ev.spends && ev.selected == None
      && |ev.reports| == |end.reports| + 1 && ev.reports[..|end.reports|] == end.reports
      && var own := ev.reports[|end.reports|];
         && own.nodeId == node.id && own.kind == node.kind && own.status == end.status && own.attempt == 1
         && own.outputRefs.Keys == (if end.status in {Ok, Degraded} then end.combined.artifacts.Keys else {})
         && forall k :: k in own.outputRefs ==> own.outputRefs[k] == end.combined.artifacts[k].uri
  {
    hide TraceOf, ExecutorLabel;
  }

  /** What a round is told beside its view: its number, the limit and the loop's id. */
  lemma RoundIsTold(node: DagNode, policy: LoopPolicy, round: nat, view: Io)
    ensures var inputs := RoundInputs(node, policy, round, view);
      && inputs.artifacts == view.artifacts
      && inputs.values.Keys == view.values.Keys + {"loop_round", "loop_max_rounds", "loop_node_id"}
      && inputs.values["loop_round"] == Num(round) && inputs.values["loop_max_rounds"] == Num(policy.maxRounds)
      && inputs.values["loop_node_id"] == Str(node.id)
      && forall k :: k in view.values && k !in {"loop_round", "loop_max_rounds", "loop_node_id"} ==> inputs.values[k] == view.values[k]
  {
    assert |"loop_round"| == 10 && |"loop_max_rounds"| == 15 && |"loop_node_id"| == 12;
  }

  /** What an item is told beside its view: the item and its index under the policy's keys, and the runtime's own keys,
      which win where they coincide; the index wins over the item. */
  lemma ItemIsTold(node: DagNode, policy: MapPolicy, item: Json, index: nat, view: Io)
    ensures var inputs, own := ItemInputs(node, policy, item, index, view), {"map_index", "map_max_items", "map_node_id"};
      && inputs.artifacts == view.artifacts
      && inputs.values.Keys == view.values.Keys + {policy.itemKey, policy.indexKey} + own
      && inputs.values["map_index"] == Num(index) && inputs.values["map_max_items"] == Num(policy.maxItems)
      && inputs.values["map_node_id"] == Str(node.id)
      && (policy.indexKey !in own ==> inputs.values[policy.indexKey] == Num(index))
      && (policy.itemKey !in own + {policy.indexKey} ==> inputs.values[policy.itemKey] == item)
      && forall k :: k in view.values && k !in own + {policy.itemKey, policy.indexKey} ==> inputs.values[k] == view.values[k]
  {
    assert |"map_index"| == 9 && |"map_max_items"| == 13 && |"map_node_id"| == 11;
  }

  /** Loops and maps that make no call: without a policy they fail; a loop without rounds is ok; a map without a list
      within its bound fails if it is required and else is degraded; an empty list is ok. */
  lemma NothingToDo(cx: Context, node: DagNode, io: Io)
    ensures node.loopPolicy.None? ==> EvalLoop(cx, node, io).status == Failed && EvalLoop(cx, node, io).produced == EMPTY
    ensures node.loopPolicy.Some? && node.loopPolicy.value.maxRounds == 0 ==>
      EvalLoop(cx, node, io).status == Ok && EvalLoop(cx, node, io).produced == EMPTY
    ensures node.mapPolicy.None? ==> EvalMap(cx, node, io).status == Failed && EvalMap(cx, node, io).produced == EMPTY
    ensures node.mapPolicy.Some? ==>
      var key := node.mapPolicy.value.itemsKey;
      && (!(key in io.values && io.values[key].Arr? && |io.values[key].items| <= node.mapPolicy.value.maxItems) ==>
            EvalMap(cx, node, io).status == (if node.required then Failed else Degraded) && EvalMap(cx, node, io).produced == EMPTY)
      && (key in io.values && io.values[key] == Arr([]) ==>
            EvalMap(cx, node, io).status == Ok && EvalMap(cx, node, io).produced == EMPTY)
  {
    hide TraceOf, ExecutorLabel, LoopRounds;
  }

  // ---- Loop rounds ----

  /** What round `k` sees: the loop's inputs overlaid with the outputs of earlier rounds. */
  function RoundView(cx: Context, node: DagNode, policy: LoopPolicy, io: Io, k: nat): Io
    decreases k, 0
  {
    if k <= 1 then io else Merge(RoundView(cx, node, policy, io, k - 1), RoundOutputs(cx, node, policy, io, k - 1))
  }

  function RoundReply(cx: Context, node: DagNode, policy: LoopPolicy, io: Io, k: nat): Reply
    decreases k, 1
  {
    ExecuteOnce(cx, node, k, RoundInputs(node, policy, k, RoundView(cx, node, policy, io, k)))
  }

  function RoundOutputs(cx: Context, node: DagNode, policy: LoopPolicy, io: Io, k: nat): Io
    decreases k, 2
  {
    ReplyOutputs(node, RoundReply(cx, node, policy, io, k))
  }

  function RoundStatus(cx: Context, node: DagNode, policy: LoopPolicy, io: Io, k: nat): NodeStatus {
    ReplyStatus(node, RoundReply(cx, node, policy, io, k))
  }

  /** The round ended the loop by itself. */
  predicate RoundStops(cx: Context, node: DagNode, policy: LoopPolicy, io: Io, k: nat) {
    RoundReply(cx, node, policy, io, k).Failure? || RoundStatus(cx, node, policy, io, k) in {AwaitingApproval, Failed}
  }

  predicate RoundContinues(cx: Context, node: DagNode, policy: LoopPolicy, io: Io, k: nat) {
    && !RoundStops(cx, node, policy, io, k)
    && policy.continueKey in RoundOutputs(cx, node, policy, io, k).values
    && RoundOutputs(cx, node, policy, io, k).values[policy.continueKey] == Bool(true)
  }

  /** The outputs of the first `k` rounds, later ones over earlier ones. */
  function RoundsCombined(cx: Context, node: DagNode, policy: LoopPolicy, io: Io, k: nat): Io {
    if k == 0 then EMPTY else Merge(RoundsCombined(cx, node, policy, io, k - 1), RoundOutputs(cx, node, policy, io, k))
  }

  ghost predicate SomeRoundDegraded(cx: Context, node: DagNode, policy: LoopPolicy, io: Io, k: nat) {
    exists j: nat :: 1 <= j <= k && RoundStatus(cx, node, policy, io, j) == Degraded
  }

  /** The loop ran rounds 1 to `n`: each earlier round asked to continue, and round `n` stopped, finished, or was
      the last allowed. */
  ghost predicate IsLoopHistory(cx: Context, node: DagNode, policy: LoopPolicy, io: Io, n: nat, end: RoundsEnd) {
    && 1 <= n <= policy.maxRounds
    && (forall k: nat :: 1 <= k < n ==> RoundContinues(cx, node, policy, io, k))
    && (n == policy.maxRounds || !RoundContinues(cx, node, policy, io, n))
    && end.combined == RoundsCombined(cx, node, policy, io, n)
    && |end.reports| == n
    && (forall k: nat :: 1 <= k <= n ==>
          TellsChild(node, "#round-", k, k, RoundStatus(cx, node, policy, io, k), RoundOutputs(cx, node, policy, io, k), end.reports[k - 1]))
    && end.status ==
         if RoundStops(cx, node, policy, io, n) then RoundStatus(cx, node, policy, io, n)
         else if RoundContinues(cx, node, policy, io, n) then FailOrDegrade(node)
         else DegradedOrOk(SomeRoundDegraded(cx, node, policy, io, n))
  }

  /** The loop's running state before round `round`. */
  ghost function LoopAt(cx: Context, node: DagNode, policy: LoopPolicy, io: Io, round: nat, reports: seq<Report>): RoundsEnd
    requires 1 <= round <= policy.maxRounds
  {
    LoopRounds(cx, node, policy, round, RoundView(cx, node, policy, io, round), RoundsCombined(cx, node, policy, io, round - 1),
               reports, SomeRoundDegraded(cx, node, policy, io, round - 1))
  }

  function RoundReport(cx: Context, node: DagNode, policy: LoopPolicy, io: Io, k: nat): Report {
    ChildReport(cx.manifest, node, "#round-", k, k, RoundStatus(cx, node, policy, io, k), RoundOutputs(cx, node, policy, io, k))
  }

  lemma DegradedSoFar(cx: Context, node: DagNode, policy: LoopPolicy, io: Io, round: nat)
    requires round >= 1
    ensures SomeRoundDegraded(cx, node, policy, io, round) <==>
      SomeRoundDegraded(cx, node, policy, io, round - 1) || RoundStatus(cx, node, policy, io, round) == Degraded
  {
    hide RoundStatus;
  }

  lemma LoopUnfolds(cx: Context, node: DagNode, policy: LoopPolicy, round: nat, visible: Io, combined: Io, reports: seq<Report>, saw: bool)
    requires 1 <= round <= policy.maxRounds
    ensures var reply := ExecuteOnce(cx, node, round, RoundInputs(node, policy, round, visible));
      var status, outputs := ReplyStatus(node, reply), ReplyOutputs(node, reply);
      var stops := reply.Failure? || status in {AwaitingApproval, Failed};
      var more := reports + [ChildReport(cx.manifest, node, "#round-", round, round, status, outputs)];
      LoopRounds(cx, node, policy, round, visible, combined, reports, saw) ==
        if !stops && IsTrue(outputs, policy.continueKey) && round < policy.maxRounds then
          LoopRounds(cx, node, policy, round + 1, Merge(visible, outputs), Merge(combined, outputs), more, saw || status == Degraded)
        else
          RoundsEnd(if stops then status else if IsTrue(outputs, policy.continueKey) then FailOrDegrade(node)
                    else DegradedOrOk(saw || status == Degraded), Merge(combined, outputs), more)
  {
    hide ExecuteOnce, RoundInputs, Merge, ReplyStatus, ReplyOutputs, IsTrue, ChildReport, FailOrDegrade, DegradedOrOk;
  }

  /** One round of the loop, by what it asks for. */
  lemma LoopTurn(cx: Context, node: DagNode, policy: LoopPolicy, io: Io, round: nat, reports: seq<Report>)
    requires 1 <= round <= policy.maxRounds
    ensures var more := reports + [RoundReport(cx, node, policy, io, round)];
      if RoundContinues(cx, node, policy, io, round) && round < policy.maxRounds then
        LoopAt(cx, node, policy, io, round, reports) == LoopAt(cx, node, policy, io, round + 1, more)
      else
        LoopAt(cx, node, policy, io, round, reports) == RoundsEnd(
          if RoundStops(cx, node, policy, io, round) then RoundStatus(cx, node, policy, io, round)
          else if RoundContinues(cx, node, policy, io, round) then FailOrDegrade(node)
          else DegradedOrOk(SomeRoundDegraded(cx, node, policy, io, round)),
          RoundsCombined(cx, node, policy, io, round), more)
  {
    hide ExecuteOnce, RoundInputs, Merge, ReplyStatus, ReplyOutputs, ChildReport, FailOrDegrade, DegradedOrOk, SomeRoundDegraded,
      LoopRounds;
    DegradedSoFar(cx, node, policy, io, round);
    LoopUnfolds(cx, node, policy, round, RoundView(cx, node, policy, io, round), RoundsCombined(cx, node, policy, io, round - 1),
                reports, SomeRoundDegraded(cx, node, policy, io, round - 1));
    assert RoundView(cx, node, policy, io, round + 1) == Merge(RoundView(cx, node, policy, io, round), RoundOutputs(cx, node, policy, io, round));
  }

  lemma {:induction false} LoopFrom(cx: Context, node: DagNode, policy: LoopPolicy, io: Io, round: nat, reports: seq<Report>) returns (n: nat)
    requires 1 <= round <= policy.maxRounds && |reports| == round - 1
    requires forall k: nat :: 1 <= k < round ==> RoundContinues(cx, node, policy, io, k)
    requires forall k: nat :: 1 <= k < round ==>
      TellsChild(node, "#round-", k, k, RoundStatus(cx, node, policy, io, k), RoundOutputs(cx, node, policy, io, k), reports[k - 1])
    ensures IsLoopHistory(cx, node, policy, io, n, LoopAt(cx, node, policy, io, round, reports))
    decreases policy.maxRounds - round
  {
    hide LoopAt, RoundContinues, RoundStops, RoundsCombined, SomeRoundDegraded, RoundStatus, RoundOutputs, TellsChild, ChildReport;
    LoopTurn(cx, node, policy, io, round, reports);
    ChildTells(cx.manifest, node, "#round-", round, round, RoundStatus(cx, node, policy, io, round), RoundOutputs(cx, node, policy, io, round));
    if RoundContinues(cx, node, policy, io, round) && round < policy.maxRounds {
      n := LoopFrom(cx, node, policy, io, round + 1, reports + [RoundReport(cx, node, policy, io, round)]);
    } else {
      n := round;
    }
  }

  /** A loop with a policy runs the rounds its outputs ask for, and ends as its last round says. */
  lemma LoopRunsItsRounds(cx: Context, node: DagNode, io: Io) returns (n: nat)
    requires node.loopPolicy.Some? && node.loopPolicy.value.maxRounds >= 1
    ensures exists end :: IsLoopHistory(cx, node, node.loopPolicy.value, io, n, end)
                          && EvalLoop(cx, node, io) == Aggregate(cx, node, end)
  {
    hide LoopRounds, Aggregate, IsLoopHistory;
    var policy := node.loopPolicy.value;
    assert !SomeRoundDegraded(cx, node, policy, io, 0);
    assert EvalLoop(cx, node, io) == Aggregate(cx, node, LoopAt(cx, node, policy, io, 1, []));
    n := LoopFrom(cx, node, policy, io, 1, []);
  }

  // ---- Map items ----

  /** What item `i` sees: the map's inputs overlaid with the outputs of earlier items. */
  function ItemView(cx: Context, node: DagNode, policy: MapPolicy, items: seq<Json>, io: Io, i: nat): Io
    requires i <= |items|
    decreases i, 0
  {
    if i == 0 then io else Merge(ItemView(cx, node, policy, items, io, i - 1), ItemOutputs(cx, node, policy, items, io, i - 1))
  }

  function ItemReply(cx: Context, node: DagNode, policy: MapPolicy, items: seq<Json>, io: Io, i: nat): Reply
    requires i < |items|
    decreases i, 1
  {
    ExecuteOnce(cx, node, i, ItemInputs(node, policy, items[i], i, ItemView(cx, node, policy, items, io, i)))
  }

  function ItemOutputs(cx: Context, node: DagNode, policy: MapPolicy, items: seq<Json>, io: Io, i: nat): Io
    requires i < |items|
    decreases i, 2
  {
    ReplyOutputs(node, ItemReply(cx, node, policy, items, io, i))
  }

  function ItemStatus(cx: Context, node: DagNode, policy: MapPolicy, items: seq<Json>, io: Io, i: nat): NodeStatus
    requires i < |items|
  {
    ReplyStatus(node, ItemReply(cx, node, policy, items, io, i))
  }

  predicate ItemStops(cx: Context, node: DagNode, policy: MapPolicy, items: seq<Json>, io: Io, i: nat)
    requires i < |items|
  {
    ItemReply(cx, node, policy, items, io, i).Failure? || ItemStatus(cx, node, policy, items, io, i) in {AwaitingApproval, Failed}
  }

  function ItemsCombined(cx: Context, node: DagNode, policy: MapPolicy, items: seq<Json>, io: Io, n: nat): Io
    requires n <= |items|
  {
    if n == 0 then EMPTY else Merge(ItemsCombined(cx, node, policy, items, io, n - 1), ItemOutputs(cx, node, policy, items, io, n - 1))
  }

  ghost predicate SomeItemDegraded(cx: Context, node: DagNode, policy: MapPolicy, items: seq<Json>, io: Io, n: nat)
    requires n <= |items|
  {
    exists i: nat :: i < n && ItemStatus(cx, node, policy, items, io, i) == Degraded
  }

  /** The map handled the first `n` items in order: all of them, or up to the first that stopped it. */
  ghost predicate IsMapHistory(cx: Context, node: DagNode, policy: MapPolicy, items: seq<Json>, io: Io, n: nat, end: RoundsEnd) {
    && n <= |items|
    && (forall i: nat :: i + 1 < n ==> !ItemStops(cx, node, policy, items, io, i))
    && (n < |items| ==> n > 0 && ItemStops(cx, node, policy, items, io, n - 1))
    && end.combined == ItemsCombined(cx, node, policy, items, io, n)
    && |end.reports| == n
    && (forall i: nat :: i < n ==>
          TellsChild(node, "#item-", i, 1, ItemStatus(cx, node, policy, items, io, i), ItemOutputs(cx, node, policy, items, io, i), end.reports[i]))
    && end.status ==
         if n > 0 && ItemStops(cx, node, policy, items, io, n - 1) then ItemStatus(cx, node, policy, items, io, n - 1)
         else DegradedOrOk(SomeItemDegraded(cx, node, policy, items, io, n))
  }

  ghost function MapAt(cx: Context, node: DagNode, policy: MapPolicy, items: seq<Json>, io: Io, i: nat, reports: seq<Report>): RoundsEnd
    requires i <= |items|
  {
    MapItems(cx, node, policy, items, i, ItemView(cx, node, policy, items, io, i), ItemsCombined(cx, node, policy, items, io, i),
             reports, SomeItemDegraded(cx, node, policy, items, io, i))
  }

  function ItemReport(cx: Context, node: DagNode, policy: MapPolicy, items: seq<Json>, io: Io, i: nat): Report
    requires i < |items|
  {
    ChildReport(cx.manifest, node, "#item-", i, 1, ItemStatus(cx, node, policy, items, io, i), ItemOutputs(cx, node, policy, items, io, i))
  }

  lemma MapTurn(cx: Context, node: DagNode, policy: MapPolicy, items: seq<Json>, io: Io, i: nat, reports: seq<Report>)
    requires i <= |items|
    ensures if i == |items| then
        MapAt(cx, node, policy, items, io, i, reports) ==
          RoundsEnd(DegradedOrOk(SomeItemDegraded(cx, node, policy, items, io, i)), ItemsCombined(cx, node, policy, items, io, i), reports)
      else
        var more := reports + [ItemReport(cx, node, policy, items, io, i)];
        MapAt(cx, node, policy, items, io, i, reports) ==
          if ItemStops(cx, node, policy, items, io, i) then
            RoundsEnd(ItemStatus(cx, node, policy, items, io, i), ItemsCombined(cx, node, policy, items, io, i + 1), more)
          else MapAt(cx, node, policy, items, io, i + 1, more)
  {
    hide ExecuteOnce, ItemInputs, Merge, ReplyStatus, ReplyOutputs, ChildReport;
    assert i < |items| ==> (SomeItemDegraded(cx, node, policy, items, io, i + 1) <==>
      SomeItemDegraded(cx, node, policy, items, io, i) || ItemStatus(cx, node, policy, items, io, i) == Degraded);
  }

  lemma {:induction false} MapFrom(cx: Context, node: DagNode, policy: MapPolicy, items: seq<Json>, io: Io, i: nat, reports: seq<Report>)
    returns (n: nat)
    requires i <= |items| && |reports| == i
    requires forall k: nat :: k < i ==> !ItemStops(cx, node, policy, items, io, k)
    requires forall k: nat :: k < i ==>
      TellsChild(node, "#item-", k, 1, ItemStatus(cx, node, policy, items, io, k), ItemOutputs(cx, node, policy, items, io, k), reports[k])
    ensures IsMapHistory(cx, node, policy, items, io, n, MapAt(cx, node, policy, items, io, i, reports))
    decreases |items| - i
  {
    hide MapAt, ItemStops, ItemsCombined, SomeItemDegraded, ItemStatus, ItemOutputs, TellsChild, ChildReport;
    MapTurn(cx, node, policy, items, io, i, reports);
    if i < |items| {
      ChildTells(cx.manifest, node, "#item-", i, 1, ItemStatus(cx, node, policy, items, io, i), ItemOutputs(cx, node, policy, items, io, i));
    }
    if i == |items| {
      n := i;
    } else if ItemStops(cx, node, policy, items, io, i) {
      n := i + 1;
    } else {
      n := MapFrom(cx, node, policy, items, io, i + 1, reports + [ItemReport(cx, node, policy, items, io, i)]);
    }
  }

  /** A map over a list within its bound handles the items in order until one stops it. */
  lemma MapHandlesItsItems(cx: Context, node: DagNode, io: Io) returns (n: nat)
    requires node.mapPolicy.Some? && node.mapPolicy.value.itemsKey in io.values && io.values[node.mapPolicy.value.itemsKey].Arr?
    requires |io.values[node.mapPolicy.value.itemsKey].items| <= node.mapPolicy.value.maxItems
    ensures exists end ::
      IsMapHistory(cx, node, node.mapPolicy.value, io.values[node.mapPolicy.value.itemsKey].items, io, n, end)
      && EvalMap(cx, node, io) == Aggregate(cx, node, end)
  {
    hide MapItems, Aggregate, IsMapHistory;
    var policy := node.mapPolicy.value;
    var items := io.values[policy.itemsKey].items;
    assert !SomeItemDegraded(cx, node, policy, items, io, 0);
    assert EvalMap(cx, node, io) == Aggregate(cx, node, MapAt(cx, node, policy, items, io, 0, []));
    n := MapFrom(cx, node, policy, items, io, 0, []);
  }

  // ---- Branches ----

  /** A branch selects exactly the targets of its decision's case, or of a non-empty default; without either it
      fails or degrades and selects nothing. */
  lemma BranchSelects(cx: Context, node: DagNode, io: Io)
    requires node.branch.Some?
    ensures var b, ev := node.branch.value, EvalBranch(cx, node, io);
      var decision := if b.decisionKey in io.values && io.values[b.decisionKey].Str? then io.values[b.decisionKey].s else "";
      var targets := if decision in b.cases then b.cases[decision] else b.otherwise;
      && (ev.selected.Some? <==> decision in b.cases || b.otherwise != [])
      && (ev.selected.Some? ==> ev.status == Ok && forall t :: t in ev.selected.value <==> t in targets)
      && (ev.selected.None? ==> ev.status == FailOrDegrade(node) && ev.produced == EMPTY)
  {
  }

  // ---- Gates ----

  function UsableAt(sources: seq<string>, statuses: map<string, NodeStatus>): set<nat> {
    set i: nat | i < |sources| && sources[i] in statuses && Usable(statuses[sources[i]])
  }

  function Shift(s: set<nat>): set<nat> {
    set i | i in s :: i + 1
  }

  lemma InShift(s: set<nat>, i: nat)
    ensures i in Shift(s) <==> i > 0 && i - 1 in s
  {
  }

  lemma {:induction false} ShiftKeepsSize(s: set<nat>)
    ensures |Shift(s)| == |s|
    decreases |s|
  {
    if s == {} {
      assert Shift(s) == {};
    } else {
      var x :| x in s;
      ShiftKeepsSize(s - {x});
      forall i: nat
        ensures i in Shift(s) <==> i in Shift(s - {x}) + {x + 1}
      {
        InShift(s, i);
        InShift(s - {x}, i);
      }
      InShift(s - {x}, x + 1);
      assert Shift(s) == Shift(s - {x}) + {x + 1};
    }
  }

  lemma {:induction false} UsableSourcesCount(sources: seq<string>, statuses: map<string, NodeStatus>)
    ensures UsableSources(sources, statuses) == |UsableAt(sources, statuses)|
  {
    hide Shift;
    if sources == [] {
      assert UsableAt(sources, statuses) == {};
    } else {
      var rest := UsableAt(sources[1..], statuses);
      var first: set<nat> := if sources[0] in statuses && Usable(statuses[sources[0]]) then {0} else {};
      UsableSourcesCount(sources[1..], statuses);
      ShiftKeepsSize(rest);
      InShift(rest, 0);
      forall i: nat
        ensures i in UsableAt(sources, statuses) <==> i in first + Shift(rest)
      {
        InShift(rest, i);
      }
      assert UsableAt(sources, statuses) == first + Shift(rest);
    }
  }

  /** An ok branch leaves its decision and the selected targets under its own id, and nothing else. */
  lemma BranchValue(cx: Context, node: DagNode, io: Io)
    requires node.branch.Some? && EvalBranch(cx, node, io).status == Ok
    ensures var b := node.branch.value;
      var decision := if b.decisionKey in io.values && io.values[b.decisionKey].Str? then io.values[b.decisionKey].s else "";
      EvalBranch(cx, node, io).produced == Io(map[node.id := Obj([
        Member("decision_key", Str(b.decisionKey)), Member("decision", Str(decision)),
        Member("selected", Strings(SortedTargets(if decision in b.cases then b.cases[decision] else b.otherwise)))])], map[])
  {
    hide SortedTargets, Strings;
  }

  /** An open gate leaves what it asked for and what it found. */
  lemma GateValue(cx: Context, node: DagNode, statuses: map<string, NodeStatus>)
    requires node.gate.Some? && EvalGate(cx, node, statuses).status == Ok
    ensures var gate := node.gate.value;
      EvalGate(cx, node, statuses).produced == Io(map[node.id := Obj([
        Member("min_usable", Num(if gate.minUsable.Some? then gate.minUsable.value else 1)),
        Member("usable", Num(|UsableAt(gate.sources, statuses)|)), Member("sources", Strings(gate.sources))])], map[])
  {
    hide Strings, UsableAt, UsableSources;
    UsableSourcesCount(node.gate.value.sources, statuses);
  }

  /** An approved approval node, and an approval gate tool on either answer. */
  lemma ApprovalValues(cx: Context, node: DagNode, tool: DagTool, call: nat, io: Io)
    ensures node.approval.Some? && EvalApproval(cx, node, io).status == Ok ==>
      EvalApproval(cx, node, io).produced == Io(map[node.id := Obj([
        Member("approved_key", Str(node.approval.value.approvedKey)), Member("approved", Bool(true))])], map[])
    ensures tool.executor == ApprovalGate ==>
      var key := "approval/" + tool.id;
      RunGenericTool(cx, node, tool, call, io) ==
        if key in io.values && io.values[key] == Bool(true) then
          Success(NodeResult(Ok, Io(map[node.id := Obj([
            Member("approved_key", Str(key)), Member("approved", Bool(true)), Member("tool", Str(tool.id))])], map[])))
        else Success(NodeResult(AwaitingApproval, EMPTY))
  {
  }

  /** The selected targets are told in key order, each once. */
  lemma {:induction false} TargetsSorted(targets: seq<string>)
    ensures forall i, j :: 0 <= i < j < |SortedTargets(targets)| ==> CanonicalJson.Before(SortedTargets(targets)[i], SortedTargets(targets)[j])
    ensures forall t :: t in SortedTargets(targets) <==> t in targets
  {
    if targets != [] {
      TargetsSorted(targets[1..]);
      InsertTargetSorts(targets[0], SortedTargets(targets[1..]));
    }
  }

  lemma {:induction false} InsertTargetSorts(x: string, sorted: seq<string>)
    requires forall i, j :: 0 <= i < j < |sorted| ==> CanonicalJson.Before(sorted[i], sorted[j])
    ensures forall i, j :: 0 <= i < j < |InsertTarget(x, sorted)| ==> CanonicalJson.Before(InsertTarget(x, sorted)[i], InsertTarget(x, sorted)[j])
  {
    if sorted == [] || x == sorted[0] {
    } else if CanonicalJson.Before(x, sorted[0]) {
      forall j | 0 < j < |sorted|
        ensures CanonicalJson.Before(x, sorted[j])
      {
        CanonicalJson.BeforeTransitive(x, sorted[0], sorted[j]);
      }
    } else {
      CanonicalJson.BeforeTotal(x, sorted[0]);
      InsertTargetSorts(x, sorted[1..]);
      var rest := InsertTarget(x, sorted[1..]);
      forall j | 0 <= j < |rest|
        ensures CanonicalJson.Before(sorted[0], rest[j])
      {
        if rest[j] != x {
          assert rest[j] in sorted[1..];
        }
      }
    }
  }

  /** A gate opens exactly when enough of its sources ended usable; closed, it fails or degrades. */
  lemma GateOpens(cx: Context, node: DagNode, statuses: map<string, NodeStatus>)
    requires node.gate.Some?
    ensures var gate := node.gate.value;
      var needed := if gate.minUsable.Some? then gate.minUsable.value else 1;
      var open := |UsableAt(gate.sources, statuses)| >= needed;
      EvalGate(cx, node, statuses).status == if open then Ok else FailOrDegrade(node)
  {
    UsableSourcesCount(node.gate.value.sources, statuses);
  }
}
