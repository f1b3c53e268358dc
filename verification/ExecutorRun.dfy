/** The executor's loops, each proved to compute its specification function. */
module ExecutorRun {
  import opened Results
  import opened Manifest
  import opened Json
  import opened Layers
  import opened Validation
  import opened DagIo
  import opened Artifacts
  import opened NodeRules
  import NodeFacts
  import opened Executor
  import opened Checkpoints
  import opened Locality

  // ---- One node ----

  method ExecuteAttempts(cx: Context, node: DagNode, inputs: Io) returns (replies: seq<Reply>)
    ensures replies == Attempts(cx, node, inputs, 1)
    ensures NodeFacts.IsAttemptHistory(cx, node, inputs, 1, replies)
  {
    hide ExecuteOnce, ShouldRetry, NodeFacts.IsAttemptHistory;
    NodeFacts.AttemptsAreHistory(cx, node, inputs, 1);
    replies := [];
    var attempt := 1;
    while attempt <= MaxAttempts(node)
      invariant 1 <= attempt <= MaxAttempts(node)
      invariant Attempts(cx, node, inputs, 1) == replies + Attempts(cx, node, inputs, attempt)
      decreases MaxAttempts(node) - attempt
    {
      var reply := ExecuteOnce(cx, node, attempt, inputs);
      var retry := attempt < MaxAttempts(node) && ShouldRetry(node, reply);
      ghost var before := replies;
      replies := replies + [reply];
      if !retry {
        return;
      }
      assert before + Attempts(cx, node, inputs, attempt) == replies + Attempts(cx, node, inputs, attempt + 1);
      attempt := attempt + 1;
    }
  }

  method ExecuteLoopNode(cx: Context, node: DagNode, inputs: Io) returns (ev: NodeEval)
    ensures ev == EvalLoop(cx, node, inputs)
  {
    hide ExecuteOnce, Aggregate, RoundInputs, ChildReport, ReplyStatus, ReplyOutputs, Merge;
    if node.loopPolicy.None? {
      return Aggregate(cx, node, RoundsEnd(Failed, EMPTY, []));
    }
    var policy := node.loopPolicy.value;
    var visible, combined := inputs, EMPTY;
    var reports: seq<Report> := [];
    var sawDegraded := false;
    var round := 1;
    while round <= policy.maxRounds
      invariant 1 <= round
      invariant round <= policy.maxRounds || (policy.maxRounds == 0 && reports == [] && combined == EMPTY && !sawDegraded)
      invariant round <= policy.maxRounds ==>
        LoopRounds(cx, node, policy, 1, inputs, EMPTY, [], false)
        == LoopRounds(cx, node, policy, round, visible, combined, reports, sawDegraded)
      decreases policy.maxRounds - round
    {
      var reply := ExecuteOnce(cx, node, round, RoundInputs(node, policy, round, visible));
      var status, outputs := ReplyStatus(node, reply), ReplyOutputs(node, reply);
      reports := reports + [ChildReport(cx.manifest, node, "#round-", round, round, status, outputs)];
      combined := Merge(combined, outputs);
      sawDegraded := sawDegraded || status == Degraded;
      if reply.Failure? || status == AwaitingApproval || status == Failed {
        return Aggregate(cx, node, RoundsEnd(status, combined, reports));
      }
      if !IsTrue(outputs, policy.continueKey) {
        return Aggregate(cx, node, RoundsEnd(DegradedOrOk(sawDegraded), combined, reports));
      }
      if round == policy.maxRounds {
        return Aggregate(cx, node, RoundsEnd(FailOrDegrade(node), combined, reports));
      }
      visible := Merge(visible, outputs);
      round := round + 1;
    }
    ev := Aggregate(cx, node, RoundsEnd(DegradedOrOk(sawDegraded), combined, reports));
  }

  method ExecuteMapNode(cx: Context, node: DagNode, inputs: Io) returns (ev: NodeEval)
    ensures ev == EvalMap(cx, node, inputs)
  {
    hide ExecuteOnce, Aggregate, ItemInputs, ChildReport, ReplyStatus, ReplyOutputs, Merge;
    if node.mapPolicy.None? {
      return Aggregate(cx, node, RoundsEnd(Failed, EMPTY, []));
    }
    var policy := node.mapPolicy.value;
    if !(policy.itemsKey in inputs.values && inputs.values[policy.itemsKey].Arr?) {
      return Aggregate(cx, node, RoundsEnd(FailOrDegrade(node), EMPTY, []));
    }
    var items := inputs.values[policy.itemsKey].items;
    if |items| > policy.maxItems {
      return Aggregate(cx, node, RoundsEnd(FailOrDegrade(node), EMPTY, []));
    }
    var visible, combined := inputs, EMPTY;
    var reports: seq<Report> := [];
    var sawDegraded := false;
    for index := 0 to |items|
      invariant MapItems(cx, node, policy, items, 0, inputs, EMPTY, [], false)
                == MapItems(cx, node, policy, items, index, visible, combined, reports, sawDegraded)
    {
      var reply := ExecuteOnce(cx, node, index, ItemInputs(node, policy, items[index], index, visible));
      var status, outputs := ReplyStatus(node, reply), ReplyOutputs(node, reply);
      reports := reports + [ChildReport(cx.manifest, node, "#item-", index, 1, status, outputs)];
      combined := Merge(combined, outputs);
      sawDegraded := sawDegraded || status == Degraded;
      if reply.Failure? || status == AwaitingApproval || status == Failed {
        return Aggregate(cx, node, RoundsEnd(status, combined, reports));
      }
      visible := Merge(visible, outputs);
    }
    ev := Aggregate(cx, node, RoundsEnd(DegradedOrOk(sawDegraded), combined, reports));
  }

  method EvaluateNode(cx: Context, node: DagNode, outputs: Io, statuses: map<string, NodeStatus>) returns (ev: NodeEval)
    ensures ev == EvalNode(cx, node, outputs, statuses)
  {
    match node.kind
    case Branch => ev := EvalBranch(cx, node, outputs);
    case Gate => ev := EvalGate(cx, node, statuses);
    case Approval => ev := EvalApproval(cx, node, outputs);
    case Loop => ev := ExecuteLoopNode(cx, node, outputs);
    case Map => ev := ExecuteMapNode(cx, node, outputs);
    case _ => ev := EvaluateHandler(cx, node, outputs);
  }

  method EvaluateHandler(cx: Context, node: DagNode, inputs: Io) returns (ev: NodeEval)
    ensures ev == EvalHandler(cx, node, inputs)
  {
    var replies := ExecuteAttempts(cx, node, inputs);
    var last := replies[|replies| - 1];
    ev := NodeEval(ReplyStatus(node, last), ReplyOutputs(node, last), Usable(ReplyStatus(node, last)), None,
                   AttemptReports(cx.manifest, node, replies, 1));
  }

  // ---- Layers ----

  method ReplayCompleted(cx: Context, layer: seq<string>, ck: Checkpoint, start: RunState) returns (st: RunState)
    requires Knows(cx, layer)
    ensures st == ReplayLayer(cx, layer, 0, ck, start)
  {
    hide ReplayNode;
    st := start;
    for j := 0 to |layer|
      invariant ReplayLayer(cx, layer, 0, ck, start) == ReplayLayer(cx, layer, j, ck, st)
    {
      if layer[j] in ck.nodeReports {
        st := ReplayNode(cx, layer[j], ck, st);
      }
    }
  }

  method CollectRemaining(layer: seq<string>, ck: Checkpoint) returns (remaining: seq<string>)
    ensures remaining == Unreplayed(layer, 0, ck)
  {
    hide Unreplayed;
    remaining := [];
    for j := 0 to |layer|
      invariant Unreplayed(layer, 0, ck) == remaining + Unreplayed(layer, j, ck)
    {
      UnreplayedStep(remaining, layer, j, ck);
      if layer[j] !in ck.nodeReports {
        remaining := remaining + [layer[j]];
      }
    }
    UnreplayedEnd(layer, ck);
  }

  lemma UnreplayedStep(before: seq<string>, layer: seq<string>, j: nat, ck: Checkpoint)
    requires j < |layer|
    ensures before + Unreplayed(layer, j, ck)
            == (if layer[j] in ck.nodeReports then before else before + [layer[j]]) + Unreplayed(layer, j + 1, ck)
  {
  }

  lemma UnreplayedEnd(layer: seq<string>, ck: Checkpoint)
    ensures Unreplayed(layer, |layer|, ck) == []
  {
  }

  method RunLayerConcurrently(cx: Context, ids: seq<string>, start: RunState) returns (p: Progress)
    requires Knows(cx, ids)
    ensures p == RunConcurrent(cx, ids, start)
  {
    hide Record, EvalHandler;
    var snapshot := start.outputs;
    var st := start;
    for j := 0 to |ids|
      invariant RecordAll(cx, ids, 0, snapshot, start) == RecordAll(cx, ids, j, snapshot, st)
    {
      var ev := EvaluateHandler(cx, cx.nodes[ids[j]], snapshot);
      st := Record(cx, ids[j], ev, st);
    }
    var awaiting := SomeStatus(ids, st.statuses, AwaitingApproval);
    var failed := SomeStatus(ids, st.statuses, Failed);
    p := if awaiting && !failed then Halted(st, Pause) else Going(st);
  }

  method RunLayerSequentially(cx: Context, layer: seq<string>, i: nat, start: RunState, cancel: CancelSignal) returns (p: Progress)
    requires Knows(cx, layer)
    ensures p == RunSequential(cx, layer, i, 0, start, cancel)
  {
    hide EvalNode, Record, Skip, Skips;
    var st := start;
    for j := 0 to |layer|
      invariant RunSequential(cx, layer, i, 0, start, cancel) == RunSequential(cx, layer, i, j, st, cancel)
    {
      if cancel(i, j + 1) {
        return Halted(st, Cancel);
      }
      var id := layer[j];
      ghost var before := st;
      if Skips(cx, id, st) {
        st := Skip(cx, id, st);
      } else {
        var ev := EvaluateNode(cx, cx.nodes[id], st.outputs, st.statuses);
        st := Record(cx, id, ev, st);
      }
      assert st == StepNode(cx, id, before);
      if st.statuses[id] == AwaitingApproval {
        return Halted(st, Pause);
      }
    }
    p := Going(st);
  }

  method RunAllLayers(cx: Context, layers: seq<seq<string>>, start: RunState, ck: Option<Checkpoint>, cancel: CancelSignal) returns (p: Progress)
    requires Layered(cx, layers)
    ensures p == RunLayers(cx, layers, 0, start, ck, cancel)
  {
    hide RunSequential, RunConcurrent, ReplayLayer, CanRunConcurrently;
    var st := start;
    var i := 0;
    while i < |layers|
      invariant i <= |layers|
      invariant RunLayers(cx, layers, 0, start, ck, cancel) == RunLayers(cx, layers, i, st, ck, cancel)
    {
      if cancel(i, 0) {
        return Halted(st, Cancel);
      }
      var layer := layers[i];
      var ids := layer;
      ghost var before := st;
      if ck.Some? {
        st := ReplayCompleted(cx, layer, ck.value, st);
        ids := CollectRemaining(layer, ck.value);
        if ids == [] {
          i := i + 1;
          continue;
        }
      }
      if CanRunConcurrently(cx, ids, st) {
        p := RunLayerConcurrently(cx, ids, st);
      } else {
        p := RunLayerSequentially(cx, layer, i, st, cancel);
      }
      assert p == RunLayer(cx, layer, i, before, ck, cancel);
      if p.Halted? {
        return;
      }
      st := p.st;
      i := i + 1;
    }
    p := Going(st);
  }

  // ---- Reports and checkpoints ----

  method ComputeOverallStatus(reports: seq<Report>) returns (status: NodeStatus)
    ensures status == OverallStatus(reports)
  {
    var final: map<string, NodeStatus> := map[];
    for i := 0 to |reports|
      invariant final == FinalStatuses(reports[..i])
    {
      assert reports[..i + 1][..i] == reports[..i];
      final := final[reports[i].nodeId := reports[i].status];
    }
    assert reports[..|reports|] == reports;
    status := WorstOf(final.Values);
  }

  /** Keep, scanning from the end, the last replayable report of every known node, and reject a bad one. */
  method CollectReplayable(nodes: map<string, DagNode>, reports: seq<Report>) returns (kept: Option<map<string, Report>>)
    ensures kept.Some? ==> kept.value == KeptReports(nodes, reports)
    ensures kept.None? <==> exists id :: id in KeptReports(nodes, reports) && !ValidNodeReport(nodes[id], KeptReports(nodes, reports)[id])
  {
    hide ValidNodeReport, KeptReports;
    var found: map<string, Report> := map[];
    var i: nat := |reports|;
    NothingKept(nodes, reports);
    while i > 0
      invariant i <= |reports|
      invariant found == KeptReports(nodes, reports[i..])
      invariant forall id :: id in found ==> id in nodes && ValidNodeReport(nodes[id], found[id])
    {
      i := i - 1;
      var r := reports[i];
      KeptStep(nodes, reports, i);
      if r.nodeId !in found && r.nodeId in nodes && Usable(r.status) {
        if !ValidNodeReport(nodes[r.nodeId], r) {
          KeptPersists(nodes, reports, i, r.nodeId);
          return None;
        }
        found := found[r.nodeId := r];
      }
    }
    assert reports[0..] == reports;
    KeptKnown(nodes, reports);
    kept := Some(found);
  }

  lemma NothingKept(nodes: map<string, DagNode>, reports: seq<Report>)
    ensures KeptReports(nodes, reports[|reports|..]) == map[]
  {
    assert reports[|reports|..] == [];
  }

  lemma KeptKnown(nodes: map<string, DagNode>, reports: seq<Report>)
    ensures forall id :: id in KeptReports(nodes, reports) ==> id in nodes
  {
  }

  lemma KeptStep(nodes: map<string, DagNode>, reports: seq<Report>, i: nat)
    requires i < |reports|
    ensures var r, later := reports[i], KeptReports(nodes, reports[i + 1..]);
      KeptReports(nodes, reports[i..]) ==
        if r.nodeId !in later && r.nodeId in nodes && Usable(r.status) then later[r.nodeId := r] else later
  {
    hide LastReplayable;
    forall id
      ensures LastReplayable(reports[i..], id) ==
        if LastReplayable(reports[i + 1..], id).Some? then LastReplayable(reports[i + 1..], id)
        else if reports[i].nodeId == id && Usable(reports[i].status) then Some(reports[i]) else None
    {
      LastReplayableStep(reports, i, id);
    }
  }

  lemma LastReplayableStep(reports: seq<Report>, i: nat, id: string)
    requires i < |reports|
    ensures LastReplayable(reports[i..], id) ==
      if LastReplayable(reports[i + 1..], id).Some? then LastReplayable(reports[i + 1..], id)
      else if reports[i].nodeId == id && Usable(reports[i].status) then Some(reports[i]) else None
  {
    assert reports[i..][1..] == reports[i + 1..] && reports[i..][0] == reports[i];
  }

  /** A report kept while scanning from the end stays kept. */
  lemma {:induction false} KeptPersists(nodes: map<string, DagNode>, reports: seq<Report>, i: nat, id: string)
    requires i <= |reports| && id in KeptReports(nodes, reports[i..])
    ensures id in KeptReports(nodes, reports) && KeptReports(nodes, reports)[id] == KeptReports(nodes, reports[i..])[id]
    decreases i
  {
    hide KeptReports;
    if i > 0 {
      KeptStep(nodes, reports, i - 1);
      KeptPersists(nodes, reports, i - 1, id);
    } else {
      assert reports[0..] == reports;
    }
  }

  datatype RunError = Invalid(dagError: DagError) | Refused(checkpointError: CheckpointError)

  /** Validate, prepare the checkpoint if there is one, run every layer and report. */
  method ExecuteWithCheckpoint(app: App, m: DagManifest, input: Io, checkpoint: Option<ExecutionReport>, files: Files,
                               cancel: CancelSignal)
    returns (r: Result<ExecutionReport, RunError>)
    ensures (r.Failure? && r.error.Invalid?) <==> !ValidGraph(m)
    ensures checkpoint.None? ==> (r.Success? <==> ValidGraph(m))
    ensures checkpoint.Some? && ValidGraph(m) ==>
      var report := checkpoint.value;
      var sameDag, sameHash := report.dag == m.id, report.hash == app.hash(m);
      var fits, holds := ReportsFit(m, report.nodes), ArtifactsHold(m, files, report);
      && (r.Success? <==> sameDag && sameHash && fits && holds)
      && (r == Failure(Refused(WrongDag)) <==> !sameDag)
      && (r == Failure(Refused(WrongHash)) <==> sameDag && !sameHash)
      && (r == Failure(Refused(BadNodeReport)) <==> sameDag && sameHash && !fits)
      && (r == Failure(Refused(BadArtifact)) <==> sameDag && sameHash && fits && !holds)
    ensures forall layers :: ValidGraph(m) && IsLayering(m, layers) ==>
      && Layered(MakeContext(app, m), layers)
      && (match Execute(MakeContext(app, m), layers, input, checkpoint, files, cancel)
          case Success(report) => r == Success(report)
          case Failure(e) => r == Failure(Refused(e)))
  {
    hide RunLayers, PrepareCheckpoint, IsLayering, ValidGraph, Indexed, MakeContext, OverallStatus, CancelReports, Explains, ReportsFit, ArtifactsHold;
    var validated := ValidateGraph(m);
    if validated.Failure? {
      return Failure(Invalid(validated.error));
    }
    var layers := validated.value;
    var cx := MakeContext(app, m);
    OnlyLayering(app, m, layers);
    var start := Fresh(input);
    var frozen := input;
    var ck: Option<Checkpoint> := None;
    if checkpoint.Some? {
      CheckpointDecided(app, m, files, checkpoint.value);
      var prepared := PrepareCheckpoint(cx, files, checkpoint.value);
      if prepared.Failure? {
        return Failure(Refused(prepared.error));
      }
      ck := Some(prepared.value);
      frozen := Merge(checkpoint.value.input, input);
      start := Fresh(Merge(Merge(checkpoint.value.input, prepared.value.outputs), input));
    }
    var p := RunAllLayers(cx, layers, start, ck, cancel);
    r := Success(Conclude(cx, frozen, p));
  }

  lemma OnlyLayering(app: App, m: DagManifest, layers: seq<seq<string>>)
    requires ValidGraph(m) && IsLayering(m, layers)
    ensures UniqueNodeIds(m.nodes) && Layered(MakeContext(app, m), layers)
    ensures forall other :: IsLayering(m, other) ==> other == layers
  {
    ManifestIndexed(app, m, layers, {});
    IndexedLayered(World(MakeContext(app, m), layers, Expand(m.edges), {}));
    forall other | IsLayering(m, other)
      ensures other == layers
    {
      LayeringUnique(m, other, layers);
    }
  }
}
