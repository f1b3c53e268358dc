/** What every fresh run, lawful or not, says about its nodes: who is skipped, who is evaluated, and how the
    overall status relates to the nodes' final statuses. */
module RunOutcomes {
  import opened Results
  import opened Manifest
  import opened Graph
  import opened Layers
  import opened Json
  import opened DagIo
  import opened NodeRules
  import NodeFacts
  import opened Executor
  import opened Locality
  import opened RunMoves
  import opened Reference

  // ---- Statuses and reports of one evaluation ----

  function Rank(s: NodeStatus): nat {
    match s
    case Failed => 3
    case AwaitingApproval => 2
    case Degraded => 1
    case _ => 0
  }

  /** A loop round or map item id of node `n`. */
  ghost predicate IsChildId(id: string, n: string) {
    |id| > |n| && id[..|n|] == n && id[|n|] == '#'
  }

  ghost predicate BoundedChild(r: Report, n: string, rank: nat) {
    IsChildId(r.nodeId, n) && Rank(r.status) <= rank && r.status != Skipped
  }

  ghost predicate AllBounded(reports: seq<Report>, n: string, rank: nat) {
    forall r :: r in reports ==> BoundedChild(r, n, rank)
  }

  ghost predicate Evaluated(status: NodeStatus) {
    status in {Ok, Degraded, Failed, AwaitingApproval}
  }

  /** An evaluation ends evaluated; its last report is the node's own, the others are the node's or bounded children. */
  ghost predicate ReportShape(node: DagNode, ev: NodeEval) {
    && Evaluated(ev.status)
    && |ev.reports| > 0
    && ev.reports[|ev.reports| - 1].nodeId == node.id && ev.reports[|ev.reports| - 1].status == ev.status
    && forall r :: r in ev.reports ==> r.nodeId == node.id || BoundedChild(r, node.id, Rank(ev.status))
  }

  ghost predicate RoundsBounded(node: DagNode, end: RoundsEnd) {
    Evaluated(end.status) && AllBounded(end.reports, node.id, Rank(end.status))
  }

  lemma ChildReportBounded(m: DagManifest, node: DagNode, infix: string, index: nat, attempt: nat, status: NodeStatus, outputs: Io)
    requires |infix| > 0 && infix[0] == '#' && status != Skipped
    ensures BoundedChild(ChildReport(m, node, infix, index, attempt, status, outputs), node.id, Rank(status))
  {
  }

  lemma ReplyEvaluated(node: DagNode, reply: Reply)
    ensures Evaluated(ReplyStatus(node, reply))
  {
  }

  /** No round outranks the loop's own status. */
  lemma {:induction false} LoopBounded(cx: Context, node: DagNode, policy: LoopPolicy, round: nat,
                                       visible: Io, combined: Io, reports: seq<Report>, saw: bool)
    requires 1 <= round <= policy.maxRounds
    requires AllBounded(reports, node.id, Rank(DegradedOrOk(saw)))
    ensures RoundsBounded(node, LoopRounds(cx, node, policy, round, visible, combined, reports, saw))
    decreases policy.maxRounds - round
  {
    hide ExecuteOnce, IsChildId, RoundInputs;
    var reply := ExecuteOnce(cx, node, round, RoundInputs(node, policy, round, visible));
    var status, outputs := ReplyStatus(node, reply), ReplyOutputs(node, reply);
    var reports' := reports + [ChildReport(cx.manifest, node, "#round-", round, round, status, outputs)];
    ReplyEvaluated(node, reply);
    ChildReportBounded(cx.manifest, node, "#round-", round, round, status, outputs);
    var saw' := saw || status == Degraded;
    if !(reply.Failure? || status == AwaitingApproval || status == Failed || !IsTrue(outputs, policy.continueKey) || round == policy.maxRounds) {
      LoopBounded(cx, node, policy, round + 1, Merge(visible, outputs), Merge(combined, outputs), reports', saw');
    }
  }

  /** No item outranks the map's own status. */
  lemma {:induction false} MapBounded(cx: Context, node: DagNode, policy: MapPolicy, items: seq<Json>, index: nat,
                                      visible: Io, combined: Io, reports: seq<Report>, saw: bool)
    requires index <= |items|
    requires AllBounded(reports, node.id, Rank(DegradedOrOk(saw)))
    ensures RoundsBounded(node, MapItems(cx, node, policy, items, index, visible, combined, reports, saw))
    decreases |items| - index
  {
    hide ExecuteOnce, IsChildId, ItemInputs;
    if index < |items| {
      var reply := ExecuteOnce(cx, node, index, ItemInputs(node, policy, items[index], index, visible));
      var status, outputs := ReplyStatus(node, reply), ReplyOutputs(node, reply);
      var reports' := reports + [ChildReport(cx.manifest, node, "#item-", index, 1, status, outputs)];
      ReplyEvaluated(node, reply);
      ChildReportBounded(cx.manifest, node, "#item-", index, 1, status, outputs);
      if !(reply.Failure? || status == AwaitingApproval || status == Failed) {
        MapBounded(cx, node, policy, items, index + 1, Merge(visible, outputs), Merge(combined, outputs), reports', saw || status == Degraded);
      }
    }
  }

  lemma AggregateShape(cx: Context, node: DagNode, end: RoundsEnd)
    requires RoundsBounded(node, end)
    ensures ReportShape(node, Aggregate(cx, node, end))
  {
    hide BoundedChild;
  }

  lemma LoopShape(cx: Context, node: DagNode, inputs: Io)
    ensures ReportShape(node, EvalLoop(cx, node, inputs))
  {
    hide LoopRounds, Aggregate, ReportShape, BoundedChild;
    if node.loopPolicy.None? {
      AggregateShape(cx, node, RoundsEnd(Failed, EMPTY, []));
    } else if node.loopPolicy.value.maxRounds == 0 {
      AggregateShape(cx, node, RoundsEnd(Ok, EMPTY, []));
    } else {
      LoopBounded(cx, node, node.loopPolicy.value, 1, inputs, EMPTY, [], false);
      AggregateShape(cx, node, LoopRounds(cx, node, node.loopPolicy.value, 1, inputs, EMPTY, [], false));
    }
  }

  lemma MapShape(cx: Context, node: DagNode, inputs: Io)
    ensures ReportShape(node, EvalMap(cx, node, inputs))
  {
    hide MapItems, Aggregate, ReportShape, BoundedChild;
    AggregateShape(cx, node, RoundsEnd(Failed, EMPTY, []));
    AggregateShape(cx, node, RoundsEnd(FailOrDegrade(node), EMPTY, []));
    if node.mapPolicy.Some? && node.mapPolicy.value.itemsKey in inputs.values && inputs.values[node.mapPolicy.value.itemsKey].Arr? {
      var items := inputs.values[node.mapPolicy.value.itemsKey].items;
      MapBounded(cx, node, node.mapPolicy.value, items, 0, inputs, EMPTY, [], false);
      AggregateShape(cx, node, MapItems(cx, node, node.mapPolicy.value, items, 0, inputs, EMPTY, [], false));
    }
  }

  lemma HandlerShape(cx: Context, node: DagNode, inputs: Io)
    ensures ReportShape(node, EvalHandler(cx, node, inputs))
  {
    hide Attempts, BoundedChild;
    var replies := Attempts(cx, node, inputs, 1);
    ReplyEvaluated(node, replies[|replies| - 1]);
  }

  lemma ReplyShape(cx: Context, node: DagNode, reply: Reply, selected: Option<set<string>>)
    ensures ReportShape(node, EvalReply(cx, node, reply, selected))
  {
    hide BoundedChild;
    ReplyEvaluated(node, reply);
  }

  lemma ShapeOf(cx: Context, node: DagNode, inputs: Io, statuses: map<string, NodeStatus>)
    ensures ReportShape(node, EvalNode(cx, node, inputs, statuses))
  {
    hide ReportShape, EvalReply, EvalHandler, EvalLoop, EvalMap;
    forall reply: Reply, selected
      ensures ReportShape(node, EvalReply(cx, node, reply, selected))
    {
      ReplyShape(cx, node, reply, selected);
    }
    HandlerShape(cx, node, inputs);
    LoopShape(cx, node, inputs);
    MapShape(cx, node, inputs);
  }

  // ---- Selections ----

  function Targets(ids: seq<string>): set<string> {
    set t | t in ids
  }

  /** The targets of one declared case, or of the non-empty default. */
  ghost predicate OneCase(b: BranchPolicy, targets: set<string>) {
    || (exists d :: d in b.cases && targets == Targets(b.cases[d]))
    || (b.otherwise != [] && targets == Targets(b.otherwise))
  }

  /** Only a branch selects, it selects one case, and it does so whenever it ends ok. */
  ghost predicate SelectsCase(node: DagNode, ev: NodeEval) {
    && (ev.selected.Some? ==> node.kind == Branch && node.branch.Some? && OneCase(node.branch.value, ev.selected.value))
    && (node.kind == Branch && ev.status == Ok ==> ev.selected.Some?)
  }

  lemma BranchSelectsCase(cx: Context, node: DagNode, inputs: Io)
    requires node.kind == Branch
    ensures SelectsCase(node, EvalBranch(cx, node, inputs))
  {
    if node.branch.Some? {
      var b, ev := node.branch.value, EvalBranch(cx, node, inputs);
      NodeFacts.BranchSelects(cx, node, inputs);
      if ev.selected.Some? {
        var decision := Text(inputs, b.decisionKey);
        assert ev.selected.value == Targets(if decision in b.cases then b.cases[decision] else b.otherwise);
      }
    }
  }

  lemma CaseOf(cx: Context, node: DagNode, inputs: Io, statuses: map<string, NodeStatus>)
    ensures SelectsCase(node, EvalNode(cx, node, inputs, statuses))
    ensures IsOrdinary(node) ==> SelectsCase(node, EvalHandler(cx, node, inputs))
  {
    hide Attempts, LoopRounds, MapItems, OneCase, EvalBranch, UsableSources;
    if node.kind == Branch {
      BranchSelectsCase(cx, node, inputs);
    }
  }

  // ---- The invariant of a fresh run ----

  /** Every report id is a handled node with its final status, or a child that does not outrank its node. */
  ghost predicate ReportsTold(w: World, st: RunState) {
    && (forall n :: n in st.statuses ==> n in FinalStatuses(st.reports) && FinalStatuses(st.reports)[n] == st.statuses[n])
    && (forall id :: id in FinalStatuses(st.reports) && id !in st.statuses ==>
          FinalStatuses(st.reports)[id] != Skipped &&
          exists n :: n in st.statuses && IsChildId(id, n) && Rank(FinalStatuses(st.reports)[id]) <= Rank(st.statuses[n]))
  }

  /** A handled node is skipped exactly when a branch deselects it or a predecessor blocks it. */
  ghost predicate StatusRule(w: World, n: string, st: RunState)
    requires n in w.cx.deps && n in st.statuses
  {
    && (st.statuses[n] == Skipped <==> Skips(w.cx, n, st))
    && (st.statuses[n] != Skipped ==> Evaluated(st.statuses[n]))
  }

  /** A node with a selection is a branch that selected one case, and a branch that ended ok has one. */
  ghost predicate BranchRule(w: World, n: string, st: RunState)
    requires n in w.cx.nodes && n in st.statuses
  {
    var node := w.cx.nodes[n];
    && (n in st.selections ==> node.kind == Branch && node.branch.Some? && OneCase(node.branch.value, st.selections[n]))
    && (node.kind == Branch && st.statuses[n] == Ok ==> n in st.selections)
  }

  ghost predicate Sound(w: World, st: RunState) {
    && w.cx.nodes.Keys == w.cx.deps.Keys
    && st.statuses.Keys <= w.cx.nodes.Keys && st.selections.Keys <= st.statuses.Keys
    && (forall n :: n in st.statuses ==> w.cx.deps[n] <= st.statuses.Keys)
    && (forall n {:trigger StatusRule(w, n, st)} :: n in st.statuses ==> StatusRule(w, n, st))
    && (forall n {:trigger BranchRule(w, n, st)} :: n in st.statuses ==> BranchRule(w, n, st))
    && (PlainIds(w) ==> ReportsTold(w, st))
  }

  /** Node ids do not clash with the ids of loop rounds and map items. */
  ghost predicate PlainIds(w: World) {
    forall n :: n in w.cx.nodes ==> '#' !in n
  }

  lemma {:induction false} FinalStatusesOf(reports: seq<Report>, more: seq<Report>)
    ensures forall id :: id in FinalStatuses(reports + more) ==>
      (id in FinalStatuses(reports) && FinalStatuses(reports + more)[id] == FinalStatuses(reports)[id])
      || exists r :: r in more && r.nodeId == id && r.status == FinalStatuses(reports + more)[id]
    ensures forall id :: id in FinalStatuses(reports) ==> id in FinalStatuses(reports + more)
    ensures forall id :: id in FinalStatuses(reports) && (forall r :: r in more ==> r.nodeId != id) ==>
      FinalStatuses(reports + more)[id] == FinalStatuses(reports)[id]
    decreases |more|
  {
    if more == [] {
      assert reports + more == reports;
    } else {
      var init, last := more[..|more| - 1], more[|more| - 1];
      assert (reports + more)[..|reports + more| - 1] == reports + init;
      FinalStatusesOf(reports, init);
      assert last in more && forall r :: r in init ==> r in more;
    }
  }

  lemma LastReportWins(reports: seq<Report>, more: seq<Report>)
    requires more != []
    ensures var last := more[|more| - 1];
      last.nodeId in FinalStatuses(reports + more) && FinalStatuses(reports + more)[last.nodeId] == last.status
  {
  }

  lemma ChildIsNoNode(w: World, id: string, n: string)
    requires PlainIds(w) && IsChildId(id, n)
    ensures id !in w.cx.nodes
  {
    assert id[|n|] in id;
  }

  /** Reports that tell `status` for node `x`, besides bounded children. */
  ghost predicate About(x: string, status: NodeStatus, more: seq<Report>) {
    && more != [] && more[|more| - 1].nodeId == x && more[|more| - 1].status == status
    && forall r :: r in more ==> r.nodeId == x || BoundedChild(r, x, Rank(status))
  }

  /** Recording an evaluation, or a skip, of a node handled for the first time keeps the reports told. */
  lemma ToldStep(w: World, x: string, more: seq<Report>, a: RunState, b: RunState)
    requires PlainIds(w) && x in w.cx.nodes && a.statuses.Keys <= w.cx.nodes.Keys && x !in a.statuses
    requires ReportsTold(w, a) && b.reports == a.reports + more && x in b.statuses && b.statuses == a.statuses[x := b.statuses[x]]
    requires About(x, b.statuses[x], more)
    ensures ReportsTold(w, b)
  {
    hide IsChildId;
    FinalStatusesOf(a.reports, more);
    LastReportWins(a.reports, more);
    var before, after := FinalStatuses(a.reports), FinalStatuses(b.reports);
    forall n | n in b.statuses
      ensures n in after && after[n] == b.statuses[n]
    {
      if n != x {
        forall r | r in more
          ensures r.nodeId != n
        {
          if r.nodeId != x { ChildIsNoNode(w, r.nodeId, x); }
        }
      }
    }
    forall id | id in after && id !in b.statuses
      ensures after[id] != Skipped && exists n :: n in b.statuses && IsChildId(id, n) && Rank(after[id]) <= Rank(b.statuses[n])
    {
      if r :| r in more && r.nodeId == id && r.status == after[id] {
        assert IsChildId(id, x);
      } else {
        var n :| n in a.statuses && IsChildId(id, n) && Rank(before[id]) <= Rank(a.statuses[n]);
        assert n in b.statuses && b.statuses[n] == a.statuses[n];
      }
    }
  }

  /** Skipping or recording `x`: the only ways a run handles a node. */
  ghost predicate Handles(w: World, x: string, a: RunState, b: RunState)
    requires x in w.cx.nodes && x in w.cx.deps
  {
    if Skips(w.cx, x, a) then b == Skip(w.cx, x, a)
    else exists ev {:trigger ReportShape(w.cx.nodes[x], ev)} ::
      ReportShape(w.cx.nodes[x], ev) && SelectsCase(w.cx.nodes[x], ev) && b == Record(w.cx, x, ev, a)
  }

  lemma HandlesStatuses(w: World, x: string, a: RunState, b: RunState)
    requires Indexed(w) && x in w.cx.nodes && x in w.cx.deps && Handles(w, x, a, b)
    ensures x in b.statuses && b.statuses == a.statuses[x := b.statuses[x]]
    ensures forall n :: n != x ==> (n in a.selections <==> n in b.selections) && (n in a.selections ==> a.selections[n] == b.selections[n])
    ensures b.statuses[x] == Skipped <==> Skips(w.cx, x, a)
    ensures b.statuses[x] != Skipped ==> Evaluated(b.statuses[x])
    ensures exists more: seq<Report> :: b.reports == a.reports + more && About(x, b.statuses[x], more)
  {
    hide Skips, BoundedChild, Settle, SelectsCase;
    if Skips(w.cx, x, a) {
      var more := [SkipReport(w.cx, w.cx.nodes[x])];
      assert b.reports == a.reports + more && About(x, b.statuses[x], more);
    } else {
      var ev :| ReportShape(w.cx.nodes[x], ev) && SelectsCase(w.cx.nodes[x], ev) && b == Record(w.cx, x, ev, a);
      assert b.reports == a.reports + ev.reports && About(x, b.statuses[x], ev.reports);
    }
  }

  lemma HandlesBranch(w: World, x: string, a: RunState, b: RunState)
    requires x in w.cx.nodes && x in w.cx.deps && x !in a.selections && Handles(w, x, a, b)
    ensures x in b.statuses && BranchRule(w, x, b)
  {
    hide Skips, ReportShape, Settle, OneCase;
  }

  lemma SoundStep(w: World, x: string, a: RunState, b: RunState)
    requires Indexed(w) && Sound(w, a)
    requires x in w.cx.nodes && x !in a.statuses && w.cx.deps[x] <= a.statuses.Keys && Handles(w, x, a, b)
    ensures Sound(w, b) && b.statuses.Keys == a.statuses.Keys + {x}
  {
    hide Handles, ReportsTold, PlainIds, Indexed, BoundedChild, OneCase, About, Evaluated;
    HandlesStatuses(w, x, a, b);
    HandlesBranch(w, x, a, b);
    var more: seq<Report> :| b.reports == a.reports + more && About(x, b.statuses[x], more);
    if PlainIds(w) {
      ToldStep(w, x, more, a, b);
    }
    forall n | n in b.statuses
      ensures StatusRule(w, n, b) && BranchRule(w, n, b)
    {
      assert x !in w.cx.deps[n];
      assert Skips(w.cx, n, a) == Skips(w.cx, n, b);
      if n != x {
        assert StatusRule(w, n, a) && BranchRule(w, n, a);
      }
    }
  }

  // ---- Whole fresh runs ----

  lemma StepHandles(w: World, x: string, st: RunState)
    requires x in w.cx.nodes && x in w.cx.deps
    ensures Handles(w, x, st, StepNode(w.cx, x, st))
  {
    hide EvalNode, ReportShape, SelectsCase, Skips, Settle;
    ShapeOf(w.cx, w.cx.nodes[x], st.outputs, st.statuses);
    CaseOf(w.cx, w.cx.nodes[x], st.outputs, st.statuses);
  }

  lemma {:induction false} SoundSequential(w: World, i: nat, layer: seq<string>, j: nat, st: RunState, cancel: CancelSignal)
    requires Indexed(w) && Sound(w, st) && Knows(w.cx, layer) && OneLayer(w, i, layer)
    requires j <= |layer| && LowerDone(w, i, st.statuses.Keys) && forall id :: id in layer[j..] ==> id !in st.statuses
    ensures var p := RunSequential(w.cx, layer, i, j, st, cancel);
      && Sound(w, p.st)
      && (p.Going? ==> p.st.statuses.Keys == st.statuses.Keys + set id | id in layer[j..])
    decreases |layer| - j
  {
    hide Indexed, Sound, StepNode, OneLayer;
    if j < |layer| && !cancel(i, j + 1) {
      var x := layer[j];
      OneLayerTail(w, i, layer, j);
      LayerPreds(w, i, x, st.statuses.Keys);
      StepHandles(w, x, st);
      var st' := StepNode(w.cx, x, st);
      SoundStep(w, x, st, st');
      if st'.statuses[x] != AwaitingApproval {
        SoundSequential(w, i, layer, j + 1, st', cancel);
      }
    } else {
      assert j == |layer| ==> layer[j..] == [];
    }
  }

  lemma OneLayerTail(w: World, i: nat, layer: seq<string>, j: nat)
    requires OneLayer(w, i, layer) && j < |layer|
    ensures InLayer(w.layers, layer[j], i)
    ensures layer[j] !in layer[j + 1..] && layer[j..] == [layer[j]] + layer[j + 1..]
  {
    assert layer[j] in layer;
  }

  lemma {:induction false} SoundRecordAll(w: World, i: nat, ids: seq<string>, j: nat, snapshot: Io, st: RunState)
    requires Indexed(w) && Sound(w, st) && Knows(w.cx, ids) && OneLayer(w, i, ids)
    requires j <= |ids| && LowerDone(w, i, st.statuses.Keys)
    requires forall id :: id in ids[j..] ==> id !in st.statuses && !Skips(w.cx, id, st) && IsOrdinary(w.cx.nodes[id])
    ensures Sound(w, RecordAll(w.cx, ids, j, snapshot, st))
    ensures RecordAll(w.cx, ids, j, snapshot, st).statuses.Keys == st.statuses.Keys + set id | id in ids[j..]
    decreases |ids| - j
  {
    hide Indexed, Sound, EvalHandler, OneLayer, Settle, ReportShape, SelectsCase, BranchRule, StatusRule;
    if j < |ids| {
      var x := ids[j];
      OneLayerTail(w, i, ids, j);
      LayerPreds(w, i, x, st.statuses.Keys);
      assert x in ids[j..];
      HandlerShape(w.cx, w.cx.nodes[x], snapshot);
      CaseOf(w.cx, w.cx.nodes[x], snapshot, map[]);
      var st1 := Record(w.cx, x, EvalHandler(w.cx, w.cx.nodes[x], snapshot), st);
      assert Handles(w, x, st, st1);
      SoundStep(w, x, st, st1);
      forall id | id in ids[j + 1..]
        ensures id !in st1.statuses && !Skips(w.cx, id, st1) && IsOrdinary(w.cx.nodes[id])
      {
        assert id in ids[j..] && InLayer(w.layers, id, i) by { OneLayerMember(w, i, ids, id); }
        LayerPreds(w, i, id, st.statuses.Keys);
        HandlesStatuses(w, x, st, st1);
        assert x !in w.cx.deps[id];
      }
      SoundRecordAll(w, i, ids, j + 1, snapshot, st1);
    } else {
      assert ids[j..] == [];
    }
  }

  lemma OneLayerMember(w: World, i: nat, ids: seq<string>, id: string)
    requires OneLayer(w, i, ids) && id in ids
    ensures InLayer(w.layers, id, i)
  {
  }

  lemma SoundLayer(w: World, i: nat, st: RunState, cancel: CancelSignal)
    requires Indexed(w) && Layered(w.cx, w.layers) && i < |w.layers|
    requires Sound(w, st) && DoneBelow(w, i, st.statuses.Keys)
    ensures var p := RunLayer(w.cx, w.layers[i], i, st, None, cancel);
      && Sound(w, p.st)
      && (p.Going? ==> DoneBelow(w, i + 1, p.st.statuses.Keys))
  {
    hide Indexed, PlainIds, Sound, Skips, RecordAll, RunSequential, Unreplayed, ReplayLayer;
    if !cancel(i, 0) {
      var layer := w.layers[i];
      UnfinishedOneLayer(w, i, None);
      assert layer[0..] == layer;
      assert LowerDone(w, i, st.statuses.Keys);
      forall id | id in layer
        ensures id !in st.statuses
      {
        assert InLayer(w.layers, id, i);
      }
      LayersDisjoint(w, i, layer, st.statuses.Keys);
      if CanRunConcurrently(w.cx, layer, st) {
        SoundRecordAll(w, i, layer, 0, st.outputs, st);
      } else {
        SoundSequential(w, i, layer, 0, st, cancel);
      }
    }
  }

  lemma {:induction false} SoundLayers(w: World, i: nat, st: RunState, cancel: CancelSignal)
    requires Indexed(w) && Layered(w.cx, w.layers) && i <= |w.layers|
    requires Sound(w, st) && DoneBelow(w, i, st.statuses.Keys)
    ensures var p := RunLayers(w.cx, w.layers, i, st, None, cancel);
      && Sound(w, p.st)
      && (p.Going? ==> p.st.statuses.Keys == w.cx.nodes.Keys)
    decreases |w.layers| - i
  {
    hide PlainIds, Sound, RunLayer, Indexed;
    if i < |w.layers| {
      SoundLayer(w, i, st, cancel);
      var p := RunLayer(w.cx, w.layers[i], i, st, None, cancel);
      if p.Going? {
        SoundLayers(w, i + 1, p.st, cancel);
      }
    } else {
      AllDone(w, st.statuses.Keys);
    }
  }

  /** Every fresh run, however it ends, leaves a sound state. */
  lemma FreshRunSound(w: World, input: Io, cancel: CancelSignal)
    requires Indexed(w) && Layered(w.cx, w.layers)
    ensures var p := RunFresh(w.cx, w.layers, input, cancel);
      Sound(w, p.st) && (p.Going? ==> p.st.statuses.Keys == w.cx.nodes.Keys)
  {
    hide PlainIds, RunLayers;
    assert Sound(w, Fresh(input)) && DoneBelow(w, 0, {});
    SoundLayers(w, 0, Fresh(input), cancel);
  }

  // ---- Theorems ----

  lemma {:induction false} AncestorsUsable(w: World, st: RunState, p: seq<string>, a: string, n: string)
    requires Indexed(w) && Sound(w, st) && PathBetween(w.edges, p, a, n)
    requires n in st.statuses && st.statuses[n] != Skipped
    ensures a in st.statuses && Usable(st.statuses[a])
    decreases |p|
  {
    hide ReportsTold;
    var d := p[|p| - 2];
    assert IsEdge(w.edges, d, n);
    assert d in w.cx.deps[n];
    assert StatusRule(w, n, st) && StatusRule(w, d, st);
    assert !Blocks(st.statuses[d]);
    if |p| > 2 {
      AncestorsUsable(w, st, p[..|p| - 1], a, d);
    }
  }

  /** In every fresh run, paused, cancelled or finished: a node is evaluated only if all its transitive ancestors
      ended usable and no branch predecessor deselected it. */
  lemma EvaluatedAfterUsableAncestors(w: World, input: Io, cancel: CancelSignal, n: string)
    requires Indexed(w) && Layered(w.cx, w.layers)
    requires var st := RunFresh(w.cx, w.layers, input, cancel).st; n in st.statuses && st.statuses[n] != Skipped
    ensures var st := RunFresh(w.cx, w.layers, input, cancel).st;
      && n in w.cx.deps
      && (forall a :: Reaches(w.edges, a, n) ==> a in st.statuses && Usable(st.statuses[a]))
      && !IsUnselected(w.cx.deps[n], n, st.selections)
  {
    hide PlainIds, ReportsTold, RunLayers;
    FreshRunSound(w, input, cancel);
    var st := RunFresh(w.cx, w.layers, input, cancel).st;
    assert StatusRule(w, n, st);
    forall a | Reaches(w.edges, a, n)
      ensures a in st.statuses && Usable(st.statuses[a])
    {
      var p :| PathBetween(w.edges, p, a, n);
      AncestorsUsable(w, st, p, a, n);
    }
  }

  /** A fresh run that reaches the end of its layers gives every node exactly one final status, and the skipped
      nodes are exactly those deselected or with a failed, skipped or awaiting predecessor. */
  lemma FinishedRunStatuses(w: World, input: Io, cancel: CancelSignal)
    requires Indexed(w) && Layered(w.cx, w.layers) && RunFresh(w.cx, w.layers, input, cancel).Going?
    ensures var st := RunFresh(w.cx, w.layers, input, cancel).st;
      && st.statuses.Keys == w.cx.nodes.Keys
      && forall n :: n in w.cx.nodes ==>
           && n in w.cx.deps
           && (PlainIds(w) ==> n in FinalStatuses(st.reports) && FinalStatuses(st.reports)[n] == st.statuses[n])
           && st.statuses[n] in {Ok, Degraded, Failed, AwaitingApproval, Skipped}
           && (st.statuses[n] == Skipped <==>
                 (exists d :: d in w.cx.deps[n] && st.statuses[d] in {Failed, Skipped, AwaitingApproval})
                 || (exists d :: d in w.cx.deps[n] && d in st.selections && n !in st.selections[d]))
  {
    hide PlainIds, RunLayers;
    FreshRunSound(w, input, cancel);
    var st := RunFresh(w.cx, w.layers, input, cancel).st;
    forall n | n in w.cx.nodes
      ensures n in w.cx.deps && StatusRule(w, n, st)
    {
    }
  }

  /** In every fresh run a branch that ended ok let through only successors listed in one declared case, or in its
      non-empty default: every other handled successor is skipped. */
  lemma BranchTakesOneCase(w: World, input: Io, cancel: CancelSignal, n: string)
    requires Indexed(w) && Layered(w.cx, w.layers) && n in w.cx.nodes && w.cx.nodes[n].kind == Branch
    requires var st := RunFresh(w.cx, w.layers, input, cancel).st; n in st.statuses && st.statuses[n] == Ok
    ensures var st := RunFresh(w.cx, w.layers, input, cancel).st;
      && n in st.selections && w.cx.nodes[n].branch.Some? && OneCase(w.cx.nodes[n].branch.value, st.selections[n])
      && forall s :: s in st.statuses && IsEdge(w.edges, n, s) && s !in st.selections[n] ==> st.statuses[s] == Skipped
  {
    hide PlainIds, ReportsTold, RunLayers, OneCase;
    FreshRunSound(w, input, cancel);
    var st := RunFresh(w.cx, w.layers, input, cancel).st;
    assert BranchRule(w, n, st);
    forall s | s in st.statuses && IsEdge(w.edges, n, s) && s !in st.selections[n]
      ensures st.statuses[s] == Skipped
    {
      assert StatusRule(w, s, st) && n in w.cx.deps[s];
    }
  }

  // ---- What a report carries ----

  /** Every concluded report names the DAG, its manifest hash and the frozen input, and carries the outputs reached. */
  lemma ReportCarries(cx: Context, frozen: Io, p: Progress)
    ensures var report := Conclude(cx, frozen, p);
      && report.dag == cx.manifest.id && report.hash == cx.app.hash(cx.manifest) && report.input == frozen && report.outputs == p.st.outputs
      && p.st.reports <= report.nodes && (p.Going? || p.why == Pause ==> report.nodes == p.st.reports)
  {
    hide OverallStatus, CancelReports;
  }

  /** A skipped node leaves one report, without outputs or selection, and nothing else. */
  lemma SkippedLeavesNothing(cx: Context, id: string, st: RunState)
    requires id in cx.nodes && id in cx.deps && Skips(cx, id, st)
    ensures var after := StepNode(cx, id, st);
      && after.outputs == st.outputs && after.selections == st.selections && after.statuses == st.statuses[id := Skipped]
      && |after.reports| == |st.reports| + 1 && after.reports[..|st.reports|] == st.reports
      && var r := after.reports[|st.reports|];
         r.nodeId == cx.nodes[id].id && r.status == Skipped && r.attempt == 1 && r.outputRefs == map[] && r.selected == None
  {
    hide Skips, TraceOf, EvalNode;
  }

  // ---- Cancelled runs ----

  lemma {:induction false} CancelReportsCover(cx: Context, nodes: seq<DagNode>, statuses: map<string, NodeStatus>)
    ensures forall r :: r in CancelReports(cx, nodes, statuses) ==> r.status == Skipped && r.nodeId !in statuses
    ensures forall n :: n in nodes && n.id !in statuses ==> exists r :: r in CancelReports(cx, nodes, statuses) && r.nodeId == n.id
  {
    hide ExecutorLabel, TraceOf;
    if nodes != [] {
      CancelReportsCover(cx, nodes[1..], statuses);
      assert nodes == [nodes[0]] + nodes[1..];
      var first := NodeReport(cx.manifest, nodes[0], 1, Skipped, EMPTY, None);
      var rest := CancelReports(cx, nodes[1..], statuses);
      assert CancelReports(cx, nodes, statuses) == (if nodes[0].id in statuses then [] else [first]) + rest;
    }
  }

  lemma {:induction false} SkippedEnd(reports: seq<Report>, more: seq<Report>, id: string)
    requires (forall r :: r in more ==> r.status == Skipped) && exists r :: r in more && r.nodeId == id
    ensures id in FinalStatuses(reports + more) && FinalStatuses(reports + more)[id] == Skipped
    decreases |more|
  {
    var init, last := more[..|more| - 1], more[|more| - 1];
    assert (reports + more)[..|reports + more| - 1] == reports + init;
    assert more == init + [last] && last in more;
    if last.nodeId != id {
      SkippedEnd(reports, init, id);
    }
  }

  /** A cancelled fresh run reports itself skipped, keeps what its nodes had ended with, and accounts for every other
      node as skipped. */
  lemma CancelledRunAccountsForAll(w: World, input: Io, cancel: CancelSignal, n: string)
    requires Indexed(w) && PlainIds(w) && Layered(w.cx, w.layers) && w.cx.nodes.Keys == NodeIds(w.cx.manifest.nodes)
    requires var p := RunFresh(w.cx, w.layers, input, cancel); p.Halted? && p.why == Cancel
    requires n in w.cx.nodes
    ensures var st := RunFresh(w.cx, w.layers, input, cancel).st;
      var report := Conclude(w.cx, input, RunFresh(w.cx, w.layers, input, cancel));
      && report.status == Skipped && report.outputs == st.outputs && n in FinalStatuses(report.nodes)
      && FinalStatuses(report.nodes)[n] == if n in st.statuses then st.statuses[n] else Skipped
  {
    hide PlainIds, RunLayers, StatusRule, FinalStatuses, Indexed;
    FreshRunSound(w, input, cancel);
    var st := RunFresh(w.cx, w.layers, input, cancel).st;
    var more := CancelReports(w.cx, w.cx.manifest.nodes, st.statuses);
    CancelReportsCover(w.cx, w.cx.manifest.nodes, st.statuses);
    if n in st.statuses {
      FinalStatusesOf(st.reports, more);
    } else {
      SkippedEnd(st.reports, more, n);
    }
  }

  lemma WorstDominated(a: set<NodeStatus>, b: set<NodeStatus>)
    requires b <= a && forall s :: s in a ==> exists t :: t in b && Rank(s) <= Rank(t)
    ensures WorstOf(a) == WorstOf(b)
  {
  }

  lemma ToldIsWorst(w: World, st: RunState)
    requires ReportsTold(w, st)
    ensures OverallStatus(st.reports) == WorstOf(st.statuses.Values)
  {
    hide IsChildId, FinalStatuses, WorstOf, Rank;
    var final := FinalStatuses(st.reports);
    forall s | s in st.statuses.Values
      ensures s in final.Values
    {
      var n :| n in st.statuses && st.statuses[n] == s;
      assert n in final && final[n] == s;
    }
    forall s | s in final.Values
      ensures exists t :: t in st.statuses.Values && Rank(s) <= Rank(t)
    {
      var id :| id in final && final[id] == s;
      if id in st.statuses {
        assert st.statuses[id] == s && s in st.statuses.Values;
      } else {
        var n :| n in st.statuses && IsChildId(id, n) && Rank(final[id]) <= Rank(st.statuses[n]);
        assert st.statuses[n] in st.statuses.Values;
      }
    }
    WorstDominated(final.Values, st.statuses.Values);
  }

  // ---- Pauses ----

  lemma {:induction false} SequentialPauseAwaits(cx: Context, layer: seq<string>, i: nat, j: nat, st: RunState, cancel: CancelSignal)
    requires j <= |layer| && Knows(cx, layer)
    ensures PauseAwaits(RunSequential(cx, layer, i, j, st, cancel))
    decreases |layer| - j
  {
    hide StepNode;
    if j < |layer| && !cancel(i, j + 1) {
      SequentialPauseAwaits(cx, layer, i, j + 1, StepNode(cx, layer[j], st), cancel);
    }
  }

  lemma LayerPauseAwaits(cx: Context, layer: seq<string>, i: nat, st: RunState, ck: Option<Checkpoint>, cancel: CancelSignal)
    requires Knows(cx, layer)
    ensures PauseAwaits(RunLayer(cx, layer, i, st, ck, cancel))
  {
    hide RunSequential, RecordAll, ReplayLayer, CanRunConcurrently, Unreplayed;
    if !cancel(i, 0) {
      var replayed := if ck.Some? then ReplayLayer(cx, layer, 0, ck.value, st) else st;
      SequentialPauseAwaits(cx, layer, i, 0, replayed, cancel);
    }
  }

  /** Whether it is fresh or resumed, a run that pauses leaves a node waiting. */
  lemma {:induction false} LayersPauseAwaits(cx: Context, layers: seq<seq<string>>, i: nat, st: RunState, ck: Option<Checkpoint>, cancel: CancelSignal)
    requires Layered(cx, layers) && i <= |layers|
    ensures PauseAwaits(RunLayers(cx, layers, i, st, ck, cancel))
    decreases |layers| - i
  {
    hide RunLayer;
    if i < |layers| {
      LayerPauseAwaits(cx, layers[i], i, st, ck, cancel);
      var p := RunLayer(cx, layers[i], i, st, ck, cancel);
      if p.Going? {
        LayersPauseAwaits(cx, layers, i + 1, p.st, ck, cancel);
      }
    }
  }

  lemma WorstWhenAwaiting(statuses: map<string, NodeStatus>)
    requires SomeAwaiting(statuses)
    ensures var failed := exists n :: n in statuses && statuses[n] == Failed;
      && WorstOf(statuses.Values) == (if failed then Failed else AwaitingApproval)
      && ((forall n :: n in statuses ==> Rank(statuses[n]) <= Rank(AwaitingApproval)) <==> !failed)
  {
    var waiting :| waiting in statuses && statuses[waiting] == AwaitingApproval;
    assert AwaitingApproval in statuses.Values;
    assert forall n :: n in statuses ==> statuses[n] in statuses.Values;
  }

  /** A paused fresh run reports that it awaits approval, and some node does. That is the worst of its node statuses,
      and what its own reports add up to, exactly when no node has failed. */
  lemma PausedRunStatus(w: World, input: Io, cancel: CancelSignal)
    requires Indexed(w) && Layered(w.cx, w.layers)
    requires var p := RunFresh(w.cx, w.layers, input, cancel); p.Halted? && p.why == Pause
    ensures var p := RunFresh(w.cx, w.layers, input, cancel);
      var report, statuses := Conclude(w.cx, input, p), p.st.statuses;
      var failed := exists n :: n in statuses && statuses[n] == Failed;
      && report.status == AwaitingApproval && SomeAwaiting(statuses)
      && ((forall n :: n in statuses ==> Rank(statuses[n]) <= Rank(report.status)) <==> !failed)
      && (PlainIds(w) ==> OverallStatus(report.nodes) == if failed then Failed else AwaitingApproval)
  {
    hide PlainIds, RunLayers, StatusRule, ReportsTold, OverallStatus, SomeAwaiting, WorstOf, Indexed, Layered;
    LayersPauseAwaits(w.cx, w.layers, 0, Fresh(input), None, cancel);
    FreshRunSound(w, input, cancel);
    var st := RunFresh(w.cx, w.layers, input, cancel).st;
    WorstWhenAwaiting(st.statuses);
    if PlainIds(w) {
      ToldIsWorst(w, st);
    }
  }

  /** `WorstOf` is the join in the order Ok, Skipped < Degraded < AwaitingApproval < Failed. */
  lemma WorstIsJoin(statuses: set<NodeStatus>)
    ensures forall s :: s in statuses ==> Rank(s) <= Rank(WorstOf(statuses))
    ensures Rank(WorstOf(statuses)) > 0 ==> WorstOf(statuses) in statuses
    ensures Rank(WorstOf(statuses)) == 0 ==> WorstOf(statuses) == Ok
  {
  }

  /** The overall status, read off the last report of every id, attempts, rounds and items included, is the worst of
      the nodes' final statuses: no node ended worse, and some node ended so unless all ended ok or skipped. */
  lemma OverallIsWorstNode(w: World, input: Io, cancel: CancelSignal)
    requires Indexed(w) && PlainIds(w) && Layered(w.cx, w.layers) && RunFresh(w.cx, w.layers, input, cancel).Going?
    ensures var st := RunFresh(w.cx, w.layers, input, cancel).st;
      var overall := OverallStatus(st.reports);
      && (forall n :: n in st.statuses ==> Rank(st.statuses[n]) <= Rank(overall))
      && Evaluated(overall) && (overall == Ok || exists n :: n in st.statuses && st.statuses[n] == overall)
  {
    hide PlainIds, RunLayers, StatusRule, ReportsTold, OverallStatus;
    FreshRunSound(w, input, cancel);
    var st := RunFresh(w.cx, w.layers, input, cancel).st;
    ToldIsWorst(w, st);
    WorstIsJoin(st.statuses.Values);
    forall n | n in st.statuses
      ensures Rank(st.statuses[n]) <= Rank(OverallStatus(st.reports))
    {
      assert st.statuses[n] in st.statuses.Values;
    }
  }
}
