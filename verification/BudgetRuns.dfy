/** A run's budget: what remains of it is what it began with less the units of the nodes that spent. */
module BudgetRuns {
  import opened Results
  import opened Manifest
  import opened Layers
  import opened Validation
  import opened Json
  import opened JsonText
  import opened DagIo
  import opened NodeRules
  import opened Executor
  import opened Locality
  import opened RunMoves
  import opened Reference
  import opened RunOutcomes

  /** The keys a budget is read from. */
  const BUDGET_KEYS := {BUDGET_REMAINING, "budget_units_remaining", "budget_remaining"}

  ghost predicate SparesBudget(io: Io) {
    forall k :: k in BUDGET_KEYS ==> k !in io.values
  }

  ghost predicate SparingNode(app: App, node: DagNode) {
    && node.id !in BUDGET_KEYS
    && forall call, io {:trigger app.handler(node, call, io)} ::
         app.handler(node, call, io).Success? ==> SparesBudget(app.handler(node, call, io).value.outputs)
  }

  /** No node of the run writes a budget key of its own accord. */
  ghost predicate Sparing(cx: Context) {
    forall n {:trigger cx.nodes[n]} :: n in cx.nodes ==> SparingNode(cx.app, cx.nodes[n])
  }

  // ---- What a run should have spent ----

  /** Loops and maps spend however they end; other nodes only when they end usable. */
  predicate Consumes(node: DagNode, status: NodeStatus) {
    if node.kind in {Loop, Map} then status != Skipped else Usable(status)
  }

  function Units(m: DagManifest, node: DagNode): nat {
    if NodeBudget(m, node).Some? then NodeBudget(m, node).value else 0
  }

  /** The units of those nodes whose final status consumes their budget. */
  function SpentUnits(m: DagManifest, nodes: seq<DagNode>, statuses: map<string, NodeStatus>): nat {
    if nodes == [] then 0
    else (if nodes[0].id in statuses && Consumes(nodes[0], statuses[nodes[0].id]) then Units(m, nodes[0]) else 0)
         + SpentUnits(m, nodes[1..], statuses)
  }

  function Less(budget: Option<nat>, units: nat): Option<nat> {
    if budget.None? then None else Some(if units > budget.value then 0 else budget.value - units)
  }

  lemma {:induction false} SameSpent(m: DagManifest, nodes: seq<DagNode>, a: map<string, NodeStatus>, b: map<string, NodeStatus>)
    requires forall i :: 0 <= i < |nodes| ==> (nodes[i].id in a <==> nodes[i].id in b) && (nodes[i].id in a ==> a[nodes[i].id] == b[nodes[i].id])
    ensures SpentUnits(m, nodes, a) == SpentUnits(m, nodes, b)
  {
    hide Consumes, Units;
    if nodes != [] {
      SameSpent(m, nodes[1..], a, b);
    }
  }

  /** A node handled for the first time adds its own units, if it consumes them, and nothing else. */
  lemma {:induction false} HandledSpends(m: DagManifest, nodes: seq<DagNode>, i: nat, a: map<string, NodeStatus>, status: NodeStatus)
    requires i < |nodes| && UniqueNodeIds(nodes) && nodes[i].id !in a
    ensures SpentUnits(m, nodes, a[nodes[i].id := status]) ==
            SpentUnits(m, nodes, a) + if Consumes(nodes[i], status) then Units(m, nodes[i]) else 0
    decreases i
  {
    hide Consumes, Units;
    if i == 0 {
      SameSpent(m, nodes[1..], a, a[nodes[0].id := status]);
    } else {
      HandledSpends(m, nodes[1..], i - 1, a, status);
    }
  }

  lemma {:induction false} DigitsParse(s: string, acc: nat)
    requires forall i :: 0 <= i < |s| ==> IsDigit(s[i])
    ensures ParseDigits(s, acc).Some?
    decreases |s|
  {
    if s != "" {
      DigitsParse(s[1..], acc * 10 + (s[0] as int - '0' as int));
    }
  }

  lemma {:induction false} ParseLast(s: string, d: char, acc: nat)
    requires IsDigit(d) && forall i :: 0 <= i < |s| ==> IsDigit(s[i])
    ensures ParseDigits(s, acc).Some? && ParseDigits(s + [d], acc) == Some(ParseDigits(s, acc).value * 10 + (d as int - '0' as int))
    decreases |s|
  {
    DigitsParse(s, acc);
    if s == "" {
      assert s + [d] == [d] && [d][1..] == "";
    } else {
      assert (s + [d])[1..] == s[1..] + [d];
      ParseLast(s[1..], d, acc * 10 + (s[0] as int - '0' as int));
    }
  }

  lemma {:induction false} ParsesValue(s: string)
    requires forall i :: 0 <= i < |s| ==> IsDigit(s[i])
    ensures ParseDigits(s, 0) == Some(DecimalValue(s))
    decreases |s|
  {
    if s != "" {
      var init := s[..|s| - 1];
      ParsesValue(init);
      ParseLast(init, s[|s| - 1], 0);
      assert s == init + [s[|s| - 1]];
    }
  }

  lemma {:induction false} OtherTextFails(s: string, acc: nat)
    requires exists i :: 0 <= i < |s| && !IsDigit(s[i])
    ensures ParseDigits(s, acc) == None
    decreases |s|
  {
    if IsDigit(s[0]) {
      var i :| 0 <= i < |s| && !IsDigit(s[i]);
      assert s[1..][i - 1] == s[i];
      OtherTextFails(s[1..], acc * 10 + (s[0] as int - '0' as int));
    }
  }

  /** What reads as a budget: a number, negative ones as zero, or a numeral of 64 bits with an optional plus sign. */
  lemma BudgetUnitsRead(v: Json)
    ensures v.Num? ==> BudgetUnits(v) == Some(if v.n < 0 then 0 else v.n)
    ensures v.Str? ==>
      var digits := if "+" <= v.s then v.s[1..] else v.s;
      BudgetUnits(v) ==
        if digits != "" && (forall i :: 0 <= i < |digits| ==> IsDigit(digits[i])) && DecimalValue(digits) <= 0xFFFF_FFFF_FFFF_FFFF
        then Some(DecimalValue(digits)) else None
    ensures !v.Num? && !v.Str? ==> BudgetUnits(v) == None
  {
    hide ParseDigits, DecimalValue;
    if v.Str? {
      var digits := if "+" <= v.s then v.s[1..] else v.s;
      assert "+" <= v.s <==> |v.s| > 0 && v.s[0] == '+';
      if forall i :: 0 <= i < |digits| ==> IsDigit(digits[i]) {
        ParsesValue(digits);
      } else {
        OtherTextFails(digits, 0);
      }
    }
  }

  /** A run's budget is the first of three keys that reads as one. */
  lemma BudgetIsRead(io: Io)
    ensures var first := BudgetAt(io, "agenthero_budget_units_remaining");
      var second := BudgetAt(io, "budget_units_remaining");
      RemainingBudget(io) == if first.Some? then first else if second.Some? then second else BudgetAt(io, "budget_remaining")
    ensures forall key :: BudgetAt(io, key) == if key in io.values then BudgetUnits(io.values[key]) else None
  {
    hide BudgetUnits;
  }

  lemma {:induction false} FirstToolFound(tools: seq<DagTool>, id: string, i: nat)
    requires i < |tools| && tools[i].id == id && forall j :: 0 <= j < i ==> tools[j].id != id
    ensures FindTool(tools, id) == Some(tools[i])
  {
    if i > 0 {
      FirstToolFound(tools[1..], id, i - 1);
    }
  }

  /** A node's units are those of the policy of its tool, the first of that id; without tool, policy or units, none. */
  lemma UnitsAreTheTools(m: DagManifest, node: DagNode)
    ensures forall i :: 0 <= i < |m.tools| && node.tool == Some(m.tools[i].id) && (forall j :: 0 <= j < i ==> m.tools[j].id != m.tools[i].id) ==>
      Units(m, node) == match m.tools[i].policy
        case None => 0
        case Some(policy) => (match policy.budgetUnits case None => 0 case Some(units) => units)
    ensures (forall t :: t in m.tools ==> node.tool != Some(t.id)) ==> Units(m, node) == 0
  {
    hide FindTool;
    forall i | 0 <= i < |m.tools| && node.tool == Some(m.tools[i].id) && forall j :: 0 <= j < i ==> m.tools[j].id != m.tools[i].id
      ensures FindTool(m.tools, m.tools[i].id) == Some(m.tools[i])
    {
      FirstToolFound(m.tools, m.tools[i].id, i);
    }
  }

  lemma SpendDeducts(m: DagManifest, node: DagNode, io: Io)
    ensures RemainingBudget(Spend(m, node, io)) == Less(RemainingBudget(io), Units(m, node))
  {
    hide NodeBudget, ParseDigits;
  }

  lemma MergeSpares(io: Io, more: Io)
    requires SparesBudget(more)
    ensures RemainingBudget(Merge(io, more)) == RemainingBudget(io)
    ensures SparesBudget(io) ==> SparesBudget(Merge(io, more))
  {
    hide BudgetUnits;
    assert BUDGET_REMAINING in BUDGET_KEYS && "budget_units_remaining" in BUDGET_KEYS && "budget_remaining" in BUDGET_KEYS;
  }

  // ---- One node ----

  lemma CallSpares(cx: Context, node: DagNode, call: nat, io: Io)
    requires SparingNode(cx.app, node)
    ensures SparesBudget(ReplyOutputs(node, ExecuteOnce(cx, node, call, io)))
  {
    hide FindTool;
    var reply := cx.app.handler(node, call, io);
    assert reply.Success? ==> SparesBudget(reply.value.outputs);
  }

  lemma {:induction false} AttemptsSpare(cx: Context, node: DagNode, io: Io, k: nat)
    requires SparingNode(cx.app, node) && 1 <= k <= MaxAttempts(node)
    ensures var replies := Attempts(cx, node, io, k); SparesBudget(ReplyOutputs(node, replies[|replies| - 1]))
    decreases MaxAttempts(node) - k
  {
    hide ExecuteOnce, SparesBudget, ReplyOutputs, ShouldRetry, SparingNode;
    CallSpares(cx, node, k, io);
    if k < MaxAttempts(node) && ShouldRetry(node, ExecuteOnce(cx, node, k, io)) {
      AttemptsSpare(cx, node, io, k + 1);
    }
  }

  lemma {:induction false} LoopSpares(cx: Context, node: DagNode, policy: LoopPolicy, round: nat,
                                      visible: Io, combined: Io, reports: seq<Report>, saw: bool)
    requires SparingNode(cx.app, node) && 1 <= round <= policy.maxRounds && SparesBudget(combined)
    ensures SparesBudget(LoopRounds(cx, node, policy, round, visible, combined, reports, saw).combined)
    decreases policy.maxRounds - round
  {
    hide ExecuteOnce, SparesBudget, RoundInputs, ChildReport, SparingNode;
    var reply := ExecuteOnce(cx, node, round, RoundInputs(node, policy, round, visible));
    var status, outputs := ReplyStatus(node, reply), ReplyOutputs(node, reply);
    CallSpares(cx, node, round, RoundInputs(node, policy, round, visible));
    MergeSpares(combined, outputs);
    if !(reply.Failure? || status == AwaitingApproval || status == Failed || !IsTrue(outputs, policy.continueKey) || round == policy.maxRounds) {
      var reports' := reports + [ChildReport(cx.manifest, node, "#round-", round, round, status, outputs)];
      LoopSpares(cx, node, policy, round + 1, Merge(visible, outputs), Merge(combined, outputs), reports', saw || status == Degraded);
    }
  }

  lemma {:induction false} MapSpares(cx: Context, node: DagNode, policy: MapPolicy, items: seq<Json>, index: nat,
                                     visible: Io, combined: Io, reports: seq<Report>, saw: bool)
    requires SparingNode(cx.app, node) && index <= |items| && SparesBudget(combined)
    ensures SparesBudget(MapItems(cx, node, policy, items, index, visible, combined, reports, saw).combined)
    decreases |items| - index
  {
    hide ExecuteOnce, SparesBudget, ItemInputs, ChildReport, SparingNode;
    if index < |items| {
      var reply := ExecuteOnce(cx, node, index, ItemInputs(node, policy, items[index], index, visible));
      var status, outputs := ReplyStatus(node, reply), ReplyOutputs(node, reply);
      CallSpares(cx, node, index, ItemInputs(node, policy, items[index], index, visible));
      MergeSpares(combined, outputs);
      if !(reply.Failure? || status == AwaitingApproval || status == Failed) {
        var reports' := reports + [ChildReport(cx.manifest, node, "#item-", index, 1, status, outputs)];
        MapSpares(cx, node, policy, items, index + 1, Merge(visible, outputs), Merge(combined, outputs), reports', saw || status == Degraded);
      }
    }
  }

  /** What an evaluation does to a budget: its outputs leave it alone, and it spends as its status says. */
  ghost predicate SpendsRightly(node: DagNode, ev: NodeEval) {
    SparesBudget(ev.produced) && ev.status != Skipped && ev.spends == Consumes(node, ev.status)
  }

  lemma HandlerSpends(cx: Context, node: DagNode, io: Io)
    requires SparingNode(cx.app, node) && IsOrdinary(node)
    ensures SpendsRightly(node, EvalHandler(cx, node, io))
  {
    hide Attempts, SparingNode, SparesBudget;
    AttemptsSpare(cx, node, io, 1);
    HandlerShape(cx, node, io);
  }

  lemma LoopSpends(cx: Context, node: DagNode, io: Io)
    requires SparingNode(cx.app, node) && node.kind == Loop
    ensures SpendsRightly(node, EvalLoop(cx, node, io))
  {
    hide LoopRounds, SparingNode;
    LoopShape(cx, node, io);
    if node.loopPolicy.Some? && node.loopPolicy.value.maxRounds > 0 {
      LoopSpares(cx, node, node.loopPolicy.value, 1, io, EMPTY, [], false);
    }
  }

  lemma MapSpends(cx: Context, node: DagNode, io: Io)
    requires SparingNode(cx.app, node) && node.kind == Map
    ensures SpendsRightly(node, EvalMap(cx, node, io))
  {
    hide MapItems, SparingNode;
    MapShape(cx, node, io);
    if node.mapPolicy.Some? && node.mapPolicy.value.itemsKey in io.values && io.values[node.mapPolicy.value.itemsKey].Arr? {
      MapSpares(cx, node, node.mapPolicy.value, io.values[node.mapPolicy.value.itemsKey].items, 0, io, EMPTY, [], false);
    }
  }

  /** A reply of the executor itself holds at most the node's own value. */
  lemma ReplySpends(cx: Context, node: DagNode, reply: Reply, selected: Option<set<string>>)
    requires node.id !in BUDGET_KEYS && node.kind !in {Loop, Map}
    requires reply.Success? ==> reply.value.outputs == EMPTY || exists value :: reply.value.outputs == WithValue(EMPTY, node.id, value)
    ensures SpendsRightly(node, EvalReply(cx, node, reply, selected))
  {
    ReplyEvaluated(node, reply);
  }

  lemma NodeSpends(cx: Context, node: DagNode, io: Io, statuses: map<string, NodeStatus>)
    requires SparingNode(cx.app, node)
    ensures SpendsRightly(node, EvalNode(cx, node, io, statuses))
  {
    hide SpendsRightly, SparesBudget, EvalReply, EvalHandler, EvalLoop, EvalMap;
    forall reply: Reply, selected | node.kind in {Branch, Gate, Approval}
      && (reply.Success? ==> reply.value.outputs == EMPTY || exists value :: reply.value.outputs == WithValue(EMPTY, node.id, value))
      ensures SpendsRightly(node, EvalReply(cx, node, reply, selected))
    {
      ReplySpends(cx, node, reply, selected);
    }
    match node.kind
    case Loop => LoopSpends(cx, node, io);
    case Map => MapSpends(cx, node, io);
    case Branch =>
    case Gate =>
    case Approval =>
    case _ => HandlerSpends(cx, node, io);
  }

  // ---- Whole runs ----

  /** The manifest's nodes are the indexed ones, each once. */
  ghost predicate NodesIndexed(cx: Context) {
    && UniqueNodeIds(cx.manifest.nodes)
    && (forall n :: n in cx.nodes ==> exists i :: 0 <= i < |cx.manifest.nodes| && cx.manifest.nodes[i] == cx.nodes[n] && cx.nodes[n].id == n)
  }

  ghost predicate Tallied(cx: Context, budget: Option<nat>, st: RunState) {
    RemainingBudget(st.outputs) == Less(budget, SpentUnits(cx.manifest, cx.manifest.nodes, st.statuses))
  }

  lemma HandledTallies(cx: Context, x: string, a: RunState, status: NodeStatus)
    requires NodesIndexed(cx) && x in cx.nodes && x !in a.statuses
    ensures var m := cx.manifest;
      SpentUnits(m, m.nodes, a.statuses[x := status]) ==
      SpentUnits(m, m.nodes, a.statuses) + if Consumes(cx.nodes[x], status) then Units(m, cx.nodes[x]) else 0
  {
    hide SpentUnits, Consumes, Units;
    var i :| 0 <= i < |cx.manifest.nodes| && cx.manifest.nodes[i] == cx.nodes[x] && cx.nodes[x].id == x;
    HandledSpends(cx.manifest, cx.manifest.nodes, i, a.statuses, status);
  }

  lemma RecordTallies(cx: Context, x: string, ev: NodeEval, budget: Option<nat>, a: RunState)
    requires NodesIndexed(cx) && x in cx.nodes && x !in a.statuses && Tallied(cx, budget, a) && SpendsRightly(cx.nodes[x], ev)
    ensures Tallied(cx, budget, Record(cx, x, ev, a))
  {
    hide RemainingBudget, Spend, SparesBudget, Consumes, SpentUnits, Units, NodesIndexed;
    HandledTallies(cx, x, a, ev.status);
    MergeSpares(a.outputs, ev.produced);
    SpendDeducts(cx.manifest, cx.nodes[x], Merge(a.outputs, ev.produced));
  }

  lemma StepTallies(cx: Context, x: string, budget: Option<nat>, a: RunState)
    requires NodesIndexed(cx) && Sparing(cx) && x in cx.nodes && x in cx.deps && x !in a.statuses && Tallied(cx, budget, a)
    ensures Tallied(cx, budget, StepNode(cx, x, a))
    ensures StepNode(cx, x, a).statuses.Keys == a.statuses.Keys + {x}
  {
    hide RemainingBudget, Settle, SpentUnits, Units, Skips, EvalNode, SpendsRightly, NodesIndexed, SparingNode;
    assert SparingNode(cx.app, cx.nodes[x]);
    if Skips(cx, x, a) {
      HandledTallies(cx, x, a, Skipped);
    } else {
      var ev := EvalNode(cx, cx.nodes[x], a.outputs, a.statuses);
      NodeSpends(cx, cx.nodes[x], a.outputs, a.statuses);
      RecordTallies(cx, x, ev, budget, a);
    }
  }

  lemma {:induction false} SequentialTallies(cx: Context, layer: seq<string>, i: nat, j: nat, budget: Option<nat>, st: RunState, cancel: CancelSignal)
    requires NodesIndexed(cx) && Sparing(cx) && Knows(cx, layer) && j <= |layer| && FirstTime(layer, j, st) && Tallied(cx, budget, st)
    ensures Tallied(cx, budget, RunSequential(cx, layer, i, j, st, cancel).st)
    decreases |layer| - j
  {
    hide Tallied, NodesIndexed, Sparing, StepNode;
    if j < |layer| && !cancel(i, j + 1) {
      StepTallies(cx, layer[j], budget, st);
      SequentialTallies(cx, layer, i, j + 1, budget, StepNode(cx, layer[j], st), cancel);
    }
  }

  lemma {:induction false} RecordAllTallies(cx: Context, ids: seq<string>, j: nat, snapshot: Io, budget: Option<nat>, st: RunState)
    requires NodesIndexed(cx) && Sparing(cx) && Knows(cx, ids) && j <= |ids| && FirstTime(ids, j, st) && Tallied(cx, budget, st)
    requires forall id :: id in ids ==> IsOrdinary(cx.nodes[id])
    ensures Tallied(cx, budget, RecordAll(cx, ids, j, snapshot, st))
    decreases |ids| - j
  {
    hide Tallied, NodesIndexed, EvalHandler, SpendsRightly, Settle, SparingNode;
    if j < |ids| {
      assert SparingNode(cx.app, cx.nodes[ids[j]]);
      var ev := EvalHandler(cx, cx.nodes[ids[j]], snapshot);
      HandlerSpends(cx, cx.nodes[ids[j]], snapshot);
      RecordTallies(cx, ids[j], ev, budget, st);
      RecordAllTallies(cx, ids, j + 1, snapshot, budget, Record(cx, ids[j], ev, st));
    }
  }

  /** The ids are distinct, and those from position `j` on are not handled yet. */
  ghost predicate FirstTime(ids: seq<string>, j: nat, st: RunState) {
    && (forall i, k :: 0 <= i < k < |ids| ==> ids[i] != ids[k])
    && forall k :: j <= k < |ids| ==> ids[k] !in st.statuses
  }

  lemma LayerTallies(w: World, i: nat, budget: Option<nat>, st: RunState, cancel: CancelSignal)
    requires Indexed(w) && Layered(w.cx, w.layers) && i < |w.layers| && NodesIndexed(w.cx) && Sparing(w.cx)
    requires DoneBelow(w, i, st.statuses.Keys) && Tallied(w.cx, budget, st)
    ensures Tallied(w.cx, budget, RunLayer(w.cx, w.layers[i], i, st, None, cancel).st)
  {
    hide Tallied, NodesIndexed, Sparing, Skips, NodeBudget, RecordAll, RunSequential;
    var layer := w.layers[i];
    forall k | 0 <= k < |layer|
      ensures layer[k] !in st.statuses
    {
      assert InLayer(w.layers, layer[k], i);
    }
    if CanRunConcurrently(w.cx, layer, st) {
      RecordAllTallies(w.cx, layer, 0, st.outputs, budget, st);
    }
    SequentialTallies(w.cx, layer, i, 0, budget, st, cancel);
  }

  lemma {:induction false} LayersTally(w: World, i: nat, budget: Option<nat>, st: RunState, cancel: CancelSignal)
    requires Indexed(w) && Layered(w.cx, w.layers) && i <= |w.layers| && NodesIndexed(w.cx) && Sparing(w.cx)
    requires Sound(w, st) && DoneBelow(w, i, st.statuses.Keys) && Tallied(w.cx, budget, st)
    ensures Tallied(w.cx, budget, RunLayers(w.cx, w.layers, i, st, None, cancel).st)
    decreases |w.layers| - i
  {
    hide Tallied, NodesIndexed, Sparing, Sound, Indexed, RunLayer, DoneBelow;
    if i < |w.layers| {
      LayerTallies(w, i, budget, st, cancel);
      SoundLayer(w, i, st, cancel);
      var p := RunLayer(w.cx, w.layers[i], i, st, None, cancel);
      if p.Going? {
        LayersTally(w, i + 1, budget, p.st, cancel);
      }
    }
  }

  lemma {:induction false} NothingSpent(m: DagManifest, nodes: seq<DagNode>)
    ensures SpentUnits(m, nodes, map[]) == 0
  {
    if nodes != [] {
      NothingSpent(m, nodes[1..]);
    }
  }

  lemma FreshSound(w: World, input: Io)
    requires Indexed(w)
    ensures Sound(w, Fresh(input)) && DoneBelow(w, 0, {})
  {
    hide PlainIds;
  }

  lemma IndexedConserves(w: World, input: Io, cancel: CancelSignal)
    requires Indexed(w) && Layered(w.cx, w.layers) && NodesIndexed(w.cx) && Sparing(w.cx)
    ensures var st := RunFresh(w.cx, w.layers, input, cancel).st;
      var spent := SpentUnits(w.cx.manifest, w.cx.manifest.nodes, st.statuses);
      match RemainingBudget(input)
      case None => RemainingBudget(st.outputs) == None
      case Some(budget) => RemainingBudget(st.outputs) == Some(if spent > budget then 0 else budget - spent)
  {
    hide NodesIndexed, Sparing, Indexed, RunLayers, RemainingBudget, PlainIds;
    NothingSpent(w.cx.manifest, w.cx.manifest.nodes);
    FreshSound(w, input);
    LayersTally(w, 0, RemainingBudget(input), Fresh(input), cancel);
  }

  lemma ManifestNodesIndexed(app: App, m: DagManifest)
    requires UniqueNodeIds(m.nodes)
    ensures NodesIndexed(MakeContext(app, m))
  {
  }

  /** In every fresh run of a valid manifest, finished, paused or cancelled, what remains of the budget is the initial
      one less the units of every node whose status consumes them, and never below zero; a run without a budget never
      gains one. */
  lemma BudgetConserved(app: App, m: DagManifest, layers: seq<seq<string>>, input: Io, cancel: CancelSignal)
    requires ValidGraph(m) && IsLayering(m, layers) && Sparing(MakeContext(app, m))
    ensures Layered(MakeContext(app, m), layers)
    ensures var st := RunFresh(MakeContext(app, m), layers, input, cancel).st;
      var spent := SpentUnits(m, m.nodes, st.statuses);
      match RemainingBudget(input)
      case None => RemainingBudget(st.outputs) == None
      case Some(budget) => RemainingBudget(st.outputs) == Some(if spent > budget then 0 else budget - spent)
  {
    hide Indexed, Layered, NodesIndexed, Sparing, IsLayering, RunFresh, RemainingBudget, SpentUnits;
    var w := World(MakeContext(app, m), layers, Expand(m.edges), {});
    ManifestIndexed(app, m, layers, {});
    IndexedLayered(w);
    ManifestNodesIndexed(app, m);
    IndexedConserves(w, input, cancel);
  }
}
