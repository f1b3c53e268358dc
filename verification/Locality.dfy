/** When two snapshots make a node evaluate alike: the hypotheses under which replay is sound, and what follows
    from them for one node. */
module Locality {
  import opened Results
  import opened Manifest
  import opened Graph
  import opened Layers
  import opened Validation
  import opened Json
  import opened DagIo
  import opened NodeRules
  import opened Executor

  /** A run's context with its layering, its expanded edges and the approval keys of its runtime checks. */
  datatype World = World(cx: Context, layers: seq<seq<string>>, edges: Edges, keys: set<string>)

  ghost predicate CrossesLayers(layers: seq<seq<string>>, d: string, n: string) {
    forall g: nat, h: nat :: InLayer(layers, d, g) && InLayer(layers, n, h) ==> g < h
  }

  /** The indexes agree with the graph, and the layers partition the nodes along the edges. */
  ghost predicate Indexed(w: World) {
    && w.cx.nodes.Keys == w.cx.deps.Keys
    && (forall n :: n in w.cx.nodes ==> w.cx.nodes[n].id == n)
    && (forall n, d {:trigger d in w.cx.deps[n]} {:trigger IsEdge(w.edges, d, n)} :: n in w.cx.deps ==> (d in w.cx.deps[n] <==> IsEdge(w.edges, d, n)))
    && (forall d, n {:trigger IsEdge(w.edges, d, n)} :: IsEdge(w.edges, d, n) ==> d in w.cx.nodes && n in w.cx.nodes)
    && (forall d, n {:trigger IsEdge(w.edges, d, n)} :: IsEdge(w.edges, d, n) ==> CrossesLayers(w.layers, d, n))
    && IsPartition(w.cx.nodes.Keys, w.layers)
    && (forall l: nat, j, k :: l < |w.layers| && 0 <= j < k < |w.layers[l]| ==> w.layers[l][j] != w.layers[l][k])
  }

  lemma IndexedLayered(w: World)
    requires Indexed(w)
    ensures Layered(w.cx, w.layers)
  {
    forall l, n | l in w.layers && n in l
      ensures n in w.cx.nodes
    {
      var i :| 0 <= i < |w.layers| && w.layers[i] == l;
      assert InLayer(w.layers, n, i);
    }
  }

  lemma EdgesIndexed(m: DagManifest, layers: seq<seq<string>>, d: string, n: string)
    requires ValidGraph(m) && IsLayering(m, layers) && IsEdge(Expand(m.edges), d, n)
    ensures d in NodeIds(m.nodes) && n in NodeIds(m.nodes) && CrossesLayers(layers, d, n)
  {
    hide HasHeight, HasCycle, Expand, PolicyRefs, UniqueNodeIds, OrderedBy;
    EndsAreExpanded(m);
    TargetsAreNodes(m);
    forall g: nat, h: nat | InLayer(layers, d, g) && InLayer(layers, n, h)
      ensures g < h
    {
      EdgesCrossLayers(m, layers, d, n, g, h);
    }
  }

  lemma LayersDistinct(m: DagManifest, layers: seq<seq<string>>)
    requires IsLayering(m, layers)
    ensures forall l: nat, j, k :: l < |layers| && 0 <= j < k < |layers[l]| ==> layers[l][j] != layers[l][k]
  {
    hide HasHeight, Expand;
    forall l: nat, j, k | l < |layers| && 0 <= j < k < |layers[l]|
      ensures layers[l][j] != layers[l][k]
    {
      assert OrderedBy(NodeOrder(m.nodes), layers[l]);
    }
  }

  lemma PredIsEdge(edges: seq<DagEdge>, d: string, n: string)
    ensures d in Preds(edges, n) <==> IsEdge(Expand(edges), d, n)
  {
    PredsAreExpanded(edges, d, n);
  }

  /** A valid manifest with its layering gives agreeing indexes. */
  lemma ManifestIndexed(app: App, m: DagManifest, layers: seq<seq<string>>, keys: set<string>)
    requires ValidGraph(m) && IsLayering(m, layers)
    ensures Indexed(World(MakeContext(app, m), layers, Expand(m.edges), keys))
  {
    hide HasHeight, ValidGraph, Expand, Preds, CrossesLayers, OrderedBy, IsPartition, NodeIds, NodeOrder, IsEdge;
    var w := World(MakeContext(app, m), layers, Expand(m.edges), keys);
    assert w.cx.nodes.Keys == NodeIds(m.nodes) && w.cx.deps.Keys == NodeIds(m.nodes);
    forall d, n | IsEdge(w.edges, d, n)
      ensures d in w.cx.nodes && n in w.cx.nodes && CrossesLayers(layers, d, n)
    {
      EdgesIndexed(m, layers, d, n);
    }
    forall n, d | n in w.cx.deps
      ensures d in w.cx.deps[n] <==> IsEdge(w.edges, d, n)
    {
      PredIsEdge(m.edges, d, n);
    }
    LayersDistinct(m, layers);
  }

  lemma {:induction false} ReachesLower(w: World, a: string, n: string, g: nat, h: nat)
    requires Indexed(w) && Reaches(w.edges, a, n)
    requires InLayer(w.layers, a, g) && InLayer(w.layers, n, h)
    ensures g < h
    decreases h
  {
    var d := ReachesLastEdge(w.edges, a, n);
    assert d in w.cx.nodes;
    var k: nat :| InLayer(w.layers, d, k);
    assert CrossesLayers(w.layers, d, n);
    if d != a {
      ReachesLower(w, a, d, g, k);
    }
  }

  // ---- Keys ----

  /** The value and artifact keys a node may write. */
  function Own(node: DagNode): set<string> {
    {node.id} + set o | o in node.outputs
  }

  ghost predicate SameSlot(a: Io, b: Io, k: string) {
    && (k in a.values <==> k in b.values) && (k in a.values ==> a.values[k] == b.values[k])
    && (k in a.artifacts <==> k in b.artifacts) && (k in a.artifacts ==> a.artifacts[k] == b.artifacts[k])
  }

  ghost predicate EmptySlot(a: Io, k: string) {
    k !in a.values && k !in a.artifacts
  }

  ghost predicate OwnedBy(w: World, k: string, x: string) {
    x in w.cx.nodes && k in Own(w.cx.nodes[x])
  }

  ghost predicate Unowned(w: World, k: string) {
    forall x :: !OwnedBy(w, k, x)
  }

  /** Keys a node must not depend on: approval keys, and keys of nodes that are not its ancestors. */
  ghost predicate Hidden(w: World, n: string, k: string) {
    k in w.keys || exists x :: OwnedBy(w, k, x) && !Reaches(w.edges, x, n)
  }

  ghost predicate AgreeFor(w: World, n: string, a: Io, b: Io) {
    forall k {:trigger SameSlot(a, b, k)} :: !Hidden(w, n, k) ==> SameSlot(a, b, k)
  }

  // ---- Hypotheses ----

  /** The handler and the contract checks of `n` depend only on its ancestors' keys and on plain input keys. */
  ghost predicate LocalNode(w: World, n: string)
    requires n in w.cx.nodes
  {
    var node := w.cx.nodes[n];
    forall a, b {:trigger AgreeFor(w, n, a, b)} :: AgreeFor(w, n, a, b) ==>
      && (forall call :: w.cx.app.handler(node, call, a) == w.cx.app.handler(node, call, b))
      && w.cx.app.refuses(node, a) == w.cx.app.refuses(node, b)
      && w.cx.app.inputContract(node, a) == w.cx.app.inputContract(node, b)
  }

  ghost predicate WritesOwn(w: World, n: string)
    requires n in w.cx.nodes
  {
    var node := w.cx.nodes[n];
    forall call, io {:trigger w.cx.app.handler(node, call, io)} ::
      var reply := w.cx.app.handler(node, call, io);
      reply.Success? ==> reply.value.outputs.values.Keys <= Own(node)
  }

  /** A final attempt is never worse than an earlier degraded one. */
  ghost predicate FinalNotWorse(w: World, n: string)
    requires n in w.cx.nodes
  {
    var node := w.cx.nodes[n];
    forall io {:trigger Attempts(w.cx, node, io, 1)} ::
      var replies := Attempts(w.cx, node, io, 1);
      Usable(ReplyStatus(node, replies[|replies| - 1])) || forall i :: 0 <= i < |replies| ==> !Usable(ReplyStatus(node, replies[i]))
  }

  ghost predicate LawfulNode(w: World, n: string)
    requires n in w.cx.nodes
  {
    var node := w.cx.nodes[n];
    && node.kind != Loop && node.kind != Map
    && NodeBudget(w.cx.manifest, node).None?
    && '#' !in n
    && LocalNode(w, n) && WritesOwn(w, n) && FinalNotWorse(w, n)
    && (CheckedKey(w.cx.manifest, node).Some? ==> CheckedKey(w.cx.manifest, node).value in w.keys)
    && (node.kind == Branch && node.branch.Some? ==> !Hidden(w, n, node.branch.value.decisionKey))
    && (node.kind == Gate && node.gate.Some? ==> forall s :: s in node.gate.value.sources ==> Reaches(w.edges, s, n))
  }

  /** The hypotheses under which a resumed run ends like an uninterrupted one. */
  ghost predicate Lawful(w: World) {
    && Indexed(w)
    && (forall n {:trigger LawfulNode(w, n)} :: n in w.cx.nodes ==> LawfulNode(w, n))
    && (forall k, x, y :: OwnedBy(w, k, x) && OwnedBy(w, k, y) ==> x == y)
    && (forall k :: k in w.keys ==> Unowned(w, k))
  }

  /** Run inputs hold no key that a node may write. */
  ghost predicate PlainInput(w: World, input: Io) {
    forall k :: !EmptySlot(input, k) ==> Unowned(w, k)
  }

  ghost predicate ApprovedIn(w: World, a: Io, b: Io) {
    forall k :: k in w.keys && IsTrue(a, k) ==> IsTrue(b, k)
  }

  ghost predicate AllApproved(w: World, io: Io) {
    forall k :: k in w.keys ==> IsTrue(io, k)
  }

  // ---- One call and its attempts ----

  /** With more approvals, a call repeats its reply unless it was waiting for approval. */
  lemma CallAgrees(w: World, n: string, call: nat, a: Io, b: Io)
    requires Lawful(w) && n in w.cx.nodes && IsOrdinary(w.cx.nodes[n]) && AgreeFor(w, n, a, b) && ApprovedIn(w, a, b)
    ensures ExecuteOnce(w.cx, w.cx.nodes[n], call, a) == ExecuteOnce(w.cx, w.cx.nodes[n], call, b)
            || ExecuteOnce(w.cx, w.cx.nodes[n], call, a) == Success(AWAITING)
    ensures ApprovedIn(w, b, a) ==> ExecuteOnce(w.cx, w.cx.nodes[n], call, a) == ExecuteOnce(w.cx, w.cx.nodes[n], call, b)
  {
    hide WritesOwn, FinalNotWorse, Indexed, Hidden, NodeBudget;
    var node := w.cx.nodes[n];
    assert LawfulNode(w, n);
    assert w.cx.app.handler(node, call, a) == w.cx.app.handler(node, call, b);
    if CheckedKey(w.cx.manifest, node).Some? {
      assert CheckedKey(w.cx.manifest, node).value in w.keys;
    }
  }

  lemma {:induction false} AttemptsAgree(w: World, n: string, a: Io, b: Io, k: nat)
    requires Lawful(w) && n in w.cx.nodes && IsOrdinary(w.cx.nodes[n]) && AgreeFor(w, n, a, b) && ApprovedIn(w, a, b)
    requires 1 <= k <= MaxAttempts(w.cx.nodes[n])
    requires ApprovedIn(w, b, a)
             || Usable(ReplyStatus(w.cx.nodes[n], Attempts(w.cx, w.cx.nodes[n], a, k)[|Attempts(w.cx, w.cx.nodes[n], a, k)| - 1]))
    ensures Attempts(w.cx, w.cx.nodes[n], a, k) == Attempts(w.cx, w.cx.nodes[n], b, k)
    decreases MaxAttempts(w.cx.nodes[n]) - k
  {
    var node := w.cx.nodes[n];
    CallAgrees(w, n, k, a, b);
    var reply := ExecuteOnce(w.cx, node, k, a);
    if k < MaxAttempts(node) && ShouldRetry(node, reply) {
      var rest := Attempts(w.cx, node, a, k + 1);
      assert Attempts(w.cx, node, a, k) == [reply] + rest;
      assert ([reply] + rest)[|[reply] + rest| - 1] == rest[|rest| - 1];
      AttemptsAgree(w, n, a, b, k + 1);
    }
  }

  // ---- One node ----

  ghost predicate SourcesAgree(w: World, n: string, s: map<string, NodeStatus>, t: map<string, NodeStatus>) {
    forall x :: Reaches(w.edges, x, n) ==> (x in s && Usable(s[x]) <==> x in t && Usable(t[x]))
  }

  lemma {:induction false} UsableSourcesAgree(sources: seq<string>, s: map<string, NodeStatus>, t: map<string, NodeStatus>)
    requires forall x :: x in sources ==> (x in s && Usable(s[x]) <==> x in t && Usable(t[x]))
    ensures UsableSources(sources, s) == UsableSources(sources, t)
  {
    if |sources| > 0 {
      assert sources[0] in sources;
      UsableSourcesAgree(sources[1..], s, t);
    }
  }

  lemma BranchAgrees(cx: Context, node: DagNode, a: Io, b: Io)
    requires node.branch.Some? ==> SameSlot(a, b, node.branch.value.decisionKey)
    ensures EvalBranch(cx, node, a) == EvalBranch(cx, node, b)
  {
  }

  lemma GateAgrees(w: World, n: string, s: map<string, NodeStatus>, t: map<string, NodeStatus>)
    requires n in w.cx.nodes && LawfulNode(w, n) && w.cx.nodes[n].kind == Gate && SourcesAgree(w, n, s, t)
    ensures EvalGate(w.cx, w.cx.nodes[n], s) == EvalGate(w.cx, w.cx.nodes[n], t)
  {
    var node := w.cx.nodes[n];
    if node.gate.Some? {
      UsableSourcesAgree(node.gate.value.sources, s, t);
    }
  }

  lemma ApprovalAgrees(cx: Context, node: DagNode, a: Io, b: Io)
    requires node.approval.Some? ==> IsTrue(a, node.approval.value.approvedKey) == IsTrue(b, node.approval.value.approvedKey)
                                     || (IsTrue(b, node.approval.value.approvedKey) && Usable(EvalApproval(cx, node, a).status))
    ensures EvalApproval(cx, node, a) == EvalApproval(cx, node, b)
  {
  }

  lemma HandlerAgrees(w: World, n: string, a: Io, b: Io)
    requires Lawful(w) && n in w.cx.nodes && IsOrdinary(w.cx.nodes[n]) && AgreeFor(w, n, a, b) && ApprovedIn(w, a, b)
    requires ApprovedIn(w, b, a) || Usable(EvalHandler(w.cx, w.cx.nodes[n], a).status)
    ensures EvalHandler(w.cx, w.cx.nodes[n], a) == EvalHandler(w.cx, w.cx.nodes[n], b)
  {
    hide Attempts, ExecuteOnce, Lawful, AgreeFor, ApprovedIn;
    AttemptsAgree(w, n, a, b, 1);
  }

  /** With more approvals, a node that ended usable evaluates to the same outcome, reports included; with the
      same approvals every node does. */
  lemma EvalAgrees(w: World, n: string, a: Io, s: map<string, NodeStatus>, b: Io, t: map<string, NodeStatus>)
    requires Lawful(w) && n in w.cx.nodes && AgreeFor(w, n, a, b) && ApprovedIn(w, a, b) && SourcesAgree(w, n, s, t)
    requires ApprovedIn(w, b, a) || Usable(EvalNode(w.cx, w.cx.nodes[n], a, s).status)
    ensures EvalNode(w.cx, w.cx.nodes[n], a, s) == EvalNode(w.cx, w.cx.nodes[n], b, t)
  {
    hide EvalBranch, EvalGate, EvalApproval, EvalHandler, SourcesAgree, Indexed;
    var node := w.cx.nodes[n];
    assert LawfulNode(w, n);
    if node.kind == Branch {
      assert node.branch.Some? ==> SameSlot(a, b, node.branch.value.decisionKey);
      BranchAgrees(w.cx, node, a, b);
    } else if node.kind == Gate {
      GateAgrees(w, n, s, t);
    } else if node.kind == Approval {
      assert node.approval.Some? ==> CheckedKey(w.cx.manifest, node) == Some(node.approval.value.approvedKey);
      ApprovalAgrees(w.cx, node, a, b);
    } else {
      HandlerAgrees(w, n, a, b);
    }
  }

  lemma {:induction false} AttemptIsACall(cx: Context, node: DagNode, io: Io, k: nat, i: nat) returns (call: nat)
    requires 1 <= k <= MaxAttempts(node) && i < |Attempts(cx, node, io, k)|
    ensures Attempts(cx, node, io, k)[i] == ExecuteOnce(cx, node, call, io)
    decreases i
  {
    if i == 0 {
      call := k;
    } else {
      call := AttemptIsACall(cx, node, io, k + 1, i - 1);
    }
  }

  lemma CallWritesOwn(w: World, n: string, call: nat, io: Io)
    requires Lawful(w) && n in w.cx.nodes
    ensures var outputs := ReplyOutputs(w.cx.nodes[n], ExecuteOnce(w.cx, w.cx.nodes[n], call, io));
      outputs.values.Keys <= Own(w.cx.nodes[n]) && outputs.artifacts.Keys <= set o | o in w.cx.nodes[n].outputs
  {
    hide LocalNode, FinalNotWorse, Indexed, CheckedKey, Hidden, NodeBudget;
    var node := w.cx.nodes[n];
    assert LawfulNode(w, n);
    assert WritesOwn(w, n);
    var reply := w.cx.app.handler(node, call, io);
    assert reply.Success? ==> reply.value.outputs.values.Keys <= Own(node);
  }

  /** An evaluation ends in one of four statuses, produces only keys the node owns, and nothing unless usable. */
  ghost predicate ProperOutcome(node: DagNode, ev: NodeEval) {
    && ev.status in {Ok, Degraded, Failed, AwaitingApproval}
    && ev.produced.values.Keys <= Own(node) && ev.produced.artifacts.Keys <= (set o | o in node.outputs)
    && (!Usable(ev.status) ==> ev.produced == EMPTY)
    && (ev.selected.Some? ==> Usable(ev.status) && node.kind == Branch)
  }

  lemma OwnAnswerOutcome(cx: Context, node: DagNode, io: Io, s: map<string, NodeStatus>)
    requires node.kind in {Branch, Gate, Approval}
    ensures ProperOutcome(node, EvalNode(cx, node, io, s))
  {
    match node.kind
    case Branch =>
    case Gate =>
    case Approval =>
  }

  lemma HandlerOutcome(w: World, n: string, io: Io)
    requires Lawful(w) && n in w.cx.nodes
    ensures ProperOutcome(w.cx.nodes[n], EvalHandler(w.cx, w.cx.nodes[n], io))
  {
    var replies := Attempts(w.cx, w.cx.nodes[n], io, 1);
    var call := AttemptIsACall(w.cx, w.cx.nodes[n], io, 1, |replies| - 1);
    CallWritesOwn(w, n, call, io);
  }

  lemma EvalShape(w: World, n: string, io: Io, s: map<string, NodeStatus>)
    requires Lawful(w) && n in w.cx.nodes
    ensures ProperOutcome(w.cx.nodes[n], EvalNode(w.cx, w.cx.nodes[n], io, s))
  {
    assert LawfulNode(w, n);
    if w.cx.nodes[n].kind in {Branch, Gate, Approval} {
      OwnAnswerOutcome(w.cx, w.cx.nodes[n], io, s);
    } else {
      HandlerOutcome(w, n, io);
    }
  }

  /** What the last replayable report of a usable evaluation says. */
  ghost predicate ReportsOutcome(r: Report, node: DagNode, status: NodeStatus, produced: Io, selected: Option<set<string>>) {
    r.nodeId == node.id && r.kind == node.kind && r.status == status
    && r.outputRefs == Uris(produced.artifacts) && r.selected == selected
  }

  lemma {:induction false} LastReplayableEnd(reports: seq<Report>, id: string)
    requires |reports| > 0 && reports[|reports| - 1].nodeId == id && Usable(reports[|reports| - 1].status)
    ensures LastReplayable(reports, id) == Some(reports[|reports| - 1])
  {
    if |reports| > 1 {
      LastReplayableEnd(reports[1..], id);
    }
  }

  lemma {:induction false} LastReplayableNone(reports: seq<Report>, id: string)
    requires forall r :: r in reports ==> r.nodeId != id || !Usable(r.status)
    ensures LastReplayable(reports, id) == None
  {
    if |reports| > 0 {
      assert reports[0] in reports;
      LastReplayableNone(reports[1..], id);
    }
  }

  lemma {:induction false} LastReplayableConcat(a: seq<Report>, b: seq<Report>, id: string)
    ensures LastReplayable(a + b, id) == if LastReplayable(b, id).Some? then LastReplayable(b, id) else LastReplayable(a, id)
  {
    if |a| == 0 {
      assert a + b == b;
    } else {
      assert (a + b)[1..] == a[1..] + b;
      LastReplayableConcat(a[1..], b, id);
    }
  }

  /** One node's reports hold a replayable one exactly when some of them is usable. */
  lemma {:induction false} ReplayableMeans(reports: seq<Report>, id: string)
    requires forall r :: r in reports ==> r.nodeId == id
    ensures LastReplayable(reports, id).Some? <==> exists r :: r in reports && Usable(r.status)
  {
    if reports != [] {
      assert forall r :: r in reports <==> r == reports[0] || r in reports[1..];
      ReplayableMeans(reports[1..], id);
    }
  }

  /** Replay tells how a node ended, restored exactly if usable, if and only if its last report is usable or none is.
      A usable last report is the one restored. */
  lemma ReplayTellsTheEnd(reports: seq<Report>, id: string)
    requires reports != [] && forall r :: r in reports ==> r.nodeId == id
    ensures var last := reports[|reports| - 1];
      && ((LastReplayable(reports, id).Some? <==> Usable(last.status)) <==>
            (Usable(last.status) || forall r :: r in reports ==> !Usable(r.status)))
      && (Usable(last.status) ==> LastReplayable(reports, id) == Some(last))
  {
    ReplayableMeans(reports, id);
    if Usable(reports[|reports| - 1].status) {
      LastReplayableEnd(reports, id);
    }
  }

  lemma AttemptReportsUsable(m: DagManifest, node: DagNode, replies: seq<Reply>)
    ensures var reports := AttemptReports(m, node, replies, 1);
      && (forall r :: r in reports ==> r.nodeId == node.id)
      && ((forall r :: r in reports ==> !Usable(r.status)) <==>
            forall i :: 0 <= i < |replies| ==> !Usable(ReplyStatus(node, replies[i])))
  {
    hide ExecutorLabel, TraceOf, ReplyStatus, ReplyOutputs, Usable, AttemptReports;
    var reports := AttemptReports(m, node, replies, 1);
    forall i | 0 <= i < |replies|
      ensures reports[i] in reports && reports[i].status == ReplyStatus(node, replies[i])
    {
    }
  }

  /** For the attempts of one evaluation: a resume restores the node exactly if it ended usable, if and only if the
      last attempt is usable or none is. */
  lemma AttemptsReplayTheEnd(cx: Context, node: DagNode, io: Io, replies: seq<Reply>)
    requires replies == Attempts(cx, node, io, 1)
    ensures var ev := EvalHandler(cx, node, io);
      (LastReplayable(ev.reports, node.id).Some? <==> Usable(ev.status)) <==>
        (Usable(ev.status) || forall i :: 0 <= i < |replies| ==> !Usable(ReplyStatus(node, replies[i])))
  {
    hide Attempts, ExecutorLabel, TraceOf, ReplyStatus, ReplyOutputs, Usable, AttemptReports;
    var reports := AttemptReports(cx.manifest, node, replies, 1);
    AttemptReportsUsable(cx.manifest, node, replies);
    assert reports[|reports| - 1].status == ReplyStatus(node, replies[|replies| - 1]);
    ReplayTellsTheEnd(reports, node.id);
  }

  /** The reports of one evaluation: only the node's own, replayable at the end exactly when it is usable. */
  ghost predicate ProperReports(node: DagNode, ev: NodeEval) {
    && |ev.reports| > 0 && ev.reports[|ev.reports| - 1].status == ev.status
    && (forall r :: r in ev.reports ==> r.nodeId == node.id)
    && (LastReplayable(ev.reports, node.id).Some? <==> Usable(ev.status))
    && (Usable(ev.status) ==> ReportsOutcome(LastReplayable(ev.reports, node.id).value, node, ev.status, ev.produced, ev.selected))
  }

  lemma LastReportDecides(node: DagNode, ev: NodeEval)
    requires |ev.reports| > 0 && forall r :: r in ev.reports ==> r.nodeId == node.id
    requires ReportsOutcome(ev.reports[|ev.reports| - 1], node, ev.status, ev.produced, ev.selected)
    requires !Usable(ev.status) ==> forall r :: r in ev.reports ==> !Usable(r.status)
    ensures ProperReports(node, ev)
  {
    if Usable(ev.status) {
      LastReplayableEnd(ev.reports, node.id);
    } else {
      LastReplayableNone(ev.reports, node.id);
    }
  }

  lemma OwnAnswerReports(cx: Context, node: DagNode, io: Io, s: map<string, NodeStatus>)
    requires node.kind in {Branch, Gate, Approval}
    ensures ProperReports(node, EvalNode(cx, node, io, s))
  {
    hide ProperReports, LastReplayable;
    var ev := EvalNode(cx, node, io, s);
    assert |ev.reports| == 1 && ReportsOutcome(ev.reports[0], node, ev.status, ev.produced, ev.selected) by {
      match node.kind
      case Branch =>
      case Gate =>
      case Approval =>
    }
    LastReportDecides(node, ev);
  }

  lemma HandlerReports(w: World, n: string, io: Io)
    requires Lawful(w) && n in w.cx.nodes
    ensures ProperReports(w.cx.nodes[n], EvalHandler(w.cx, w.cx.nodes[n], io))
  {
    assert LawfulNode(w, n);
    assert FinalNotWorse(w, n);
    var ev := EvalHandler(w.cx, w.cx.nodes[n], io);
    LastReportDecides(w.cx.nodes[n], ev);
  }

  lemma EvalReports(w: World, n: string, io: Io, s: map<string, NodeStatus>)
    requires Lawful(w) && n in w.cx.nodes
    ensures ProperReports(w.cx.nodes[n], EvalNode(w.cx, w.cx.nodes[n], io, s))
  {
    assert LawfulNode(w, n);
    if w.cx.nodes[n].kind in {Branch, Gate, Approval} {
      OwnAnswerReports(w.cx, w.cx.nodes[n], io, s);
    } else {
      HandlerReports(w, n, io);
    }
  }

  /** Reports about one node set that node's final status to the last of theirs. */
  lemma {:induction false} FinalStatusesAppend(reports: seq<Report>, more: seq<Report>, id: string)
    requires more != [] && forall r :: r in more ==> r.nodeId == id
    ensures FinalStatuses(reports + more) == FinalStatuses(reports)[id := more[|more| - 1].status]
    decreases |more|
  {
    var all := reports + more;
    var last := more[|more| - 1];
    assert last in more;
    assert all[..|all| - 1] == reports + more[..|more| - 1];
    if |more| == 1 {
      assert reports + more[..|more| - 1] == reports;
    } else {
      FinalStatusesAppend(reports, more[..|more| - 1], id);
    }
  }
}
