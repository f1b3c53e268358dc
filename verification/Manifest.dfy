/** The manifest a DAG is loaded from: nodes, tools and One/Many edges. */
module Manifest {
  import opened Results

  datatype NodeKind =
    | PrepareInputs | Agent | Synthesizer | Verify | Gate | RenderArtifacts | ModerationReady
    | IngestSource | Tool | Artifact | DagCall | Loop | Branch | Map | Approval

  datatype NodeStatus = Pending | Running | AwaitingApproval | Ok | Degraded | Failed | Skipped

  datatype ToolExecutor =
    | Rust | Cli | Shell | Python | RustBinary | Llm | Http | Lean | Haskell | Docker | Wasm | ApprovalGate

  datatype GatePolicy = GatePolicy(minUsable: Option<nat>, sources: seq<string>)
  datatype LoopPolicy = LoopPolicy(maxRounds: nat, continueKey: string)
  datatype BranchPolicy = BranchPolicy(decisionKey: string, cases: map<string, seq<string>>, otherwise: seq<string>)
  datatype MapPolicy = MapPolicy(itemsKey: string, itemKey: string, indexKey: string, maxItems: nat)
  datatype ApprovalPolicy = ApprovalPolicy(approvedKey: string)
  datatype RetryPolicy = RetryPolicy(maxAttempts: nat)
  datatype ToolPolicy = ToolPolicy(budgetUnits: Option<nat>, approvalRequired: bool)

  datatype DagTool = DagTool(id: string, executor: ToolExecutor, policy: Option<ToolPolicy>)

  datatype DagNode = DagNode(
    id: string,
    kind: NodeKind,
    role: Option<string>,
    tool: Option<string>,
    childDag: Option<string>,
    outputs: seq<string>,
    required: bool,
    gate: Option<GatePolicy>,
    loopPolicy: Option<LoopPolicy>,
    branch: Option<BranchPolicy>,
    mapPolicy: Option<MapPolicy>,
    approval: Option<ApprovalPolicy>,
    retry: Option<RetryPolicy>)

  /** An edge end names one node or a list of nodes. */
  datatype OneOrMany = One(id: string) | Many(ids: seq<string>) {
    function Values(): seq<string> {
      match this
      case One(id) => [id]
      case Many(ids) => ids
    }
  }

  datatype DagEdge = DagEdge(source: OneOrMany, target: OneOrMany)

  datatype DagManifest = DagManifest(
    id: string,
    concurrency: Option<nat>,
    tools: seq<DagTool>,
    roles: seq<string>,
    nodes: seq<DagNode>,
    edges: seq<DagEdge>)

  datatype DagError =
    | InvalidConcurrency
    | DuplicateNode(node: string)
    | MissingNode(node: string)
    | Cycle

  function NodeIds(nodes: seq<DagNode>): (ids: set<string>)
    ensures forall i :: 0 <= i < |nodes| ==> nodes[i].id in ids
  {
    set i | 0 <= i < |nodes| :: nodes[i].id
  }

  /** The node ids an edge list declares as direct predecessors of `n`, over the One/Many cross product. */
  function Preds(edges: seq<DagEdge>, n: string): set<string> {
    set e, f | e in edges && n in e.target.Values() && f in e.source.Values() :: f
  }

  /** Every (source, target) pair of the One/Many cross products. */
  function Expand(edges: seq<DagEdge>): set<(string, string)> {
    set e, f, t | e in edges && f in e.source.Values() && t in e.target.Values() :: (f, t)
  }

  lemma PredsAreExpanded(edges: seq<DagEdge>, f: string, n: string)
    ensures f in Preds(edges, n) <==> (f, n) in Expand(edges)
  {
  }

  predicate UniqueNodeIds(nodes: seq<DagNode>) {
    forall i, j :: 0 <= i < j < |nodes| ==> nodes[i].id != nodes[j].id
  }
}
