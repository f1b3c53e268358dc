/** The graph checks of manifest validation. */
module Validation {
  import opened Results
  import opened Manifest
  import opened Graph
  import opened Layers

  function Targets(b: BranchPolicy): set<string> {
    (set c, t | c in b.cases && t in b.cases[c] :: t) + set t | t in b.otherwise
  }

  /** The ids a node's own policies refer to. */
  function PolicyRefs(n: DagNode): (refs: set<string>)
    ensures forall x :: x in refs <==>
      || (n.gate.Some? && x in n.gate.value.sources)
      || (n.branch.Some? && (x in n.branch.value.otherwise || exists c :: c in n.branch.value.cases && x in n.branch.value.cases[c]))
  {
    (if n.gate.Some? then set s | s in n.gate.value.sources else {})
    + (if n.branch.Some? then Targets(n.branch.value) else {})
  }

  /** What graph validation demands of a manifest. */
  ghost predicate ValidGraph(m: DagManifest) {
    && m.concurrency != Some(0)
    && UniqueNodeIds(m.nodes)
    && (forall e, x :: e in m.edges && x in e.source.Values() + e.target.Values() ==> x in NodeIds(m.nodes))
    && (forall n :: n in m.nodes ==> PolicyRefs(n) <= NodeIds(m.nodes))
    && !HasCycle(Expand(m.edges))
  }

  /** Which failed demand an error reports. */
  ghost predicate Explains(m: DagManifest, e: DagError) {
    match e
    case InvalidConcurrency => m.concurrency == Some(0)
    case DuplicateNode(id) => exists i, j :: 0 <= i < j < |m.nodes| && m.nodes[i].id == m.nodes[j].id == id
    case MissingNode(id) =>
      && id !in NodeIds(m.nodes)
      && ((exists e :: e in m.edges && id in e.source.Values() + e.target.Values())
          || exists n :: n in m.nodes && id in PolicyRefs(n))
    case Cycle => HasCycle(Expand(m.edges))
  }

  method ValidateGraph(m: DagManifest) returns (r: Result<seq<seq<string>>, DagError>)
    ensures r.Success? <==> ValidGraph(m)
    ensures r.Success? ==> IsLayering(m, r.value)
    ensures r.Failure? ==> Explains(m, r.error)
  {
    if m.concurrency == Some(0) {
      return Failure(InvalidConcurrency);
    }
    var ids: set<string> := {};
    for i := 0 to |m.nodes|
      invariant ids == NodeIds(m.nodes[..i])
      invariant UniqueNodeIds(m.nodes[..i])
    {
      if m.nodes[i].id in ids {
        return Failure(DuplicateNode(m.nodes[i].id));
      }
      ids := ids + {m.nodes[i].id};
    }
    assert m.nodes[..|m.nodes|] == m.nodes;
    for i := 0 to |m.edges|
      invariant forall e, x :: e in m.edges[..i] && x in e.source.Values() + e.target.Values() ==> x in ids
    {
      var ends := m.edges[i].source.Values() + m.edges[i].target.Values();
      for j := 0 to |ends|
        invariant forall x :: x in ends[..j] ==> x in ids
      {
        if ends[j] !in ids {
          assert m.edges[i] in m.edges && ends[j] in m.edges[i].source.Values() + m.edges[i].target.Values();
          return Failure(MissingNode(ends[j]));
        }
      }
      assert ends[..|ends|] == ends;
      assert m.edges[..i + 1] == m.edges[..i] + [m.edges[i]];
    }
    assert m.edges[..|m.edges|] == m.edges;
    for i := 0 to |m.nodes|
      invariant forall n :: n in m.nodes[..i] ==> PolicyRefs(n) <= ids
    {
      var unknown := PolicyRefs(m.nodes[i]) - ids;
      if unknown != {} {
        var x :| x in unknown;
        assert m.nodes[i] in m.nodes && x in PolicyRefs(m.nodes[i]);
        return Failure(MissingNode(x));
      }
      forall x | x in PolicyRefs(m.nodes[i])
        ensures x in ids
      {
        assert x !in unknown;
      }
      assert m.nodes[..i + 1] == m.nodes[..i] + [m.nodes[i]];
    }
    EndsAreExpanded(m);
    r := ExecutionLayers(m);
  }

  lemma EndsAreExpanded(m: DagManifest)
    requires forall e, x :: e in m.edges && x in e.source.Values() + e.target.Values() ==> x in NodeIds(m.nodes)
    ensures KnownTargets(m) && !UnknownSource(Expand(m.edges), NodeIds(m.nodes))
  {
    forall e, t | e in m.edges && t in e.target.Values()
      ensures t in NodeIds(m.nodes)
    {
      assert t in e.source.Values() + e.target.Values();
    }
    if f, t :| IsEdge(Expand(m.edges), f, t) && f !in NodeIds(m.nodes) {
      assert false;
    }
  }
}
