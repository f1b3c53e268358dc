/** The CLI commands that edit a manifest and re-validate it. */
module ManifestEdits {
  import opened Results
  import opened Manifest
  import opened Graph
  import opened GraphEdits
  import opened Layers
  import opened Validation

  // ---- Edge edits ----

  /** Drop the ids in `gone`; an end left empty disappears and a single survivor becomes `One`. */
  function StripOneOrMany(ends: OneOrMany, gone: set<string>): (r: Option<OneOrMany>)
    ensures r.None? <==> forall x :: x in ends.Values() ==> x in gone
    ensures r.Some? ==> forall x :: x in r.value.Values() <==> x in ends.Values() && x !in gone
  {
    match ends
    case One(id) => if id in gone then None else Some(One(id))
    case Many(ids) =>
      var kept := Keep(ids, gone);
      assert |kept| > 0 ==> kept[0] in kept;
      if |kept| == 0 then None
      else if |kept| == 1 then Some(One(kept[0]))
      else Some(Many(kept))
  }

  function Keep(ids: seq<string>, gone: set<string>): (kept: seq<string>)
    ensures forall x :: x in kept <==> x in ids && x !in gone
  {
    if |ids| == 0 then []
    else (if ids[0] in gone then [] else [ids[0]]) + Keep(ids[1..], gone)
  }

  /** Survivors keep their order: dropping ids from two lists in turn is dropping them from both together. */
  lemma {:induction false} KeepInOrder(a: seq<string>, b: seq<string>, gone: set<string>)
    ensures Keep(a + b, gone) == Keep(a, gone) + Keep(b, gone)
    ensures |a| == 1 ==> Keep(a, gone) == if a[0] in gone then [] else a
  {
    if a == [] {
      assert a + b == b;
    } else {
      assert (a + b)[1..] == a[1..] + b;
      KeepInOrder(a[1..], b, gone);
    }
  }

  /** An edge survives only when both of its ends do. */
  function StripEdge(edge: DagEdge, gone: set<string>): seq<DagEdge> {
    var source, target := StripOneOrMany(edge.source, gone), StripOneOrMany(edge.target, gone);
    if source.Some? && target.Some? then [DagEdge(source.value, target.value)] else []
  }

  function StripEdges(edges: seq<DagEdge>, gone: set<string>): seq<DagEdge> {
    if |edges| == 0 then [] else StripEdge(edges[0], gone) + StripEdges(edges[1..], gone)
  }

  method StripAll(edges: seq<DagEdge>, gone: set<string>) returns (kept: seq<DagEdge>)
    ensures kept == StripEdges(edges, gone)
  {
    hide StripEdge;
    kept := [];
    for i := 0 to |edges|
      invariant kept + StripEdges(edges[i..], gone) == StripEdges(edges, gone)
    {
      StripStep(kept, edges, i, gone);
      kept := kept + StripEdge(edges[i], gone);
    }
  }

  lemma StripStep(kept: seq<DagEdge>, edges: seq<DagEdge>, i: nat, gone: set<string>)
    requires i < |edges|
    ensures kept + StripEdges(edges[i..], gone) == kept + StripEdge(edges[i], gone) + StripEdges(edges[i + 1..], gone)
  {
    hide StripEdge;
    assert edges[i..][1..] == edges[i + 1..];
  }

  function RetainNodes(nodes: seq<DagNode>, gone: set<string>): (kept: seq<DagNode>)
    ensures forall n :: n in kept <==> n in nodes && n.id !in gone
    ensures UniqueNodeIds(nodes) ==> UniqueNodeIds(kept)
  {
    if |nodes| == 0 then []
    else
      var rest := RetainNodes(nodes[1..], gone);
      assert forall n :: n in rest ==> n in nodes[1..];
      assert UniqueNodeIds(nodes) ==> UniqueNodeIds(nodes[1..]) && forall n :: n in nodes[1..] ==> n.id != nodes[0].id;
      (if nodes[0].id in gone then [] else [nodes[0]]) + rest
  }

  /** Surviving nodes and edges keep their order, too. */
  lemma {:induction false} RetainInOrder(a: seq<DagNode>, b: seq<DagNode>, gone: set<string>)
    ensures RetainNodes(a + b, gone) == RetainNodes(a, gone) + RetainNodes(b, gone)
    ensures |a| == 1 ==> RetainNodes(a, gone) == if a[0].id in gone then [] else a
  {
    hide UniqueNodeIds;
    if a == [] {
      assert a + b == b;
    } else {
      assert (a + b)[0] == a[0] && (a + b)[1..] == a[1..] + b;
      RetainInOrder(a[1..], b, gone);
    }
  }

  lemma {:induction false} StripInOrder(a: seq<DagEdge>, b: seq<DagEdge>, gone: set<string>)
    ensures StripEdges(a + b, gone) == StripEdges(a, gone) + StripEdges(b, gone)
  {
    if a == [] {
      assert a + b == b;
    } else {
      assert (a + b)[1..] == a[1..] + b;
      StripInOrder(a[1..], b, gone);
    }
  }

  /** What is left of an edge end: a single survivor is named alone, several stay a list in their order. */
  lemma StrippedForm(ends: OneOrMany, gone: set<string>)
    ensures var kept := Keep(ends.Values(), gone);
      StripOneOrMany(ends, gone) == if kept == [] then None else if |kept| == 1 then Some(One(kept[0])) else Some(Many(kept))
  {
  }

  /** Removing a node set leaves exactly the expanded edges with both ends kept. */
  lemma {:induction false} StripExpands(edges: seq<DagEdge>, gone: set<string>)
    ensures forall f, t :: (f, t) in Expand(StripEdges(edges, gone)) <==> (f, t) in Expand(edges) && f !in gone && t !in gone
    ensures Expand(StripEdges(edges, gone)) <= Expand(edges)
  {
    if |edges| > 0 {
      StripExpands(edges[1..], gone);
      var head := [edges[0]];
      ExpandConcat(head, edges[1..]);
      assert edges == head + edges[1..];
      var source, target := StripOneOrMany(edges[0].source, gone), StripOneOrMany(edges[0].target, gone);
      var stripped := StripEdge(edges[0], gone);
      ExpandConcat(stripped, StripEdges(edges[1..], gone));
      forall f, t
        ensures (f, t) in Expand(stripped) <==> (f, t) in Expand(head) && f !in gone && t !in gone
      {
        ExpandSingle(edges[0]);
        if source.Some? && target.Some? {
          ExpandSingle(stripped[0]);
        }
      }
    }
  }

  lemma ExpandConcat(a: seq<DagEdge>, b: seq<DagEdge>)
    ensures Expand(a + b) == Expand(a) + Expand(b)
  {
  }

  lemma ExpandSingle(e: DagEdge)
    ensures forall f, t :: (f, t) in Expand([e]) <==> f in e.source.Values() && t in e.target.Values()
  {
    assert e in [e];
  }

  // ---- Edit commands ----

  datatype EditError = RoleExists | NodeExists | NoSuchRole | Invalid(error: DagError)

  function OneEdges(sources: seq<string>, targets: seq<string>): (edges: seq<DagEdge>)
    requires |sources| == |targets|
  {
    seq(|sources|, i requires 0 <= i < |sources| => DagEdge(One(sources[i]), One(targets[i])))
  }

  function Copies(n: string, k: nat): (ids: seq<string>)
    ensures |ids| == k && forall x :: x in ids ==> x == n
  {
    seq(k, _ => n)
  }

  /** The edge list after `push_edges`. */
  function PushedEdges(n: string, after: seq<string>, before: seq<string>): seq<DagEdge> {
    OneEdges(after, Copies(n, |after|)) + OneEdges(Copies(n, |before|), before)
  }

  function Elements(s: seq<string>): set<string> {
    set x | x in s
  }

  lemma PushedExpand(edges: seq<DagEdge>, n: string, after: seq<string>, before: seq<string>)
    ensures Expand(edges + PushedEdges(n, after, before)) == Attach(Expand(edges), n, Elements(after), Elements(before))
  {
    var ins, outs := OneEdges(after, Copies(n, |after|)), OneEdges(Copies(n, |before|), before);
    ExpandConcat(edges, ins + outs);
    ExpandConcat(ins, outs);
    OneEdgesExpand(after, Copies(n, |after|));
    OneEdgesExpand(Copies(n, |before|), before);
    assert Expand(ins) == set a | a in Elements(after) :: (a, n);
    assert Expand(outs) == set b | b in Elements(before) :: (n, b);
  }

  lemma OneEdgesExpand(sources: seq<string>, targets: seq<string>)
    requires |sources| == |targets|
    ensures Expand(OneEdges(sources, targets)) == set i | 0 <= i < |sources| :: (sources[i], targets[i])
  {
    var edges := OneEdges(sources, targets);
    forall i | 0 <= i < |sources|
      ensures (sources[i], targets[i]) in Expand(edges)
    {
      assert edges[i] in edges && edges[i] == DagEdge(One(sources[i]), One(targets[i]));
    }
  }

  function AgentNode(id: string, kind: NodeKind): DagNode {
    DagNode(id, kind, Some(id), None, None, [], false, None, None, None, None, None, None)
  }

  /** The manifest after the add command, before validation. */
  function WithAgent(m: DagManifest, role: string, kind: NodeKind, after: seq<string>, before: seq<string>): DagManifest {
    m.(roles := m.roles + [role],
       nodes := m.nodes + [AgentNode(role, kind)],
       edges := m.edges + PushedEdges(role, after, before))
  }

  /** An added agent keeps a valid graph valid exactly when its neighbours are old nodes and no `before`
      node equals or reaches an `after` node. */
  lemma AddKeepsValid(m: DagManifest, role: string, kind: NodeKind, after: seq<string>, before: seq<string>)
    requires ValidGraph(m) && role !in NodeIds(m.nodes)
    ensures ValidGraph(WithAgent(m, role, kind, after, before))
            <==> Elements(after) + Elements(before) <= NodeIds(m.nodes)
                 && !LeadsBack(Expand(m.edges), Elements(after), Elements(before))
  {
    hide HasCycle, LeadsBack, PushedEdges, Expand, Attach, IsEdge;
    var m' := WithAgent(m, role, kind, after, before);
    var ids, ids' := NodeIds(m.nodes), NodeIds(m'.nodes);
    var pushed := PushedEdges(role, after, before);
    assert ids' == ids + {role} by {
      assert m'.nodes[|m.nodes|].id == role;
      assert forall i :: 0 <= i < |m.nodes| ==> m'.nodes[i] == m.nodes[i];
    }
    PushedExpand(m.edges, role, after, before);
    assert Untouched(Expand(m.edges), role) by {
      EndsAreExpanded(m);
      TargetsAreNodes(m);
    }
    AttachCycle(Expand(m.edges), role, Elements(after), Elements(before));
    PushedEnds(role, after, before);
    assert forall e :: e in m'.edges <==> e in m.edges || e in pushed;
    assert forall n :: n in m'.nodes ==> n in m.nodes || n == AgentNode(role, kind);
    if ValidGraph(m') {
      assert role !in after && role !in before;
      forall x | x in Elements(after) + Elements(before)
        ensures x in ids
      {
        var e :| e in pushed && x in e.source.Values() + e.target.Values();
        assert e in m'.edges;
      }
    }
    if Elements(after) + Elements(before) <= ids {
      forall e, x | e in m'.edges && x in e.source.Values() + e.target.Values()
        ensures x in ids'
      {
        if e in pushed {
          assert x == role || x in Elements(after) + Elements(before);
        }
      }
      assert forall n :: n in m.nodes ==> n in m'.nodes;
    }
  }

  lemma PushedEnds(n: string, after: seq<string>, before: seq<string>)
    ensures forall e, x :: e in PushedEdges(n, after, before) && x in e.source.Values() + e.target.Values()
              ==> x == n || x in Elements(after) + Elements(before)
    ensures forall x :: x in Elements(after) + Elements(before)
              ==> exists e :: e in PushedEdges(n, after, before) && x in e.source.Values() + e.target.Values()
  {
    var pushed := PushedEdges(n, after, before);
    forall x | x in Elements(after) + Elements(before)
      ensures exists e :: e in pushed && x in e.source.Values() + e.target.Values()
    {
      if x in after {
        var i :| 0 <= i < |after| && after[i] == x;
        assert pushed[i] in pushed && x in pushed[i].source.Values() + pushed[i].target.Values();
      } else {
        var i :| 0 <= i < |before| && before[i] == x;
        assert pushed[|after| + i] in pushed && x in pushed[|after| + i].source.Values() + pushed[|after| + i].target.Values();
      }
    }
  }

  function RoleNodes(nodes: seq<DagNode>, role: string): set<string> {
    set i | 0 <= i < |nodes| && nodes[i].role == Some(role) :: nodes[i].id
  }

  function WithoutNodes(m: DagManifest, gone: set<string>): DagManifest {
    m.(nodes := RetainNodes(m.nodes, gone), edges := StripEdges(m.edges, gone))
  }

  /** Removing nodes keeps a valid graph valid exactly when no surviving policy refers to a removed node. */
  lemma RemoveKeepsValid(m: DagManifest, gone: set<string>)
    requires ValidGraph(m)
    ensures ValidGraph(WithoutNodes(m, gone))
            <==> forall n :: n in m.nodes && n.id !in gone ==> PolicyRefs(n) !! gone
  {
    hide HasCycle, PolicyRefs, UniqueNodeIds, RetainNodes, StripEdges, Expand;
    var m' := WithoutNodes(m, gone);
    var ids, ids' := NodeIds(m.nodes), NodeIds(m'.nodes);
    RetainedIds(m.nodes, gone);
    StripExpands(m.edges, gone);
    SubgraphKeepsAcyclic(Expand(m'.edges), Expand(m.edges));
    StrippedEnds(m.edges, gone);
    assert ids' == ids - gone;
    forall e, x | e in m'.edges && x in e.source.Values() + e.target.Values()
      ensures x in ids'
    {
      assert x !in gone && exists e' :: e' in m.edges && x in e'.source.Values() + e'.target.Values();
    }
    assert forall n :: n in m'.nodes <==> n in m.nodes && n.id !in gone;
    forall n | n in m'.nodes
      ensures PolicyRefs(n) <= ids' <==> PolicyRefs(n) !! gone
    {
      assert n in m.nodes && PolicyRefs(n) <= ids;
    }
  }

  /** Removing nodes moves no surviving node to a later layer. */
  lemma RemoveLowersLayers(m: DagManifest, gone: set<string>)
    ensures forall n, g, h :: HasHeight(Expand(StripEdges(m.edges, gone)), n, g) && HasHeight(Expand(m.edges), n, h) ==> g <= h
  {
    StripExpands(m.edges, gone);
    forall n, g, h | HasHeight(Expand(StripEdges(m.edges, gone)), n, g) && HasHeight(Expand(m.edges), n, h)
      ensures g <= h
    {
      SubgraphLowersHeight(Expand(StripEdges(m.edges, gone)), Expand(m.edges), n, g, h);
    }
  }

  lemma RetainedIds(nodes: seq<DagNode>, gone: set<string>)
    ensures NodeIds(RetainNodes(nodes, gone)) == NodeIds(nodes) - gone
  {
    var kept := RetainNodes(nodes, gone);
    forall x | x in NodeIds(nodes) - gone
      ensures x in NodeIds(kept)
    {
      var i :| 0 <= i < |nodes| && nodes[i].id == x;
      assert nodes[i] in kept;
    }
    forall x | x in NodeIds(kept)
      ensures x in NodeIds(nodes) - gone
    {
      var i :| 0 <= i < |kept| && kept[i].id == x;
      assert kept[i] in nodes && kept[i].id !in gone;
    }
  }

  lemma {:induction false} StrippedEnds(edges: seq<DagEdge>, gone: set<string>)
    ensures forall e', x :: e' in StripEdges(edges, gone) && x in e'.source.Values() + e'.target.Values()
              ==> x !in gone && exists e :: e in edges && x in e.source.Values() + e.target.Values()
  {
    if |edges| > 0 {
      StrippedEnds(edges[1..], gone);
      forall e', x | e' in StripEdges(edges, gone) && x in e'.source.Values() + e'.target.Values()
        ensures x !in gone && exists e :: e in edges && x in e.source.Values() + e.target.Values()
      {
        if e' in StripEdges(edges[1..], gone) {
          var e :| e in edges[1..] && x in e.source.Values() + e.target.Values();
          assert e in edges;
        } else {
          assert edges[0] in edges && x in edges[0].source.Values() + edges[0].target.Values();
        }
      }
    }
  }

  /** The manifest a CLI edit command loads, changes in memory and re-validates. */
  class ManifestDraft {
    var manifest: DagManifest

    constructor (m: DagManifest)
      ensures manifest == m
    {
      manifest := m;
    }

    method PushEdges(n: string, after: seq<string>, before: seq<string>)
      modifies this
      ensures manifest == old(manifest).(edges := old(manifest.edges) + PushedEdges(n, after, before))
      ensures Expand(manifest.edges) == Attach(Expand(old(manifest.edges)), n, Elements(after), Elements(before))
    {
      hide Expand, Attach;
      var edges := manifest.edges;
      for i := 0 to |after|
        invariant edges == manifest.edges + OneEdges(after, Copies(n, |after|))[..i]
      {
        edges := edges + [DagEdge(One(after[i]), One(n))];
      }
      for i := 0 to |before|
        invariant edges == manifest.edges + OneEdges(after, Copies(n, |after|)) + OneEdges(Copies(n, |before|), before)[..i]
      {
        edges := edges + [DagEdge(One(n), One(before[i]))];
      }
      PushedExpand(manifest.edges, n, after, before);
      assert edges == manifest.edges + PushedEdges(n, after, before);
      manifest := manifest.(edges := edges);
    }

    method RemoveNodesAndEdges(gone: set<string>)
      modifies this
      ensures manifest == WithoutNodes(old(manifest), gone)
    {
      manifest := manifest.(nodes := RetainNodes(manifest.nodes, gone));
      var kept := StripAll(manifest.edges, gone);
      manifest := manifest.(edges := kept);
    }

    /** Add an agent role with one node: accepted exactly when role and node are new, its neighbours are
        declared nodes and no `before` node equals or reaches an `after` node. */
    method AddAgent(role: string, kind: NodeKind, after: seq<string>, before: seq<string>)
      returns (r: Result<seq<seq<string>>, EditError>)
      requires ValidGraph(manifest)
      modifies this
      ensures r.Success? <==>
        && role !in old(manifest.roles)
        && role !in NodeIds(old(manifest.nodes))
        && Elements(after) + Elements(before) <= NodeIds(old(manifest.nodes))
        && !LeadsBack(Expand(old(manifest.edges)), Elements(after), Elements(before))
      ensures r.Success? ==> manifest == WithAgent(old(manifest), role, kind, after, before) && IsLayering(manifest, r.value)
      ensures r.Success? ==>
        && manifest.roles == old(manifest.roles) + [role]
        && manifest.nodes == old(manifest.nodes) + [DagNode(role, kind, Some(role), None, None, [], false, None, None, None, None, None, None)]
      ensures r == Failure(RoleExists) <==> role in old(manifest.roles)
      ensures r == Failure(NodeExists) <==> role !in old(manifest.roles) && role in NodeIds(old(manifest.nodes))
      ensures r.Failure? && r.error.Invalid? ==> Explains(WithAgent(old(manifest), role, kind, after, before), r.error.error)
    {
      if role in manifest.roles {
        return Failure(RoleExists);
      }
      if role in NodeIds(manifest.nodes) {
        return Failure(NodeExists);
      }
      AddKeepsValid(manifest, role, kind, after, before);
      manifest := manifest.(roles := manifest.roles + [role]);
      manifest := manifest.(nodes := manifest.nodes + [AgentNode(role, kind)]);
      PushEdges(role, after, before);
      assert manifest == WithAgent(old(manifest), role, kind, after, before);
      var layers := ValidateGraph(manifest);
      r := if layers.Success? then Success(layers.value) else Failure(Invalid(layers.error));
    }

    /** Remove an agent role with its nodes: accepted exactly when the role exists and no surviving policy
        names a removed node; no surviving node moves to a later layer. */
    method RemoveAgent(role: string) returns (r: Result<seq<seq<string>>, EditError>)
      requires ValidGraph(manifest)
      modifies this
      ensures r.Success? <==>
        && role in old(manifest.roles)
        && forall n :: n in old(manifest.nodes) && n.role != Some(role) ==> PolicyRefs(n) !! RoleNodes(old(manifest.nodes), role)
      ensures r == Failure(NoSuchRole) <==> role !in old(manifest.roles)
      ensures r.Success? ==>
        && manifest == WithoutNodes(old(manifest), RoleNodes(old(manifest.nodes), role)).(roles := Keep(old(manifest.roles), {role}))
        && IsLayering(manifest, r.value)
        && forall n, i, h :: InLayer(r.value, n, i) && HasHeight(Expand(old(manifest.edges)), n, h) ==> i <= h
    {
      hide HasHeight, ValidGraph, IsLayering, Expand, PolicyRefs, Keep;
      var kept := Keep(manifest.roles, {role});
      if |kept| == |manifest.roles| {
        KeepLength(manifest.roles, {role});
        return Failure(NoSuchRole);
      }
      KeepLength(manifest.roles, {role});
      var gone := RoleNodes(manifest.nodes, role);
      RemoveKeepsValid(manifest, gone);
      RemoveLowersLayers(manifest, gone);
      RoleNodesExact(manifest, role);
      manifest := manifest.(roles := kept);
      RemoveNodesAndEdges(gone);
      RolesDoNotMatter(WithoutNodes(old(manifest), gone), kept);
      var layers := ValidateGraph(manifest);
      r := if layers.Success? then Success(layers.value) else Failure(Invalid(layers.error));
    }
  }

  /** With unique ids, the ids of a role's nodes are the ids of no other node. */
  lemma RoleNodesExact(m: DagManifest, role: string)
    requires ValidGraph(m)
    ensures forall n :: n in m.nodes ==> (n.id in RoleNodes(m.nodes, role) <==> n.role == Some(role))
  {
    hide Expand, HasCycle, PolicyRefs;
  }

  lemma RolesDoNotMatter(m: DagManifest, roles: seq<string>)
    ensures ValidGraph(m.(roles := roles)) <==> ValidGraph(m)
  {
  }

  lemma {:induction false} KeepLength(ids: seq<string>, gone: set<string>)
    ensures |Keep(ids, gone)| <= |ids|
    ensures |Keep(ids, gone)| == |ids| <==> forall x :: x in ids ==> x !in gone
  {
    if |ids| > 0 {
      KeepLength(ids[1..], gone);
      assert ids == [ids[0]] + ids[1..];
    }
  }
}
