/** The layered Kahn sort that schedules a manifest, and the graph checks of manifest validation. */
module Layers {
  import opened Results
  import opened Manifest
  import opened Graph

  /** Position of an id in the manifest; a repeated id takes its last position. */
  function NodeOrder(nodes: seq<DagNode>): (order: map<string, nat>)
    ensures order.Keys == NodeIds(nodes)
    ensures forall n :: n in order ==> order[n] < |nodes| && nodes[order[n]].id == n
  {
    if |nodes| == 0 then map[]
    else
      var rest := nodes[..|nodes| - 1];
      assert NodeIds(nodes) == NodeIds(rest) + {nodes[|nodes| - 1].id};
      NodeOrder(rest)[nodes[|nodes| - 1].id := |nodes| - 1]
  }

  /** Node `n` sits in layer `i`. */
  ghost predicate InLayer(layers: seq<seq<string>>, n: string, i: nat) {
    i < |layers| && n in layers[i]
  }

  /** Every node sits in exactly one layer, no layer is empty and no other id is placed. */
  ghost predicate IsPartition(ids: set<string>, layers: seq<seq<string>>) {
    && (forall i :: 0 <= i < |layers| ==> layers[i] != [])
    && (forall i, n :: InLayer(layers, n, i) ==> n in ids)
    && (forall n :: n in ids ==> exists i :: InLayer(layers, n, i))
    && (forall i, j, n :: InLayer(layers, n, i) && InLayer(layers, n, j) ==> i == j)
  }

  ghost predicate OrderedBy(order: map<string, nat>, s: seq<string>) {
    && (forall i :: 0 <= i < |s| ==> s[i] in order)
    && (forall i, j :: 0 <= i < j < |s| ==> order[s[i]] < order[s[j]])
  }

  /** The declared meaning of a layering: a partition of the nodes in which a node's layer index is the
      length of the longest path that ends at it, and each layer keeps manifest order (strictly, so no id repeats). */
  ghost predicate IsLayering(m: DagManifest, layers: seq<seq<string>>) {
    && IsPartition(NodeIds(m.nodes), layers)
    && (forall i, n :: InLayer(layers, n, i) ==> HasHeight(Expand(m.edges), n, i))
    && (forall i :: 0 <= i < |layers| ==> OrderedBy(NodeOrder(m.nodes), layers[i]))
  }

  ghost predicate KnownTargets(m: DagManifest) {
    forall e, t :: e in m.edges && t in e.target.Values() ==> t in NodeIds(m.nodes)
  }

  /** `x` is the first target, in edge order and then list order, that no node declares. */
  ghost predicate FirstUnknownTarget(m: DagManifest, x: string) {
    exists i, j ::
      && 0 <= i < |m.edges| && 0 <= j < |m.edges[i].target.Values()|
      && m.edges[i].target.Values()[j] == x && x !in NodeIds(m.nodes)
      && (forall t :: t in m.edges[i].target.Values()[..j] ==> t in NodeIds(m.nodes))
      && (forall e, t :: e in m.edges[..i] && t in e.target.Values() ==> t in NodeIds(m.nodes))
  }

  /** Insert `x` into a list sorted by `order`. */
  function InsertByOrder(order: map<string, nat>, s: seq<string>, x: string): (r: seq<string>)
    requires OrderedBy(order, s) && x in order
    requires forall y :: y in s ==> order[y] != order[x]
    ensures OrderedBy(order, r)
    ensures forall y :: y in r <==> y == x || y in s
  {
    if |s| == 0 then [x]
    else if order[x] < order[s[0]] then [x] + s
    else
      var r := InsertByOrder(order, s[1..], x);
      assert forall y :: y in r ==> order[s[0]] < order[y];
      [s[0]] + r
  }

  /** Sort the ready ids, taken in arbitrary hash order, by manifest position. */
  method SortByNodeOrder(order: map<string, nat>, ready: set<string>) returns (s: seq<string>)
    requires forall x :: x in ready ==> x in order
    requires forall x, y :: x in ready && y in ready && order[x] == order[y] ==> x == y
    ensures OrderedBy(order, s)
    ensures forall x :: x in s <==> x in ready
  {
    s := [];
    var rest := ready;
    while rest != {}
      invariant rest <= ready
      invariant OrderedBy(order, s)
      invariant forall x :: x in s <==> x in ready - rest
      decreases rest
    {
      var x :| x in rest;
      s := InsertByOrder(order, s, x);
      rest := rest - {x};
    }
  }

  /** Collect, for every node, the sources of the edges that target it. */
  method CollectDependencies(m: DagManifest) returns (r: Result<DepMap, DagError>)
    ensures r.Success? ==> KnownTargets(m) && DepsOf(Expand(m.edges), NodeIds(m.nodes), r.value)
    ensures r.Failure? ==> r.error.MissingNode? && FirstUnknownTarget(m, r.error.node)
  {
    var ids := NodeIds(m.nodes);
    var remaining: map<string, set<string>> := map n | n in ids :: {};
    for i := 0 to |m.edges|
      invariant remaining.Keys == ids
      invariant forall e, t :: e in m.edges[..i] && t in e.target.Values() ==> t in ids
      invariant forall n :: n in ids ==> remaining[n] == Preds(m.edges[..i], n)
    {
      var froms := m.edges[i].source.Values();
      var tos := m.edges[i].target.Values();
      for j := 0 to |tos|
        invariant remaining.Keys == ids
        invariant forall t :: t in tos[..j] ==> t in ids
        invariant forall n :: n in ids ==>
          remaining[n] == Preds(m.edges[..i], n) + if n in tos[..j] then set f | f in froms else {}
      {
        if tos[j] !in remaining {
          return Failure(MissingNode(tos[j]));
        }
        remaining := remaining[tos[j] := remaining[tos[j]] + set f | f in froms];
        assert tos[..j + 1] == tos[..j] + [tos[j]];
      }
      assert tos[..|tos|] == tos;
      assert m.edges[..i + 1] == m.edges[..i] + [m.edges[i]];
    }
    assert m.edges[..|m.edges|] == m.edges;
    forall n, d | n in remaining
      ensures d in remaining[n] <==> IsEdge(Expand(m.edges), d, n)
    {
      PredsAreExpanded(m.edges, d, n);
    }
    r := Success(remaining);
  }

  /** Some edge leaves an id that is not a node. */
  ghost predicate UnknownSource(edges: Edges, ids: set<string>) {
    exists f, t :: IsEdge(edges, f, t) && f !in ids
  }

  /** A cycle, or an edge from an undeclared node. */
  ghost predicate Unschedulable(edges: Edges, ids: set<string>) {
    HasCycle(edges) || UnknownSource(edges, ids)
  }

  type DepMap = map<string, set<string>>

  ghost predicate OneLower(deps: DepMap, level: map<string, nat>, n: string)
    requires n in deps && n in level
  {
    exists d :: d in deps[n] && d in level && level[d] + 1 == level[n]
  }

  ghost predicate AllLower(deps: DepMap, level: map<string, nat>, n: string)
    requires n in deps && n in level
  {
    forall d :: d in deps[n] ==> d in level && level[d] < level[n]
  }

  /** Some dependency of `n` is unplaced or was placed in the last of `k` layers. */
  ghost predicate Recent(deps: DepMap, level: map<string, nat>, k: nat, n: string)
    requires n in deps
  {
    exists d :: d in deps[n] && (d in level ==> level[d] + 1 == k)
  }

  ghost predicate LevelsFollowDeps(deps: DepMap, level: map<string, nat>) {
    && level.Keys <= deps.Keys
    && (forall n {:trigger AllLower(deps, level, n)} :: n in level ==> AllLower(deps, level, n))
    && (forall n {:trigger OneLower(deps, level, n)} :: n in level && level[n] > 0 ==> OneLower(deps, level, n))
  }

  ghost predicate LevelsMatchLayers(order: map<string, nat>, layers: seq<seq<string>>, level: map<string, nat>) {
    && (forall n, i :: InLayer(layers, n, i) <==> n in level && level[n] == i)
    && (forall n :: n in level ==> level[n] < |layers|)
    && (forall i :: 0 <= i < |layers| ==> layers[i] != [] && OrderedBy(order, layers[i]))
  }

  function Ready(remaining: DepMap): set<string> {
    set n | n in remaining && remaining[n] == {}
  }

  /** What the Kahn loop knows after placing `level` in `k` layers. */
  ghost predicate Progress(deps: DepMap, level: map<string, nat>, remaining: DepMap, k: nat) {
    && level.Keys !! remaining.Keys && level.Keys + remaining.Keys == deps.Keys
    && (forall n :: n in level ==> level[n] < k)
    && (forall n :: n in remaining ==> remaining[n] == deps[n] - level.Keys)
    && (forall n {:trigger Recent(deps, level, k, n)} :: n in remaining && k > 0 ==> Recent(deps, level, k, n))
    && LevelsFollowDeps(deps, level)
  }

  function PlaceReady(level: map<string, nat>, ready: set<string>, k: nat): map<string, nat> {
    map n | n in level.Keys + ready :: if n in ready then k else level[n]
  }

  function Retire(remaining: DepMap, ready: set<string>): DepMap {
    map n | n in remaining && n !in ready :: remaining[n] - ready
  }

  lemma PlacedFollowDeps(deps: DepMap, level: map<string, nat>, remaining: DepMap, k: nat, ready: set<string>)
    requires Progress(deps, level, remaining, k)
    requires ready == Ready(remaining)
    ensures LevelsFollowDeps(deps, PlaceReady(level, ready, k))
  {
    var level' := PlaceReady(level, ready, k);
    assert ready !! level.Keys && forall n :: n in level ==> n in level' && level'[n] == level[n];
    forall n | n in level'
      ensures AllLower(deps, level', n)
    {
      if n in level {
        assert AllLower(deps, level, n);
        assert forall d :: d in deps[n] ==> d in level && level'[d] < level'[n];
      } else {
        forall d | d in deps[n]
          ensures d in level
        {
          assert d !in remaining[n];
        }
      }
    }
    forall n | n in level' && level'[n] > 0
      ensures OneLower(deps, level', n)
    {
      if n in level {
        assert OneLower(deps, level, n);
        var d :| d in deps[n] && d in level && level[d] + 1 == level[n];
        assert d in level' && level'[d] + 1 == level'[n];
      } else {
        assert Recent(deps, level, k, n);
        var d :| d in deps[n] && (d in level ==> level[d] + 1 == k);
        assert d in level && d in level' && level'[d] + 1 == level'[n];
      }
    }
  }

  lemma ProgressStep(deps: DepMap, level: map<string, nat>, remaining: DepMap, k: nat, ready: set<string>)
    requires Progress(deps, level, remaining, k)
    requires ready == Ready(remaining)
    ensures Progress(deps, PlaceReady(level, ready, k), Retire(remaining, ready), k + 1)
    ensures ready != {} ==> Retire(remaining, ready).Keys < remaining.Keys
  {
    PlacedFollowDeps(deps, level, remaining, k, ready);
    var level' := PlaceReady(level, ready, k);
    forall n | n in Retire(remaining, ready)
      ensures Recent(deps, level', k + 1, n)
    {
      var d :| d in remaining[n];
      assert d in deps[n] && (d in level' ==> level'[d] == k);
    }
  }

  lemma MatchStep(order: map<string, nat>, layers: seq<seq<string>>, level: map<string, nat>, ready: set<string>, sorted: seq<string>)
    requires LevelsMatchLayers(order, layers, level)
    requires ready != {} && ready !! level.Keys
    requires OrderedBy(order, sorted) && forall n :: n in sorted <==> n in ready
    ensures LevelsMatchLayers(order, layers + [sorted], PlaceReady(level, ready, |layers|))
  {
    var layers' := layers + [sorted];
    var level' := PlaceReady(level, ready, |layers|);
    forall n, i: nat
      ensures InLayer(layers', n, i) <==> n in level' && level'[n] == i
    {
      if i < |layers| {
        assert InLayer(layers', n, i) <==> InLayer(layers, n, i);
      }
    }
    var x :| x in ready;
    assert x in sorted;
  }

  /** The Kahn loop: emit every ready node as a layer until none is left, or nothing is ready. */
  method PeelLayers(order: map<string, nat>, deps: DepMap)
    returns (layers: Option<seq<seq<string>>>, ghost level: map<string, nat>, ghost stuck: DepMap, ghost rounds: nat)
    requires deps.Keys == order.Keys
    requires forall x, y :: x in order && y in order && order[x] == order[y] ==> x == y
    ensures Progress(deps, level, stuck, rounds)
    ensures layers.Some? ==> stuck == map[] && rounds == |layers.value| && LevelsMatchLayers(order, layers.value, level)
    ensures layers.None? ==> stuck != map[] && Ready(stuck) == {}
  {
    var remaining := deps;
    var done: seq<seq<string>> := [];
    level := map[];
    while remaining != map[]
      invariant Progress(deps, level, remaining, |done|)
      invariant LevelsMatchLayers(order, done, level)
      decreases remaining.Keys
    {
      var readySet := Ready(remaining);
      if readySet == {} {
        return None, level, remaining, |done|;
      }
      var ready := SortByNodeOrder(order, readySet);
      ProgressStep(deps, level, remaining, |done|, readySet);
      MatchStep(order, done, level, readySet, ready);
      level := PlaceReady(level, readySet, |done|);
      remaining := Retire(remaining, readySet);
      done := done + [ready];
    }
    return Some(done), level, remaining, |done|;
  }

  /** The layered sort: `Cycle` exactly when a cycle or an undeclared source blocks some node, otherwise
      the unique longest-path layering. */
  method ExecutionLayers(m: DagManifest) returns (r: Result<seq<seq<string>>, DagError>)
    ensures r.Success? ==> IsLayering(m, r.value) && KnownTargets(m) && !Unschedulable(Expand(m.edges), NodeIds(m.nodes))
    ensures r.Failure? ==> r.error.MissingNode? || r.error.Cycle?
    ensures r.Failure? && r.error.MissingNode? ==> FirstUnknownTarget(m, r.error.node)
    ensures r.Failure? && r.error.Cycle? ==> KnownTargets(m) && Unschedulable(Expand(m.edges), NodeIds(m.nodes))
  {
    var deps := CollectDependencies(m);
    if deps.Failure? {
      return Failure(deps.error);
    }
    ghost var edges := Expand(m.edges);
    var layers, level, stuck, rounds := PeelLayers(NodeOrder(m.nodes), deps.value);
    if layers.None? {
      StuckMeansUnschedulable(edges, deps.value, level, stuck, rounds);
      return Failure(Cycle);
    }
    TargetsAreNodes(m);
    FinishedLevelsAreHeights(edges, deps.value, level, rounds);
    FinishedIsLayering(m, layers.value, level);
    r := Success(layers.value);
  }

  lemma TargetsAreNodes(m: DagManifest)
    requires KnownTargets(m)
    ensures forall d, n :: IsEdge(Expand(m.edges), d, n) ==> n in NodeIds(m.nodes)
  {
  }

  ghost predicate DepsOf(edges: Edges, ids: set<string>, deps: DepMap) {
    && deps.Keys == ids
    && forall n, d {:trigger d in deps[n]} {:trigger IsEdge(edges, d, n)} :: n in deps ==> (d in deps[n] <==> IsEdge(edges, d, n))
  }

  /** A node left waiting has a predecessor that is left waiting too. */
  lemma StuckHasPred(edges: Edges, deps: DepMap, level: map<string, nat>, remaining: DepMap, k: nat, n: string)
    requires DepsOf(edges, deps.Keys, deps) && Progress(deps, level, remaining, k) && n in remaining
    requires Ready(remaining) == {} && !UnknownSource(edges, deps.Keys)
    ensures HasPredIn(edges, remaining.Keys, n)
  {
    assert n !in Ready(remaining);
    var d :| d in remaining[n];
    assert d in deps[n];
    assert IsEdge(edges, d, n);
  }

  lemma StuckMeansUnschedulable(edges: Edges, deps: DepMap, level: map<string, nat>, remaining: DepMap, k: nat)
    requires DepsOf(edges, deps.Keys, deps) && Progress(deps, level, remaining, k) && remaining != map[]
    requires Ready(remaining) == {}
    ensures Unschedulable(edges, deps.Keys)
  {
    hide DepsOf, Progress, Ready, HasPredIn, HasCycle, UnknownSource;
    if !UnknownSource(edges, deps.Keys) {
      forall n | n in remaining.Keys
        ensures HasPredIn(edges, remaining.Keys, n)
      {
        StuckHasPred(edges, deps, level, remaining, k, n);
      }
      StuckSetHasCycle(edges, remaining.Keys);
    }
  }

  lemma FinishedLevelsAreHeights(edges: Edges, deps: DepMap, level: map<string, nat>, k: nat)
    requires DepsOf(edges, deps.Keys, deps) && (forall d, n :: IsEdge(edges, d, n) ==> n in deps)
    requires Progress(deps, level, map[], k)
    ensures !Unschedulable(edges, deps.Keys)
    ensures forall n :: n in level ==> HasHeight(edges, n, level[n])
  {
    forall d, n | IsEdge(edges, d, n)
      ensures n in level && d in level && level[d] < level[n]
    {
      assert d in deps[n];
      assert AllLower(deps, level, n);
    }
    forall n | n in level && level[n] > 0
      ensures HasPredOneBelow(edges, level, n)
    {
      assert OneLower(deps, level, n);
      var d :| d in deps[n] && d in level && level[d] + 1 == level[n];
      assert IsEdge(edges, d, n);
    }
    RankExcludesCycle(edges, level);
    forall n | n in level
      ensures HasHeight(edges, n, level[n])
    {
      RankIsHeight(edges, level, n);
    }
  }

  lemma FinishedIsLayering(m: DagManifest, layers: seq<seq<string>>, level: map<string, nat>)
    requires level.Keys == NodeIds(m.nodes)
    requires LevelsMatchLayers(NodeOrder(m.nodes), layers, level)
    requires forall n :: n in level ==> HasHeight(Expand(m.edges), n, level[n])
    ensures IsLayering(m, layers)
  {
    forall n | n in level
      ensures exists i :: InLayer(layers, n, i)
    {
      assert InLayer(layers, n, level[n]);
    }
  }

  /** A list sorted strictly by manifest position is determined by its elements. */
  lemma {:induction false} SortedListUnique(order: map<string, nat>, s: seq<string>, t: seq<string>)
    requires OrderedBy(order, s) && OrderedBy(order, t)
    requires forall x :: x in s <==> x in t
    ensures s == t
  {
    assert t != [] ==> t[0] in t;
    assert s != [] ==> s[0] in s;
    if s != [] {
      assert s[0] == t[0];
      forall x
        ensures x in s[1..] <==> x in t[1..]
      {
        assert x in s <==> x == s[0] || x in s[1..];
        assert x in t <==> x == t[0] || x in t[1..];
      }
      SortedListUnique(order, s[1..], t[1..]);
    }
  }

  lemma LayersAgree(m: DagManifest, a: seq<seq<string>>, b: seq<seq<string>>, n: string, i: nat)
    requires IsLayering(m, a) && IsLayering(m, b) && InLayer(a, n, i)
    ensures InLayer(b, n, i)
  {
    var j :| InLayer(b, n, j);
    HeightUnique(Expand(m.edges), n, i, j);
  }

  /** A manifest has at most one layering: the declared meaning leaves the scheduler no choice. */
  lemma LayeringUnique(m: DagManifest, a: seq<seq<string>>, b: seq<seq<string>>)
    requires IsLayering(m, a) && IsLayering(m, b)
    ensures a == b
  {
    forall i: nat, n
      ensures InLayer(a, n, i) <==> InLayer(b, n, i)
    {
      if InLayer(a, n, i) { LayersAgree(m, a, b, n, i); }
      if InLayer(b, n, i) { LayersAgree(m, b, a, n, i); }
    }
    if |a| > 0 { assert InLayer(a, a[|a| - 1][0], |a| - 1); }
    if |b| > 0 { assert InLayer(b, b[|b| - 1][0], |b| - 1); }
    forall i | 0 <= i < |a|
      ensures a[i] == b[i]
    {
      forall x
        ensures x in a[i] <==> x in b[i]
      {
        assert InLayer(a, x, i) <==> InLayer(b, x, i);
      }
      SortedListUnique(NodeOrder(m.nodes), a[i], b[i]);
    }
  }

  /** Every edge goes from a lower layer to a higher one. */
  lemma EdgesCrossLayers(m: DagManifest, layers: seq<seq<string>>, d: string, n: string, g: nat, h: nat)
    requires IsLayering(m, layers) && IsEdge(Expand(m.edges), d, n)
    requires InLayer(layers, d, g) && InLayer(layers, n, h)
    ensures g < h
  {
    EdgeRaisesHeight(Expand(m.edges), d, n, g, h);
  }
}
