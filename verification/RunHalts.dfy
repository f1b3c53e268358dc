/** Where and why a fresh run stops: cancelled at a check, paused at a node that waits, or at the end of its layers. */
module RunHalts {
  import opened Results
  import opened Manifest
  import opened Layers
  import opened Json
  import opened DagIo
  import opened NodeRules
  import opened Executor
  import opened Locality
  import opened RunMoves
  import opened Reference

  function Ids(s: seq<string>): set<string> {
    set id | id in s
  }

  lemma IdsMore(x: string, s: seq<string>)
    ensures Ids([x] + s) == {x} + Ids(s) && Ids([]) == {}
  {
  }

  predicate EndedAs(st: RunState, id: string, status: NodeStatus) {
    id in st.statuses && st.statuses[id] == status
  }

  /** None of the first `n` nodes of the layer waits for approval. */
  predicate NoneWaits(st: RunState, layer: seq<string>, n: nat) {
    forall m :: 0 <= m < n && m < |layer| ==> !EndedAs(st, layer[m], AwaitingApproval)
  }

  /** A dependency did not end usable, or was a branch that selected other nodes. */
  predicate HeldBack(cx: Context, id: string, st: RunState)
    requires id in cx.deps
  {
    exists d :: d in cx.deps[id] &&
      (EndedAs(st, d, Failed) || EndedAs(st, d, Skipped) || EndedAs(st, d, AwaitingApproval) || (d in st.selections && id !in st.selections[d]))
  }

  /** The nodes of a layer run together: several of them, none answered by the executor itself, budgeted or held back. */
  ghost predicate RunTogether(cx: Context, layer: seq<string>, st: RunState)
    requires Knows(cx, layer)
  {
    && |layer| > 1
    && forall id :: id in layer ==>
         && cx.nodes[id].kind !in {Branch, Gate, Approval, Loop, Map}
         && NodeBudget(cx.manifest, cx.nodes[id]).None?
         && !HeldBack(cx, id, st)
  }

  /** Layer `k` ended after its first `n` nodes. Its start looks for cancellation first. Nodes that run together pause
      when one of them waits and none failed; otherwise cancellation is looked for before each node, and the first
      node that waits pauses the run. */
  ghost predicate LayerEnds(cx: Context, layer: seq<string>, k: nat, n: nat, p: Progress, cancel: CancelSignal)
    requires Knows(cx, layer)
  {
    var st := p.st;
    var paused, cancelled := p.Halted? && p.why == Pause, p.Halted? && p.why == Cancel;
    && n <= |layer|
    && if cancel(k, 0) then n == 0 && cancelled
       else if RunTogether(cx, layer, st) then
         && n == |layer| && !cancelled
         && (paused <==> (exists id :: id in layer && EndedAs(st, id, AwaitingApproval)) && !(exists id :: id in layer && EndedAs(st, id, Failed)))
       else
         && (forall c :: 0 < c <= n ==> !cancel(k, c)) && (n > 0 ==> NoneWaits(st, layer, n - 1))
         && (paused <==> n > 0 && EndedAs(st, layer[n - 1], AwaitingApproval))
         && (cancelled <==> n < |layer| && cancel(k, n + 1) && NoneWaits(st, layer, n))
         && (p.Going? <==> n == |layer| && NoneWaits(st, layer, n))
  }

  /** What `st` says about handled nodes still holds in `st'`. */
  ghost predicate Keeps(st: RunState, st': RunState) {
    forall d :: d in st.statuses ==>
      && d in st'.statuses && st'.statuses[d] == st.statuses[d]
      && (d in st'.selections <==> d in st.selections) && (d in st.selections ==> st'.selections[d] == st.selections[d])
  }

  ghost predicate Distinct(ids: seq<string>) {
    forall j, k :: 0 <= j < k < |ids| ==> ids[j] != ids[k]
  }

  /** The nodes are new, and all that they depend on has been handled. */
  ghost predicate New(cx: Context, ids: seq<string>, j: nat, st: RunState)
    requires Knows(cx, ids)
  {
    && (forall m :: j <= m < |ids| ==> ids[m] !in st.statuses)
    && (forall id :: id in ids ==> cx.deps[id] <= st.statuses.Keys)
  }

  lemma RecordKeeps(cx: Context, id: string, ev: NodeEval, st: RunState)
    requires id in cx.nodes && id !in st.statuses
    ensures Keeps(st, Record(cx, id, ev, st)) && Record(cx, id, ev, st).statuses.Keys == st.statuses.Keys + {id}
  {
    hide Settle;
  }

  lemma StepKeeps(cx: Context, id: string, st: RunState)
    requires id in cx.nodes && id in cx.deps && id !in st.statuses
    ensures Keeps(st, StepNode(cx, id, st)) && StepNode(cx, id, st).statuses.Keys == st.statuses.Keys + {id}
  {
    hide EvalNode, Skips, SkipReport, Record, Keeps;
    if Skips(cx, id, st) {
      SkipKeeps(cx, id, st);
    } else {
      RecordKeeps(cx, id, EvalNode(cx, cx.nodes[id], st.outputs, st.statuses), st);
    }
  }

  lemma SkipKeeps(cx: Context, id: string, st: RunState)
    requires id in cx.nodes && id !in st.statuses
    ensures Keeps(st, Skip(cx, id, st)) && Skip(cx, id, st).statuses.Keys == st.statuses.Keys + {id}
  {
    hide SkipReport;
  }

  lemma KeepsOn(st: RunState, mid: RunState, st': RunState)
    requires Keeps(st, mid) && Keeps(mid, st')
    ensures Keeps(st, st')
  {
  }

  lemma HeldBackMeans(cx: Context, id: string, st: RunState)
    requires id in cx.deps
    ensures HeldBack(cx, id, st) <==> Skips(cx, id, st)
  {
  }

  lemma HeldBackKeeps(cx: Context, id: string, st: RunState, st': RunState)
    requires id in cx.deps && cx.deps[id] <= st.statuses.Keys && Keeps(st, st')
    ensures HeldBack(cx, id, st) <==> HeldBack(cx, id, st')
  {
    forall d | d in cx.deps[id]
      ensures d in st.statuses
    {
    }
  }

  lemma TogetherMeans(cx: Context, layer: seq<string>, st: RunState, st': RunState)
    requires Knows(cx, layer) && New(cx, layer, |layer|, st) && Keeps(st, st')
    ensures RunTogether(cx, layer, st') <==> CanRunConcurrently(cx, layer, st)
  {
    hide HeldBack, Skips, NodeBudget, Keeps;
    forall id | id in layer
      ensures HeldBack(cx, id, st') <==> Skips(cx, id, st)
      ensures cx.nodes[id].kind !in {Branch, Gate, Approval, Loop, Map} <==> IsOrdinary(cx.nodes[id])
    {
      HeldBackKeeps(cx, id, st, st');
      HeldBackMeans(cx, id, st);
    }
  }

  /** A pass over a layer node by node ends after its first `n` nodes. */
  ghost predicate PassEnds(layer: seq<string>, i: nat, j: nat, n: nat, st: RunState, p: Progress, cancel: CancelSignal) {
    && j <= n <= |layer|
    && Keeps(st, p.st) && p.st.statuses.Keys == st.statuses.Keys + Ids(layer[j..n])
    && (forall c :: j < c <= n ==> !cancel(i, c))
    && (forall m :: j <= m < n - 1 ==> !EndedAs(p.st, layer[m], AwaitingApproval))
    && match p
       case Going(_) => n == |layer| && (n > j ==> !EndedAs(p.st, layer[n - 1], AwaitingApproval))
       case Halted(_, Pause) => n > j && EndedAs(p.st, layer[n - 1], AwaitingApproval)
       case Halted(_, Cancel) => n < |layer| && cancel(i, n + 1) && (n > j ==> !EndedAs(p.st, layer[n - 1], AwaitingApproval))
  }

  lemma {:induction false} PassStops(cx: Context, layer: seq<string>, i: nat, j: nat, st: RunState, cancel: CancelSignal) returns (n: nat)
    requires j <= |layer| && Knows(cx, layer) && Distinct(layer) && forall m :: j <= m < |layer| ==> layer[m] !in st.statuses
    ensures PassEnds(layer, i, j, n, st, RunSequential(cx, layer, i, j, st, cancel), cancel)
    decreases |layer| - j
  {
    hide StepNode;
    var p := RunSequential(cx, layer, i, j, st, cancel);
    if j == |layer| || cancel(i, j + 1) {
      n := j;
      assert layer[j..j] == [] && Ids(layer[j..j]) == {};
      KeepsSelf(st);
    } else {
      var x := layer[j];
      StepKeeps(cx, x, st);
      var st' := StepNode(cx, x, st);
      assert layer[j..j + 1] == [x] && Ids([x]) == {x};
      if st'.statuses[x] == AwaitingApproval {
        n := j + 1;
      } else {
        n := PassStops(cx, layer, i, j + 1, st', cancel);
        PassLonger(layer, i, j, n, st, st', p, cancel);
      }
    }
  }

  lemma PassLonger(layer: seq<string>, i: nat, j: nat, n: nat, st: RunState, st': RunState, p: Progress, cancel: CancelSignal)
    requires j < |layer| && PassEnds(layer, i, j + 1, n, st', p, cancel) && !cancel(i, j + 1)
    requires Keeps(st, st') && st'.statuses.Keys == st.statuses.Keys + {layer[j]} && st'.statuses[layer[j]] != AwaitingApproval
    ensures PassEnds(layer, i, j, n, st, p, cancel)
  {
    assert layer[j..n] == [layer[j]] + layer[j + 1..n];
    IdsMore(layer[j], layer[j + 1..n]);
    assert layer[j] in st'.statuses && !EndedAs(p.st, layer[j], AwaitingApproval);
    KeepsOn(st, st', p.st);
  }

  lemma {:induction false} RecordAllKeeps(cx: Context, ids: seq<string>, j: nat, snapshot: Io, st: RunState)
    requires j <= |ids| && Knows(cx, ids) && Distinct(ids) && forall m :: j <= m < |ids| ==> ids[m] !in st.statuses
    ensures var st' := RecordAll(cx, ids, j, snapshot, st);
      Keeps(st, st') && st'.statuses.Keys == st.statuses.Keys + Ids(ids[j..])
    decreases |ids| - j
  {
    hide Record, EvalHandler, Keeps, Ids;
    IdsMore("", []);
    if j == |ids| {
      assert ids[j..] == [];
      KeepsSelf(st);
    } else {
      var ev := EvalHandler(cx, cx.nodes[ids[j]], snapshot);
      RecordKeeps(cx, ids[j], ev, st);
      RecordAllKeeps(cx, ids, j + 1, snapshot, Record(cx, ids[j], ev, st));
      KeepsOn(st, Record(cx, ids[j], ev, st), RecordAll(cx, ids, j, snapshot, st));
      assert ids[j..] == [ids[j]] + ids[j + 1..];
      IdsMore(ids[j], ids[j + 1..]);
    }
  }

  lemma KeepsSelf(st: RunState)
    ensures Keeps(st, st)
  {
  }

  lemma PassIsEnd(cx: Context, layer: seq<string>, k: nat, n: nat, st: RunState, p: Progress, cancel: CancelSignal)
    requires Knows(cx, layer) && PassEnds(layer, k, 0, n, st, p, cancel) && !cancel(k, 0) && !RunTogether(cx, layer, p.st)
    ensures LayerEnds(cx, layer, k, n, p, cancel)
  {
    hide RunTogether, Keeps, Ids;
  }

  lemma LayerStops(cx: Context, layer: seq<string>, k: nat, st: RunState, cancel: CancelSignal) returns (n: nat)
    requires Knows(cx, layer) && Distinct(layer) && New(cx, layer, 0, st)
    ensures var p := RunLayer(cx, layer, k, st, None, cancel);
      && LayerEnds(cx, layer, k, n, p, cancel) && Keeps(st, p.st)
      && p.st.statuses.Keys == st.statuses.Keys + Ids(layer[..n]) && n <= |layer| && (p.Going? ==> n == |layer|)
  {
    hide Keeps, RunSequential, RecordAll, CanRunConcurrently, RunTogether, Ids;
    var p := RunLayer(cx, layer, k, st, None, cancel);
    KeepsSelf(st);
    if cancel(k, 0) {
      n := 0;
      IdsMore("", layer);
    } else if CanRunConcurrently(cx, layer, st) {
      n := |layer|;
      RecordAllKeeps(cx, layer, 0, st.outputs, st);
      assert layer[0..] == layer && layer[..n] == layer;
      TogetherMeans(cx, layer, st, p.st);
    } else {
      n := PassStops(cx, layer, k, 0, st, cancel);
      assert layer[0..n] == layer[..n];
      TogetherMeans(cx, layer, st, p.st);
      PassIsEnd(cx, layer, k, n, st, p, cancel);
    }
  }

  lemma EndsKeeps(cx: Context, layer: seq<string>, k: nat, before: RunState, st: RunState, st': RunState, cancel: CancelSignal)
    requires Knows(cx, layer) && New(cx, layer, |layer|, before) && Keeps(before, st) && Keeps(st, st')
    requires LayerEnds(cx, layer, k, |layer|, Going(st), cancel) && forall id :: id in layer ==> id in st.statuses
    ensures LayerEnds(cx, layer, k, |layer|, Going(st'), cancel)
  {
    hide RunTogether, CanRunConcurrently;
    KeepsOn(before, st, st');
    TogetherMeans(cx, layer, before, st);
    TogetherMeans(cx, layer, before, st');
    assert forall id, s :: id in layer ==> (EndedAs(st, id, s) <==> EndedAs(st', id, s));
  }

  /** The nodes of the layers from `i` to below `k`, and the first `n` of layer `k`. */
  function Between(layers: seq<seq<string>>, i: nat, k: nat, n: nat): set<string>
    requires i <= k <= |layers| && n <= (if k < |layers| then |layers[k]| else 0)
  {
    (set l, id | l in layers[i..k] && id in l :: id) + if n == 0 then {} else Ids(layers[k][..n])
  }

  /** A run of the layers from `i` stopped after `n` nodes of layer `k`; `k` is past the last layer when it did not stop. */
  ghost predicate Stops(cx: Context, layers: seq<seq<string>>, done: set<string>, i: nat, k: nat, n: nat, p: Progress, cancel: CancelSignal)
    requires Layered(cx, layers)
  {
    && i <= k <= |layers| && n <= (if k < |layers| then |layers[k]| else 0)
    && p.st.statuses.Keys == done + Between(layers, i, k, n)
    && (p.Going? <==> k == |layers|)
    && (forall a :: i <= a < k ==> LayerEnds(cx, layers[a], a, |layers[a]|, Going(p.st), cancel))
    && (k < |layers| ==> LayerEnds(cx, layers[k], k, n, p, cancel))
  }

  lemma LayerIsNew(w: World, i: nat, st: RunState)
    requires Indexed(w) && Layered(w.cx, w.layers) && i < |w.layers| && DoneBelow(w, i, st.statuses.Keys)
    ensures Knows(w.cx, w.layers[i]) && Distinct(w.layers[i]) && New(w.cx, w.layers[i], 0, st)
  {
    forall id | id in w.layers[i]
      ensures id !in st.statuses && id in w.cx.deps && w.cx.deps[id] <= st.statuses.Keys
    {
      assert InLayer(w.layers, id, i);
      LayerPreds(w, i, id, st.statuses.Keys);
    }
  }

  lemma {:induction false} LayersStop(w: World, i: nat, st: RunState, cancel: CancelSignal) returns (k: nat, n: nat)
    requires Indexed(w) && Layered(w.cx, w.layers) && i <= |w.layers| && DoneBelow(w, i, st.statuses.Keys)
    ensures var p := RunLayers(w.cx, w.layers, i, st, None, cancel);
      Stops(w.cx, w.layers, st.statuses.Keys, i, k, n, p, cancel) && Keeps(st, p.st)
    decreases |w.layers| - i
  {
    hide Indexed, RunLayer, LayerEnds, Keeps, New, Distinct, DoneBelow;
    KeepsSelf(st);
    if i == |w.layers| {
      k, n := i, 0;
    } else {
      var layer := w.layers[i];
      LayerIsNew(w, i, st);
      n := LayerStops(w.cx, layer, i, st, cancel);
      var p := RunLayer(w.cx, layer, i, st, None, cancel);
      if p.Halted? {
        k := i;
        assert w.layers[i..i] == [];
        assert Between(w.layers, i, k, n) == Ids(layer[..n]);
      } else {
        assert layer[..n] == layer;
        LayersDisjoint(w, i, layer, st.statuses.Keys);
        k, n := LayersStop(w, i + 1, p.st, cancel);
        var q := RunLayers(w.cx, w.layers, i, st, None, cancel);
        KeepsOn(st, p.st, q.st);
        NewLater(w.cx, layer, st);
        EndsKeeps(w.cx, layer, i, st, p.st, q.st, cancel);
        BetweenMore(w.layers, i, k, n);
      }
    }
  }

  lemma NewLater(cx: Context, layer: seq<string>, st: RunState)
    requires Knows(cx, layer) && New(cx, layer, 0, st)
    ensures New(cx, layer, |layer|, st)
  {
  }

  lemma BetweenMore(layers: seq<seq<string>>, i: nat, k: nat, n: nat)
    requires i < k <= |layers| && n <= (if k < |layers| then |layers[k]| else 0)
    ensures Between(layers, i, k, n) == Ids(layers[i]) + Between(layers, i + 1, k, n)
  {
    assert layers[i..k] == [layers[i]] + layers[i + 1..k];
  }

  /** Every fresh run stops somewhere: the nodes handled are those of the layers before and the first few of the layer
      where it stopped, and each layer ended as its cancellation checks and waiting nodes say. */
  lemma FreshRunStops(w: World, input: Io, cancel: CancelSignal)
    requires Indexed(w) && Layered(w.cx, w.layers)
    ensures var p := RunFresh(w.cx, w.layers, input, cancel);
      exists k: nat, n: nat :: Stops(w.cx, w.layers, {}, 0, k, n, p, cancel)
  {
    hide Indexed, RunLayers, Stops;
    var none := Fresh(input).statuses.Keys;
    assert none == {};
    assert DoneBelow(w, 0, none);
    var k, n := LayersStop(w, 0, Fresh(input), cancel);
    assert Stops(w.cx, w.layers, none, 0, k, n, RunFresh(w.cx, w.layers, input, cancel), cancel);
  }

  /** No layer that a run went past or into was cancelled at its start, unless it stopped there. */
  lemma PassedStart(cx: Context, layers: seq<seq<string>>, k: nat, n: nat, p: Progress, cancel: CancelSignal, a: nat)
    requires Layered(cx, layers) && Stops(cx, layers, {}, 0, k, n, p, cancel) && a < |layers| && (a < k || (a == k && (p.Going? || n > 0)))
    ensures !cancel(a, 0)
  {
    hide RunTogether, NoneWaits, EndedAs, Between;
    assert LayerEnds(cx, layers[a], a, if a < k then |layers[a]| else n, if a < k then Going(p.st) else p, cancel);
  }

  ghost predicate NoneHandled(layers: seq<seq<string>>, a: nat, st: RunState) {
    forall b, id :: a <= b < |layers| && id in layers[b] ==> id !in st.statuses
  }

  /** A layer whose start is cancelled is not entered, nor any after it; and only a request to cancel cancels a run. */
  lemma CancelIsHeeded(w: World, input: Io, cancel: CancelSignal)
    requires Indexed(w) && Layered(w.cx, w.layers)
    ensures var p := RunFresh(w.cx, w.layers, input, cancel);
      && (forall a: nat :: a < |w.layers| && cancel(a, 0) ==> !p.Going? && NoneHandled(w.layers, a, p.st))
      && (p.Going? || p.why == Pause || exists k: nat, c: nat :: cancel(k, c) && k < |w.layers| && c <= |w.layers[k]|)
  {
    hide Indexed, RunLayers, RunTogether, NoneWaits, EndedAs, Between;
    FreshRunStops(w, input, cancel);
    var p := RunFresh(w.cx, w.layers, input, cancel);
    var k: nat, n: nat :| Stops(w.cx, w.layers, {}, 0, k, n, p, cancel);
    forall a: nat | a < |w.layers| && cancel(a, 0)
      ensures !p.Going? && NoneHandled(w.layers, a, p.st)
    {
      if a < k || (a == k && n > 0) {
        PassedStart(w.cx, w.layers, k, n, p, cancel, a);
      }
      forall b, id | a <= b < |w.layers| && id in w.layers[b]
        ensures id !in p.st.statuses
      {
        NotBetween(w, k, n, b, id);
      }
    }
    if !p.Going? && p.why != Pause {
      assert LayerEnds(w.cx, w.layers[k], k, n, p, cancel);
      assert cancel(k, 0) || (n < |w.layers[k]| && cancel(k, n + 1));
    }
  }

  lemma NotBetween(w: World, k: nat, n: nat, b: nat, id: string)
    requires Indexed(w) && k <= b < |w.layers| && n <= |w.layers[k]| && (k == b ==> n == 0) && id in w.layers[b]
    ensures id !in Between(w.layers, 0, k, n)
  {
    assert InLayer(w.layers, id, b);
    forall a | 0 <= a < k
      ensures id !in w.layers[a]
    {
      if id in w.layers[a] {
        assert InLayer(w.layers, id, a);
      }
    }
    if id in w.layers[k] {
      assert InLayer(w.layers, id, k);
    }
  }
}
