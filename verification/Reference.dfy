/** A finished uninterrupted run satisfies every node's own rule against its final state. */
module Reference {
  import opened Results
  import opened Manifest
  import opened Graph
  import opened Layers
  import opened DagIo
  import opened NodeRules
  import opened Executor
  import opened Locality
  import opened RunMoves

  ghost predicate OwnSame(w: World, n: string, a: Io, b: Io) {
    forall k {:trigger SameSlot(a, b, k)} :: OwnedBy(w, k, n) ==> SameSlot(a, b, k)
  }

  ghost predicate OwnEmpty(w: World, n: string, a: Io) {
    forall k {:trigger EmptySlot(a, k)} :: OwnedBy(w, k, n) ==> EmptySlot(a, k)
  }

  ghost predicate UnownedSame(w: World, a: Io, b: Io) {
    forall k {:trigger SameSlot(a, b, k)} :: Unowned(w, k) ==> SameSlot(a, b, k)
  }

  ghost function NodeOutcome(w: World, n: string, st: RunState): NodeEval
    requires n in w.cx.nodes
  {
    EvalNode(w.cx, w.cx.nodes[n], st.outputs, st.statuses)
  }

  /** Status, selection and outputs recorded for `n` are what evaluating it on the state `st` itself gives. */
  ghost predicate Recorded(w: World, n: string, st: RunState, ev: NodeEval) {
    && n in st.statuses && st.statuses[n] == ev.status
    && OwnSame(w, n, st.outputs, ev.produced)
    && (n in st.selections <==> ev.selected.Some?)
    && (n in st.selections ==> st.selections[n] == ev.selected.value)
  }

  /** A node is skipped exactly when a branch deselects it or a predecessor blocks it, and otherwise carries
      the outcome of its own evaluation. */
  ghost predicate RuleHolds(w: World, n: string, st: RunState)
    requires n in w.cx.nodes && n in w.cx.deps
  {
    if Skips(w.cx, n, st) then
      n in st.statuses && st.statuses[n] == Skipped && n !in st.selections && OwnEmpty(w, n, st.outputs)
    else Recorded(w, n, st, NodeOutcome(w, n, st))
  }

  /** Every handled node follows its rule; nothing else has left a trace. */
  ghost predicate Settled(w: World, input: Io, st: RunState) {
    && w.cx.nodes.Keys == w.cx.deps.Keys
    && st.statuses.Keys <= w.cx.nodes.Keys
    && st.selections.Keys <= st.statuses.Keys
    && (forall n {:trigger RuleHolds(w, n, st)} :: n in st.statuses ==> RuleHolds(w, n, st))
    && (forall n :: n in st.statuses ==> w.cx.deps[n] <= st.statuses.Keys)
    && (forall n {:trigger OwnEmpty(w, n, st.outputs)} :: n in w.cx.nodes && n !in st.statuses ==> OwnEmpty(w, n, st.outputs))
    && UnownedSame(w, st.outputs, input)
  }

  lemma {:induction false} AncestorsHandled(w: World, done: set<string>, p: seq<string>, a: string, n: string)
    requires Indexed(w) && done <= w.cx.deps.Keys && forall x :: x in done ==> w.cx.deps[x] <= done
    requires PathBetween(w.edges, p, a, n) && n in done
    ensures a in done
    decreases |p|
  {
    var d := p[|p| - 2];
    assert IsEdge(w.edges, d, n);
    assert d in w.cx.deps[n];
    if |p| > 2 {
      AncestorsHandled(w, done, p[..|p| - 1], a, d);
    }
  }

  lemma UnhandledUnreached(w: World, done: set<string>, x: string, n: string)
    requires Indexed(w) && done <= w.cx.deps.Keys && forall y :: y in done ==> w.cx.deps[y] <= done
    requires n in done && x !in done
    ensures !Reaches(w.edges, x, n)
  {
    if Reaches(w.edges, x, n) {
      var p :| PathBetween(w.edges, p, x, n);
      AncestorsHandled(w, done, p, x, n);
    }
  }

  lemma NoSelfReach(w: World, x: string)
    requires Indexed(w) && x in w.cx.nodes
    ensures !Reaches(w.edges, x, x)
  {
    if Reaches(w.edges, x, x) {
      var g: nat :| InLayer(w.layers, x, g);
      ReachesLower(w, x, x, g, g);
    }
  }

  /** A move of a foreign node leaves what `n` evaluates to unchanged. */
  lemma OutcomeUnchanged(w: World, x: string, n: string, a: RunState, b: RunState)
    requires Lawful(w) && n in w.cx.nodes && ChangesOnly(w, x, a, b) && !Reaches(w.edges, x, n)
    ensures NodeOutcome(w, n, a) == NodeOutcome(w, n, b)
  {
    hide EvalNode, Lawful, Indexed, Hidden, OwnedBy;
    ForeignMoveAgrees(w, x, n, a, b);
    assert SourcesAgree(w, n, a.statuses, b.statuses);
    EvalAgrees(w, n, a.outputs, a.statuses, b.outputs, b.statuses);
  }

  lemma OwnKeysDisjoint(w: World, x: string, n: string, a: Io, b: Io)
    requires Lawful(w) && x != n
    requires forall k {:trigger SameSlot(a, b, k)} :: !OwnedBy(w, k, x) ==> SameSlot(a, b, k)
    ensures OwnSame(w, n, a, b)
    ensures OwnEmpty(w, n, a) ==> OwnEmpty(w, n, b)
  {
    hide EvalNode, Indexed, LawfulNode;
    forall k | OwnedBy(w, k, n)
      ensures SameSlot(a, b, k)
    {
      assert !OwnedBy(w, k, x);
    }
    if OwnEmpty(w, n, a) {
      forall k | OwnedBy(w, k, n)
        ensures EmptySlot(b, k)
      {
        assert SameSlot(a, b, k) && EmptySlot(a, k);
      }
    }
  }

  lemma OwnSameTransitive(w: World, n: string, a: Io, b: Io, c: Io)
    requires OwnSame(w, n, a, b) && OwnSame(w, n, b, c)
    ensures OwnSame(w, n, a, c)
  {
    forall k | OwnedBy(w, k, n)
      ensures SameSlot(a, c, k)
    {
      assert SameSlot(a, b, k) && SameSlot(b, c, k);
    }
  }

  lemma OwnSameSymmetric(w: World, n: string, a: Io, b: Io)
    requires OwnSame(w, n, a, b)
    ensures OwnSame(w, n, b, a)
  {
    forall k | OwnedBy(w, k, n)
      ensures SameSlot(b, a, k)
    {
      assert SameSlot(a, b, k);
    }
  }

  /** A handled node's rule survives a move of a node handled later. */
  lemma RuleSurvives(w: World, x: string, n: string, a: RunState, b: RunState)
    requires Lawful(w) && n in w.cx.nodes && n in w.cx.deps && n != x
    requires RuleHolds(w, n, a) && ChangesOnly(w, x, a, b)
    requires x !in w.cx.deps[n] && !Reaches(w.edges, x, n)
    ensures RuleHolds(w, n, b)
  {
    hide EvalNode, Lawful, OwnSame, OwnEmpty, NodeOutcome;
    assert Skips(w.cx, n, a) == Skips(w.cx, n, b);
    OutcomeUnchanged(w, x, n, a, b);
    OwnKeysDisjoint(w, x, n, a.outputs, b.outputs);
    if !Skips(w.cx, n, a) {
      OwnSameSymmetric(w, n, a.outputs, b.outputs);
      OwnSameTransitive(w, n, b.outputs, a.outputs, NodeOutcome(w, n, a).produced);
    }
  }

  /** The node just handled follows its rule in the state it leaves. */
  lemma RuleEstablished(w: World, x: string, st: RunState)
    requires Lawful(w) && x in w.cx.nodes && x in w.cx.deps
    requires x !in st.statuses && x !in st.selections && OwnEmpty(w, x, st.outputs)
    ensures RuleHolds(w, x, StepNode(w.cx, x, st))
  {
    hide EvalNode, Lawful, SameSlot;
    var st' := StepNode(w.cx, x, st);
    StepChangesOnly(w, x, st);
    NoSelfEdge(w, x);
    OutcomeUnchanged(w, x, x, st, st');
    assert Skips(w.cx, x, st) == Skips(w.cx, x, st');
    if !Skips(w.cx, x, st) {
      EvalShape(w, x, st.outputs, st.statuses);
      var ev := NodeOutcome(w, x, st);
      RecordChangesOnly(w, x, ev, st);
      MergeOntoEmpty(w, x, st.outputs, ev.produced);
    }
  }

  lemma NoSelfEdge(w: World, x: string)
    requires Lawful(w) && x in w.cx.nodes && x in w.cx.deps
    ensures x !in w.cx.deps[x] && !Reaches(w.edges, x, x)
  {
    NoSelfReach(w, x);
    if x in w.cx.deps[x] {
      EdgeReaches(w.edges, x, x);
    }
  }

  lemma MergeOntoEmpty(w: World, x: string, base: Io, produced: Io)
    requires OwnEmpty(w, x, base)
    ensures OwnSame(w, x, Merge(base, produced), produced)
  {
    forall k | OwnedBy(w, k, x)
      ensures SameSlot(Merge(base, produced), produced, k)
    {
      assert EmptySlot(base, k);
    }
  }

  lemma SettledStep(w: World, input: Io, x: string, st: RunState)
    requires Lawful(w) && Settled(w, input, st)
    requires x in w.cx.nodes && x !in st.statuses && w.cx.deps[x] <= st.statuses.Keys
    ensures Settled(w, input, StepNode(w.cx, x, st))
    ensures StepNode(w.cx, x, st).statuses.Keys == st.statuses.Keys + {x}
  {
    hide EvalNode, Lawful, RuleHolds, OwnEmpty, SameSlot, Skips, Indexed;
    var st' := StepNode(w.cx, x, st);
    StepChangesOnly(w, x, st);
    RuleEstablished(w, x, st);
    forall n | n in st'.statuses && n != x
      ensures RuleHolds(w, n, st')
    {
      assert n in st.statuses && RuleHolds(w, n, st);
      LawfulIndexed(w);
      UnhandledUnreached(w, st.statuses.Keys, x, n);
      RuleSurvives(w, x, n, st, st');
    }
    forall n | n in w.cx.nodes && n !in st'.statuses
      ensures OwnEmpty(w, n, st'.outputs)
    {
      OwnKeysDisjoint(w, x, n, st.outputs, st'.outputs);
    }
    UnownedSurvives(w, x, input, st.outputs, st'.outputs);
  }

  lemma LawfulIndexed(w: World)
    requires Lawful(w)
    ensures Indexed(w)
  {
  }

  lemma UnownedSurvives(w: World, x: string, input: Io, a: Io, b: Io)
    requires UnownedSame(w, a, input)
    requires forall k {:trigger SameSlot(a, b, k)} :: !OwnedBy(w, k, x) ==> SameSlot(a, b, k)
    ensures UnownedSame(w, b, input)
  {
    forall k | Unowned(w, k)
      ensures SameSlot(b, input, k)
    {
      assert !OwnedBy(w, k, x);
      assert SameSlot(a, b, k) && SameSlot(a, input, k);
    }
  }

  lemma {:induction false} SettledMoves(w: World, input: Io, moves: seq<Move>, st: RunState)
    requires Lawful(w) && Settled(w, input, st) && MovesKnown(w, None, moves)
    requires Orderly(w, st.statuses.Keys, moves) && FirstVisits(st.statuses.Keys, moves)
    ensures Settled(w, input, Apply(w, None, moves, st))
    ensures Apply(w, None, moves, st).statuses.Keys == st.statuses.Keys + Moved(moves)
    decreases |moves|
  {
    hide EvalNode, Lawful, Settled, StepNode;
    if moves != [] {
      var x := moves[0].id;
      assert moves[0] in moves;
      SettledStep(w, input, x, st);
      SettledMoves(w, input, moves[1..], StepNode(w.cx, x, st));
      assert moves == [moves[0]] + moves[1..];
      assert Moved(moves) == {x} + Moved(moves[1..]);
    }
  }

  // ---- Whole fresh runs ----

  /** The handled nodes are those of the layers below `i`. */
  ghost predicate DoneBelow(w: World, i: nat, done: set<string>) {
    && done <= w.cx.nodes.Keys
    && (forall n, g: nat :: InLayer(w.layers, n, g) ==> (n in done <==> g < i))
  }

  /** A layer holds an awaiting node in a finished run only if it ran concurrently next to a failed node. */
  ghost predicate AwaitingExplained(w: World, layer: seq<string>, statuses: map<string, NodeStatus>)
    requires Knows(w.cx, layer)
  {
    SomeStatus(layer, statuses, AwaitingApproval) ==>
      && |layer| > 1
      && (forall id :: id in layer ==> IsOrdinary(w.cx.nodes[id]) && NodeBudget(w.cx.manifest, w.cx.nodes[id]).None?)
      && (forall id :: id in layer ==> id in statuses && statuses[id] != Skipped)
      && SomeStatus(layer, statuses, Failed)
  }

  lemma {:induction false} SequentialNoAwaiting(cx: Context, layer: seq<string>, i: nat, j: nat, st: RunState, cancel: CancelSignal)
    requires j <= |layer| && Knows(cx, layer)
    requires forall a, b :: 0 <= a < b < |layer| ==> layer[a] != layer[b]
    requires RunSequential(cx, layer, i, j, st, cancel).Going?
    ensures var st' := RunSequential(cx, layer, i, j, st, cancel).st;
      && (forall id :: id in layer[j..] ==> id in st'.statuses && st'.statuses[id] != AwaitingApproval)
      && (forall id :: id !in layer[j..] ==> (id in st.statuses <==> id in st'.statuses)
                                             && (id in st.statuses ==> st.statuses[id] == st'.statuses[id]))
    decreases |layer| - j
  {
    hide EvalNode, Skips;
    if j < |layer| {
      SequentialNoAwaiting(cx, layer, i, j + 1, StepNode(cx, layer[j], st), cancel);
      assert layer[j] !in layer[j + 1..];
      assert layer[j..] == [layer[j]] + layer[j + 1..];
    }
  }

  lemma {:induction false} RecordAllStatuses(w: World, ids: seq<string>, j: nat, snapshot: Io, st: RunState)
    requires Lawful(w) && j <= |ids| && Knows(w.cx, ids)
    requires forall id :: id in ids[..j] ==> id in st.statuses && st.statuses[id] != Skipped
    ensures forall id :: id in ids ==> id in RecordAll(w.cx, ids, j, snapshot, st).statuses
                                       && RecordAll(w.cx, ids, j, snapshot, st).statuses[id] != Skipped
    decreases |ids| - j
  {
    hide EvalHandler, Lawful, Settle;
    if j < |ids| {
      HandlerOutcome(w, ids[j], snapshot);
      var st1 := Record(w.cx, ids[j], EvalHandler(w.cx, w.cx.nodes[ids[j]], snapshot), st);
      assert ids[..j + 1] == ids[..j] + [ids[j]];
      RecordAllStatuses(w, ids, j + 1, snapshot, st1);
    } else {
      assert ids[..j] == ids;
    }
  }

  lemma LayerAwaitingExplained(w: World, i: nat, st: RunState, cancel: CancelSignal)
    requires Lawful(w) && Layered(w.cx, w.layers) && i < |w.layers|
    requires RunLayer(w.cx, w.layers[i], i, st, None, cancel).Going?
    ensures AwaitingExplained(w, w.layers[i], RunLayer(w.cx, w.layers[i], i, st, None, cancel).st.statuses)
  {
    hide EvalHandler, EvalNode, Lawful, RecordAll, RunSequential, Skips;
    var layer := w.layers[i];
    LawfulIndexed(w);
    UnfinishedOneLayer(w, i, None);
    if CanRunConcurrently(w.cx, layer, st) {
      RecordAllStatuses(w, layer, 0, st.outputs, st);
    } else {
      SequentialNoAwaiting(w.cx, layer, i, 0, st, cancel);
      assert layer[0..] == layer;
    }
  }

  lemma {:induction false} MovesKeepStatuses(w: World, moves: seq<Move>, st: RunState, done: set<string>)
    requires MovesKnown(w, None, moves) && FirstVisits(done, moves)
    ensures forall n :: n in done && n in st.statuses ==>
      n in Apply(w, None, moves, st).statuses && Apply(w, None, moves, st).statuses[n] == st.statuses[n]
    decreases |moves|
  {
    hide EvalNode, Skips, Settle;
    if moves != [] {
      assert moves[0] in moves;
      MovesKeepStatuses(w, moves[1..], StepNode(w.cx, moves[0].id, st), done + {moves[0].id});
    }
  }

  /** One layer of a fresh run keeps every rule and handles exactly its nodes. */
  lemma FreshLayer(w: World, input: Io, i: nat, st: RunState, cancel: CancelSignal) returns (moves: seq<Move>)
    requires Lawful(w) && Layered(w.cx, w.layers) && i < |w.layers| && NeverCancelled(cancel)
    requires Settled(w, input, st) && DoneBelow(w, i, st.statuses.Keys)
    ensures var p := RunLayer(w.cx, w.layers[i], i, st, None, cancel);
      && MovesKnown(w, None, moves) && FirstVisits(st.statuses.Keys, moves)
      && p.st == Apply(w, None, moves, st)
      && Settled(w, input, p.st)
      && (p.Going? ==> DoneBelow(w, i + 1, p.st.statuses.Keys) && AwaitingExplained(w, w.layers[i], p.st.statuses))
  {
    hide EvalNode, Lawful, Settled, RunLayer, Indexed, RuleHolds, AwaitingExplained;
    LawfulIndexed(w);
    UnfinishedOneLayer(w, i, None);
    assert LowerDone(w, i, st.statuses.Keys);
    var ids := EvalMoves(w, i, st, None, st.statuses.Keys, cancel);
    moves := Steps(ids);
    assert forall id :: id in ids ==> InLayer(w.layers, id, i) && id !in st.statuses;
    SettledMoves(w, input, moves, st);
    var p := RunLayer(w.cx, w.layers[i], i, st, None, cancel);
    if p.Going? {
      LayerAwaitingExplained(w, i, st, cancel);
      LayersDisjoint(w, i, ids, st.statuses.Keys);
    }
  }

  lemma LayersDisjoint(w: World, i: nat, ids: seq<string>, done: set<string>)
    requires Indexed(w) && i < |w.layers| && DoneBelow(w, i, done)
    requires forall id :: id in ids <==> id in w.layers[i]
    ensures DoneBelow(w, i + 1, done + set id | id in ids)
  {
    forall n, g: nat | InLayer(w.layers, n, g)
      ensures n in done + (set id | id in ids) <==> g < i + 1
    {
      if n in w.layers[i] {
        assert InLayer(w.layers, n, i);
      }
    }
    forall id | id in ids
      ensures id in w.cx.nodes
    {
      assert InLayer(w.layers, id, i);
    }
  }

  /** An uninterrupted run ends with every node following its rule. */
  lemma {:induction false} FreshRun(w: World, input: Io, i: nat, st: RunState, cancel: CancelSignal)
    requires Lawful(w) && Layered(w.cx, w.layers) && i <= |w.layers| && NeverCancelled(cancel)
    requires Settled(w, input, st) && DoneBelow(w, i, st.statuses.Keys)
    requires forall g :: 0 <= g < i ==> AwaitingExplained(w, w.layers[g], st.statuses)
    ensures var p := RunLayers(w.cx, w.layers, i, st, None, cancel);
      && Settled(w, input, p.st)
      && (p.Going? ==> p.st.statuses.Keys == w.cx.nodes.Keys
                       && forall g :: 0 <= g < |w.layers| ==> AwaitingExplained(w, w.layers[g], p.st.statuses))
    decreases |w.layers| - i
  {
    hide EvalNode, Lawful, Settled, RunLayer, RuleHolds, AwaitingExplained;
    if i < |w.layers| {
      var moves := FreshLayer(w, input, i, st, cancel);
      var p := RunLayer(w.cx, w.layers[i], i, st, None, cancel);
      if p.Going? {
        MovesKeepStatuses(w, moves, st, st.statuses.Keys);
        forall g | 0 <= g < i
          ensures AwaitingExplained(w, w.layers[g], p.st.statuses)
        {
          ExplainedPersists(w, g, st, p.st, i);
        }
        FreshRun(w, input, i + 1, p.st, cancel);
      }
    } else {
      LawfulIndexed(w);
      AllDone(w, st.statuses.Keys);
    }
  }

  lemma ExplainedPersists(w: World, g: nat, a: RunState, b: RunState, i: nat)
    requires Layered(w.cx, w.layers) && g < i <= |w.layers| && DoneBelow(w, i, a.statuses.Keys)
    requires AwaitingExplained(w, w.layers[g], a.statuses)
    requires forall n :: n in a.statuses ==> n in b.statuses && b.statuses[n] == a.statuses[n]
    ensures AwaitingExplained(w, w.layers[g], b.statuses)
  {
    forall id | id in w.layers[g]
      ensures id in a.statuses
    {
      assert InLayer(w.layers, id, g);
    }
  }

  lemma AllDone(w: World, done: set<string>)
    requires Indexed(w) && DoneBelow(w, |w.layers|, done)
    ensures done == w.cx.nodes.Keys
  {
    forall n | n in w.cx.nodes
      ensures n in done
    {
      var g: nat :| InLayer(w.layers, n, g);
    }
  }

  lemma FreshStart(w: World, input: Io)
    requires Lawful(w) && PlainInput(w, input)
    ensures Settled(w, input, Fresh(input)) && DoneBelow(w, 0, {})
  {
    hide EvalNode, LawfulNode;
    forall n | n in w.cx.nodes
      ensures OwnEmpty(w, n, input)
    {
      forall k | OwnedBy(w, k, n)
        ensures EmptySlot(input, k)
      {
        assert EmptySlot(input, k) || Unowned(w, k);
      }
    }
  }

  /** Stepping every node layer by layer, pausing nowhere, settles all nodes whatever they end with. */
  lemma {:induction false} SettleAll(w: World, input: Io, i: nat, st: RunState) returns (ref: RunState)
    requires Lawful(w) && Layered(w.cx, w.layers) && i <= |w.layers|
    requires Settled(w, input, st) && DoneBelow(w, i, st.statuses.Keys)
    ensures Settled(w, input, ref) && ref.statuses.Keys == w.cx.nodes.Keys
    decreases |w.layers| - i
  {
    hide EvalNode, Lawful, Settled, Indexed, Apply, Steps, Orderly, FirstVisits;
    LawfulIndexed(w);
    if i == |w.layers| {
      AllDone(w, st.statuses.Keys);
      ref := st;
    } else {
      var layer := w.layers[i];
      UnfinishedOneLayer(w, i, None);
      StepsKnown(w, None, layer);
      LayerStepsOrderly(w, i, layer, st.statuses.Keys);
      StepsAreFirstVisits(layer, st.statuses.Keys);
      StepsMoved(layer);
      SettledMoves(w, input, Steps(layer), st);
      LayersDisjoint(w, i, layer, st.statuses.Keys);
      ref := SettleAll(w, input, i + 1, Apply(w, None, Steps(layer), st));
    }
  }
}
