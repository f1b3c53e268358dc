/** A lawful run, concurrent layers included, is a sequence of single-node moves in dependency order. */
module RunMoves {
  import opened Results
  import opened Manifest
  import opened Graph
  import opened Layers
  import opened DagIo
  import opened NodeRules
  import opened Executor
  import opened Locality

  datatype Move = Step(id: string) | Replay(id: string)

  ghost predicate MoveKnown(w: World, ck: Option<Checkpoint>, m: Move) {
    && m.id in w.cx.nodes && m.id in w.cx.deps
    && (m.Replay? ==> ck.Some? && m.id in ck.value.nodeReports)
  }

  ghost predicate MovesKnown(w: World, ck: Option<Checkpoint>, moves: seq<Move>) {
    forall m :: m in moves ==> MoveKnown(w, ck, m)
  }

  ghost function ApplyMove(w: World, ck: Option<Checkpoint>, m: Move, st: RunState): (st': RunState)
    requires MoveKnown(w, ck, m)
    ensures m.id in st'.statuses
  {
    match m
    case Step(id) => StepNode(w.cx, id, st)
    case Replay(id) => ReplayNode(w.cx, id, ck.value, st)
  }

  ghost function Apply(w: World, ck: Option<Checkpoint>, moves: seq<Move>, st: RunState): RunState
    requires MovesKnown(w, ck, moves)
    decreases |moves|
  {
    if moves == [] then st
    else
      assert moves[0] in moves;
      Apply(w, ck, moves[1..], ApplyMove(w, ck, moves[0], st))
  }

  ghost function Moved(moves: seq<Move>): set<string> {
    set m | m in moves :: m.id
  }

  /** Each move comes after moves for all predecessors of its node. */
  ghost predicate Orderly(w: World, done: set<string>, moves: seq<Move>)
    decreases |moves|
  {
    moves == [] ||
    (moves[0].id in w.cx.deps && w.cx.deps[moves[0].id] <= done && Orderly(w, done + {moves[0].id}, moves[1..]))
  }

  /** Plain evaluation moves, each for a node not handled before. */
  ghost predicate FirstVisits(done: set<string>, moves: seq<Move>)
    decreases |moves|
  {
    moves == [] || (moves[0].Step? && moves[0].id !in done && FirstVisits(done + {moves[0].id}, moves[1..]))
  }

  lemma {:induction false} ApplyConcat(w: World, ck: Option<Checkpoint>, a: seq<Move>, b: seq<Move>, st: RunState)
    requires MovesKnown(w, ck, a) && MovesKnown(w, ck, b)
    ensures MovesKnown(w, ck, a + b)
    ensures Apply(w, ck, a + b, st) == Apply(w, ck, b, Apply(w, ck, a, st))
    decreases |a|
  {
    if a == [] {
      assert a + b == b;
    } else {
      assert (a + b)[1..] == a[1..] + b;
      assert a[0] in a;
      ApplyConcat(w, ck, a[1..], b, ApplyMove(w, ck, a[0], st));
    }
  }

  lemma {:induction false} OrderlyConcat(w: World, done: set<string>, a: seq<Move>, b: seq<Move>)
    requires Orderly(w, done, a) && Orderly(w, done + Moved(a), b)
    ensures Orderly(w, done, a + b)
    decreases |a|
  {
    if a == [] {
      assert a + b == b && done + Moved(a) == done;
    } else {
      assert (a + b)[1..] == a[1..] + b;
      assert a == [a[0]] + a[1..];
      assert done + Moved(a) == done + {a[0].id} + Moved(a[1..]);
      OrderlyConcat(w, done + {a[0].id}, a[1..], b);
    }
  }

  lemma {:induction false} VisitsConcat(done: set<string>, a: seq<Move>, b: seq<Move>)
    requires FirstVisits(done, a) && FirstVisits(done + Moved(a), b)
    ensures FirstVisits(done, a + b)
    decreases |a|
  {
    if a == [] {
      assert a + b == b && done + Moved(a) == done;
    } else {
      assert (a + b)[1..] == a[1..] + b;
      assert a == [a[0]] + a[1..];
      assert done + Moved(a) == done + {a[0].id} + Moved(a[1..]);
      VisitsConcat(done + {a[0].id}, a[1..], b);
    }
  }

  // ---- Nodes of one layer ----

  ghost predicate OneLayer(w: World, i: nat, ids: seq<string>) {
    && (forall id :: id in ids ==> InLayer(w.layers, id, i))
    && (forall j, k :: 0 <= j < k < |ids| ==> ids[j] != ids[k])
  }

  /** Every node of a lower layer has been handled. */
  ghost predicate LowerDone(w: World, i: nat, done: set<string>) {
    forall n, g: nat :: InLayer(w.layers, n, g) && g < i ==> n in done
  }

  ghost function Steps(ids: seq<string>): (moves: seq<Move>)
    ensures |moves| == |ids| && forall k :: 0 <= k < |ids| ==> moves[k] == Step(ids[k])
  {
    seq(|ids|, k requires 0 <= k < |ids| => Step(ids[k]))
  }

  lemma LayerPreds(w: World, i: nat, n: string, done: set<string>)
    requires Indexed(w) && InLayer(w.layers, n, i) && LowerDone(w, i, done)
    ensures n in w.cx.deps && w.cx.deps[n] <= done
    ensures forall d :: d in w.cx.deps[n] ==> !InLayer(w.layers, d, i)
  {
    forall d | d in w.cx.deps[n]
      ensures d in done && !InLayer(w.layers, d, i)
    {
      assert IsEdge(w.edges, d, n);
      var g: nat :| InLayer(w.layers, d, g);
      assert CrossesLayers(w.layers, d, n);
    }
  }

  lemma {:induction false} LayerStepsOrderly(w: World, i: nat, ids: seq<string>, done: set<string>)
    requires Indexed(w) && OneLayer(w, i, ids) && LowerDone(w, i, done)
    ensures Orderly(w, done, Steps(ids))
    decreases |ids|
  {
    hide Indexed;
    if ids != [] {
      assert ids[0] in ids;
      LayerPreds(w, i, ids[0], done);
      LayerStepsOrderly(w, i, ids[1..], done + {ids[0]});
      StepsUnroll(ids, 0, |ids|);
      assert ids[0..|ids|] == ids && Steps(ids)[1..] == Steps(ids[1..]);
    }
  }

  lemma {:induction false} StepsAreFirstVisits(ids: seq<string>, done: set<string>)
    requires forall j, k :: 0 <= j < k < |ids| ==> ids[j] != ids[k]
    requires forall id :: id in ids ==> id !in done
    ensures FirstVisits(done, Steps(ids))
    decreases |ids|
  {
    if ids != [] {
      assert ids[0] in ids;
      StepsAreFirstVisits(ids[1..], done + {ids[0]});
      StepsUnroll(ids, 0, |ids|);
      assert ids[0..|ids|] == ids && Steps(ids)[1..] == Steps(ids[1..]);
    }
  }

  lemma StepsMoved(ids: seq<string>)
    ensures Moved(Steps(ids)) == set id | id in ids
  {
    var moves := Steps(ids);
    forall id | id in ids
      ensures id in Moved(moves)
    {
      var k :| 0 <= k < |ids| && ids[k] == id;
      assert moves[k] in moves;
    }
  }

  lemma StepsKnown(w: World, ck: Option<Checkpoint>, ids: seq<string>)
    requires Knows(w.cx, ids)
    ensures MovesKnown(w, ck, Steps(ids))
  {
  }

  lemma StepsUnroll(layer: seq<string>, j: nat, k: nat)
    requires j < k <= |layer|
    ensures Steps(layer[j..k]) == [Step(layer[j])] + Steps(layer[j + 1..k])
  {
  }

  lemma ApplyCons(w: World, ck: Option<Checkpoint>, m: Move, rest: seq<Move>, st: RunState)
    requires MoveKnown(w, ck, m) && MovesKnown(w, ck, rest)
    ensures MovesKnown(w, ck, [m] + rest)
    ensures Apply(w, ck, [m] + rest, st) == Apply(w, ck, rest, ApplyMove(w, ck, m, st))
  {
    assert ([m] + rest)[1..] == rest;
  }

  /** An evaluation of `x` changes nothing that a node of the same layer depends on. */
  ghost predicate ChangesOnly(w: World, x: string, a: RunState, b: RunState) {
    && (forall n :: n != x ==> (n in a.statuses <==> n in b.statuses) && (n in a.statuses ==> a.statuses[n] == b.statuses[n]))
    && (forall n :: n != x ==> (n in a.selections <==> n in b.selections) && (n in a.selections ==> a.selections[n] == b.selections[n]))
    && (forall k {:trigger SameSlot(a.outputs, b.outputs, k)} :: !OwnedBy(w, k, x) ==> SameSlot(a.outputs, b.outputs, k))
  }

  lemma RecordChangesOnly(w: World, x: string, ev: NodeEval, st: RunState)
    requires Lawful(w) && x in w.cx.nodes && ProperOutcome(w.cx.nodes[x], ev)
    ensures ChangesOnly(w, x, st, Record(w.cx, x, ev, st))
    ensures Record(w.cx, x, ev, st).outputs == Merge(st.outputs, ev.produced)
  {
    assert LawfulNode(w, x);
  }

  lemma StepChangesOnly(w: World, x: string, st: RunState)
    requires Lawful(w) && x in w.cx.nodes && x in w.cx.deps
    ensures ChangesOnly(w, x, st, StepNode(w.cx, x, st))
  {
    EvalShape(w, x, st.outputs, st.statuses);
    RecordChangesOnly(w, x, EvalNode(w.cx, w.cx.nodes[x], st.outputs, st.statuses), st);
  }

  lemma OwnKeysHidden(w: World, x: string, n: string, k: string)
    requires OwnedBy(w, k, x) && !Reaches(w.edges, x, n)
    ensures Hidden(w, n, k)
  {
  }

  /** What `n` may depend on is untouched by a move of a node that does not reach it. */
  lemma ForeignMoveAgrees(w: World, x: string, n: string, a: RunState, b: RunState)
    requires Lawful(w) && ChangesOnly(w, x, a, b) && !Reaches(w.edges, x, n)
    ensures AgreeFor(w, n, a.outputs, b.outputs)
    ensures ApprovedIn(w, a.outputs, b.outputs) && ApprovedIn(w, b.outputs, a.outputs)
  {
    forall k | !Hidden(w, n, k)
      ensures SameSlot(a.outputs, b.outputs, k)
    {
      if OwnedBy(w, k, x) {
        OwnKeysHidden(w, x, n, k);
      }
    }
    forall k | k in w.keys
      ensures SameSlot(a.outputs, b.outputs, k)
    {
      assert Unowned(w, k);
      assert !OwnedBy(w, k, x);
    }
  }

  lemma SameLayerUnreached(w: World, i: nat, x: string, n: string)
    requires Indexed(w) && InLayer(w.layers, x, i) && InLayer(w.layers, n, i)
    ensures !Reaches(w.edges, x, n)
  {
    if Reaches(w.edges, x, n) {
      ReachesLower(w, x, n, i, i);
    }
  }

  lemma AgreeTransitive(w: World, n: string, a: Io, b: Io, c: Io)
    requires AgreeFor(w, n, a, b) && AgreeFor(w, n, b, c)
    ensures AgreeFor(w, n, a, c)
  {
    forall k | !Hidden(w, n, k)
      ensures SameSlot(a, c, k)
    {
      assert SameSlot(a, b, k) && SameSlot(b, c, k);
    }
  }

  ghost predicate SameView(w: World, n: string, a: Io, b: Io) {
    AgreeFor(w, n, a, b) && ApprovedIn(w, a, b) && ApprovedIn(w, b, a)
  }

  lemma SameViewReflexive(w: World, n: string, io: Io)
    ensures SameView(w, n, io, io)
  {
  }

  /** An ordinary node that is not skipped and sees `snapshot` as it sees the current outputs. */
  ghost predicate ReadyOn(w: World, n: string, snapshot: Io, st: RunState)
    requires n in w.cx.nodes && n in w.cx.deps
  {
    IsOrdinary(w.cx.nodes[n]) && !Skips(w.cx, n, st) && SameView(w, n, snapshot, st.outputs)
  }

  lemma SkipsUnchanged(w: World, i: nat, x: string, n: string, a: RunState, b: RunState)
    requires Indexed(w) && InLayer(w.layers, x, i) && InLayer(w.layers, n, i) && n in w.cx.deps
    requires ChangesOnly(w, x, a, b)
    ensures Skips(w.cx, n, a) == Skips(w.cx, n, b)
  {
    assert IsEdge(w.edges, x, n) ==> CrossesLayers(w.layers, x, n);
    assert x !in w.cx.deps[n];
  }

  lemma StaysReady(w: World, i: nat, x: string, n: string, snapshot: Io, a: RunState, b: RunState)
    requires Lawful(w) && InLayer(w.layers, x, i) && InLayer(w.layers, n, i)
    requires n in w.cx.nodes && n in w.cx.deps && ReadyOn(w, n, snapshot, a)
    requires ChangesOnly(w, x, a, b)
    ensures ReadyOn(w, n, snapshot, b)
  {
    SameLayerUnreached(w, i, x, n);
    ForeignMoveAgrees(w, x, n, a, b);
    AgreeTransitive(w, n, snapshot, a.outputs, b.outputs);
    SkipsUnchanged(w, i, x, n, a, b);
  }

  lemma ReadyRecordIsStep(w: World, x: string, snapshot: Io, st: RunState)
    requires Lawful(w) && x in w.cx.nodes && x in w.cx.deps && ReadyOn(w, x, snapshot, st)
    ensures Record(w.cx, x, EvalHandler(w.cx, w.cx.nodes[x], snapshot), st) == StepNode(w.cx, x, st)
  {
    assert LawfulNode(w, x);
    HandlerAgrees(w, x, snapshot, st.outputs);
  }

  /** Evaluating the ready nodes of one layer on a shared snapshot and folding the outcomes in order gives the
      same state as evaluating them one at a time, each on the state its predecessors in the list left. */
  lemma {:induction false} ConcurrentIsSequential(w: World, i: nat, ck: Option<Checkpoint>, ids: seq<string>, j: nat, snapshot: Io, st: RunState)
    requires Lawful(w) && j <= |ids| && OneLayer(w, i, ids) && Knows(w.cx, ids)
    requires forall id {:trigger ReadyOn(w, id, snapshot, st)} :: id in ids[j..] ==> ReadyOn(w, id, snapshot, st)
    ensures MovesKnown(w, ck, Steps(ids[j..]))
    ensures RecordAll(w.cx, ids, j, snapshot, st) == Apply(w, ck, Steps(ids[j..]), st)
    decreases |ids| - j
  {
    hide EvalNode, EvalHandler, Record, StepNode, ReadyOn, Lawful, ChangesOnly;
    assert MovesKnown(w, ck, Steps(ids[j..]));
    if j < |ids| {
      var x := ids[j];
      assert x in ids[j..] && ReadyOn(w, x, snapshot, st);
      ReadyRecordIsStep(w, x, snapshot, st);
      StepChangesOnly(w, x, st);
      var st1 := StepNode(w.cx, x, st);
      forall id | id in ids[j + 1..]
        ensures ReadyOn(w, id, snapshot, st1)
      {
        assert id in ids[j..] && ReadyOn(w, id, snapshot, st);
        StaysReady(w, i, x, id, snapshot, st, st1);
      }
      ConcurrentIsSequential(w, i, ck, ids, j + 1, snapshot, st1);
      StepsUnroll(ids, j, |ids|);
      assert ids[j..] == ids[j..|ids|] && ids[j + 1..] == ids[j + 1..|ids|];
      ApplyCons(w, ck, Step(x), Steps(ids[j + 1..]), st);
    }
  }

  // ---- Layers as moves ----

  ghost predicate NeverCancelled(cancel: CancelSignal) {
    forall i, j :: !cancel(i, j)
  }

  /** A sequential pass moves through a prefix of its layer, and stops early only at an awaiting node. */
  lemma {:induction false} SequentialMoves(w: World, ck: Option<Checkpoint>, layer: seq<string>, i: nat, j: nat, st: RunState, cancel: CancelSignal)
    returns (k: nat)
    requires j <= |layer| && Knows(w.cx, layer) && NeverCancelled(cancel)
    ensures j <= k <= |layer| && MovesKnown(w, ck, Steps(layer[j..k]))
    ensures RunSequential(w.cx, layer, i, j, st, cancel).st == Apply(w, ck, Steps(layer[j..k]), st)
    ensures RunSequential(w.cx, layer, i, j, st, cancel).Going? ==> k == |layer|
    ensures var p := RunSequential(w.cx, layer, i, j, st, cancel);
      p.Halted? ==> p.why == Pause && k > j && layer[k - 1] in p.st.statuses && p.st.statuses[layer[k - 1]] == AwaitingApproval
    decreases |layer| - j
  {
    hide StepNode, Steps;
    if j == |layer| {
      k := j;
      assert Steps(layer[j..k]) == [];
    } else {
      var st' := StepNode(w.cx, layer[j], st);
      if st'.statuses[layer[j]] == AwaitingApproval {
        k := j + 1;
      } else {
        k := SequentialMoves(w, ck, layer, i, j + 1, st', cancel);
      }
      StepsUnroll(layer, j, k);
      StepsKnown(w, ck, layer[j + 1..k]);
      ApplyCons(w, ck, Step(layer[j]), Steps(layer[j + 1..k]), st);
    }
  }

  ghost function Replays(layer: seq<string>, j: nat, ck: Checkpoint): (moves: seq<Move>)
    requires j <= |layer|
    ensures forall m :: m in moves <==> m.Replay? && m.id in layer[j..] && m.id in ck.nodeReports
    decreases |layer| - j
  {
    if j == |layer| then []
    else (if layer[j] in ck.nodeReports then [Replay(layer[j])] else []) + Replays(layer, j + 1, ck)
  }

  lemma {:induction false} ReplayMoves(w: World, ck: Checkpoint, layer: seq<string>, i: nat, j: nat, st: RunState, done: set<string>)
    requires Indexed(w) && j <= |layer| && Knows(w.cx, layer) && OneLayer(w, i, layer) && LowerDone(w, i, done)
    ensures MovesKnown(w, Some(ck), Replays(layer, j, ck))
    ensures ReplayLayer(w.cx, layer, j, ck, st) == Apply(w, Some(ck), Replays(layer, j, ck), st)
    ensures Orderly(w, done, Replays(layer, j, ck))
    decreases |layer| - j
  {
    if j < |layer| {
      if layer[j] in ck.nodeReports {
        LayerPreds(w, i, layer[j], done);
        ReplayMoves(w, ck, layer, i, j + 1, ReplayNode(w.cx, layer[j], ck, st), done + {layer[j]});
        ApplyCons(w, Some(ck), Replay(layer[j]), Replays(layer, j + 1, ck), st);
        assert Replays(layer, j, ck)[1..] == Replays(layer, j + 1, ck);
      } else {
        ReplayMoves(w, ck, layer, i, j + 1, st, done);
        assert Replays(layer, j, ck) == Replays(layer, j + 1, ck);
      }
    }
  }

  ghost predicate IsSublist(ids: seq<string>, layer: seq<string>) {
    && (forall id :: id in ids ==> id in layer)
    && (forall j, k :: 0 <= j < k < |ids| ==> ids[j] != ids[k])
  }

  lemma {:induction false} UnreplayedMembers(layer: seq<string>, j: nat, ck: Checkpoint)
    requires j <= |layer|
    ensures forall id :: id in Unreplayed(layer, j, ck) <==> id in layer[j..] && id !in ck.nodeReports
    decreases |layer| - j
  {
    if j < |layer| {
      UnreplayedMembers(layer, j + 1, ck);
      assert layer[j..] == [layer[j]] + layer[j + 1..];
    }
  }

  lemma {:induction false} UnreplayedSublist(layer: seq<string>, j: nat, ck: Checkpoint)
    requires j <= |layer| && forall a, b :: 0 <= a < b < |layer| ==> layer[a] != layer[b]
    ensures IsSublist(Unreplayed(layer, j, ck), layer)
    decreases |layer| - j
  {
    if j < |layer| {
      UnreplayedSublist(layer, j + 1, ck);
      UnreplayedMembers(layer, j + 1, ck);
      assert layer[j] !in layer[j + 1..];
    }
  }

  /** The state a layer starts evaluating from, and the nodes it still has to evaluate. */
  ghost function Replayed(w: World, i: nat, ck: Option<Checkpoint>, st: RunState): RunState
    requires i < |w.layers| && Layered(w.cx, w.layers)
  {
    if ck.Some? then ReplayLayer(w.cx, w.layers[i], 0, ck.value, st) else st
  }

  ghost function Unfinished(w: World, i: nat, ck: Option<Checkpoint>): seq<string>
    requires i < |w.layers|
  {
    if ck.Some? then Unreplayed(w.layers[i], 0, ck.value) else w.layers[i]
  }

  /** Why a lawful layer that is never cancelled halts: a sequential pass met an awaiting node, or a concurrent
      one ended with an awaiting node and no failed one. */
  ghost predicate HaltExplained(w: World, i: nat, ck: Option<Checkpoint>, st: RunState, p: Progress)
    requires i < |w.layers| && Layered(w.cx, w.layers) && Knows(w.cx, Unfinished(w, i, ck))
  {
    p.Halted? ==>
      && p.why == Pause
      && SomeStatus(w.layers[i], p.st.statuses, AwaitingApproval)
      && (CanRunConcurrently(w.cx, Unfinished(w, i, ck), Replayed(w, i, ck, st)) ==>
            !SomeStatus(Unfinished(w, i, ck), p.st.statuses, Failed))
  }

  /** The moves a layer makes after its replays, on whichever path it takes. */
  ghost predicate LayerMoves(w: World, i: nat, done: set<string>, ids: seq<string>, moves: seq<Move>) {
    && Orderly(w, done, moves)
    && Moved(moves) == (set id | id in ids)
    && ((forall id :: id in ids ==> id !in done) ==> FirstVisits(done, moves))
  }

  lemma StepsAreLayerMoves(w: World, i: nat, done: set<string>, ids: seq<string>)
    requires Indexed(w) && OneLayer(w, i, ids) && LowerDone(w, i, done)
    ensures LayerMoves(w, i, done, ids, Steps(ids))
  {
    LayerStepsOrderly(w, i, ids, done);
    StepsMoved(ids);
    if forall id :: id in ids ==> id !in done {
      StepsAreFirstVisits(ids, done);
    }
  }

  lemma ConcurrentMoves(w: World, i: nat, ck: Option<Checkpoint>, ids: seq<string>, st: RunState)
    requires Lawful(w) && OneLayer(w, i, ids) && Knows(w.cx, ids) && CanRunConcurrently(w.cx, ids, st)
    ensures MovesKnown(w, ck, Steps(ids))
    ensures RunConcurrent(w.cx, ids, st).st == Apply(w, ck, Steps(ids), st)
  {
    hide EvalNode, EvalHandler, StepNode, RecordAll, Skips, Lawful, SameView, Apply;
    assert ids[0..] == ids;
    forall id | id in ids
      ensures ReadyOn(w, id, st.outputs, st)
    {
      SameViewReflexive(w, id, st.outputs);
    }
    ConcurrentIsSequential(w, i, ck, ids, 0, st.outputs, st);
  }

  lemma UnfinishedOneLayer(w: World, i: nat, ck: Option<Checkpoint>)
    requires Indexed(w) && Layered(w.cx, w.layers) && i < |w.layers|
    ensures OneLayer(w, i, w.layers[i]) && OneLayer(w, i, Unfinished(w, i, ck))
    ensures Knows(w.cx, w.layers[i]) && Knows(w.cx, Unfinished(w, i, ck))
  {
    if ck.Some? {
      UnreplayedSublist(w.layers[i], 0, ck.value);
    }
  }

  /** The moves of one layer after its replays. */
  lemma EvalMoves(w: World, i: nat, st: RunState, ck: Option<Checkpoint>, done: set<string>, cancel: CancelSignal)
    returns (ids: seq<string>)
    requires Lawful(w) && Layered(w.cx, w.layers) && i < |w.layers| && LowerDone(w, i, done) && NeverCancelled(cancel)
    requires Knows(w.cx, Unfinished(w, i, ck)) && (ck.Some? ==> Unfinished(w, i, ck) != [])
    ensures MovesKnown(w, ck, Steps(ids)) && LayerMoves(w, i, done, ids, Steps(ids))
    ensures forall id :: id in ids ==> id in w.layers[i]
    ensures var p := RunLayer(w.cx, w.layers[i], i, st, ck, cancel);
      && p.st == Apply(w, ck, Steps(ids), Replayed(w, i, ck, st))
      && HaltExplained(w, i, ck, st, p)
      && (p.Going? ==> forall id :: id in Unfinished(w, i, ck) ==> id in ids)
  {
    hide EvalNode, EvalHandler, StepNode, RecordAll, ReplayLayer, LayerMoves, Apply, Skips, Indexed, RunSequential, Unreplayed;
    var layer, r := w.layers[i], Replayed(w, i, ck, st);
    UnfinishedOneLayer(w, i, ck);
    if CanRunConcurrently(w.cx, Unfinished(w, i, ck), r) {
      ids := Unfinished(w, i, ck);
      ConcurrentMoves(w, i, ck, ids, r);
    } else {
      var k := SequentialMoves(w, ck, layer, i, 0, r, cancel);
      ids := layer[0..k];
      assert k == |layer| ==> layer[0..k] == layer;
    }
    StepsAreLayerMoves(w, i, done, ids);
  }
}
