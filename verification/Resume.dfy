/** Resuming a paused run from its own report: never refused, and with every approval given it ends like one
    uninterrupted run. */
module Resume {
  import opened Results
  import opened Manifest
  import opened Graph
  import opened Layers
  import opened Json
  import opened DagIo
  import opened Artifacts
  import opened Infixes
  import opened NodeRules
  import opened Executor
  import opened Locality
  import opened RunMoves
  import opened Reference
  import opened Simulation

  // ---- Layers of a simulated run ----

  ghost predicate LowerHandled(w: World, i: nat, st: RunState) {
    LowerDone(w, i, st.statuses.Keys)
  }

  lemma ReplayPhase(w: World, full: Io, ref: RunState, input: Io, ck: Option<Checkpoint>, i: nat, st: RunState)
    requires Setting(w, full, ref, input, ck) && Sim(w, ref, input, ck, st)
    requires Layered(w.cx, w.layers) && i < |w.layers| && LowerHandled(w, i, st)
    ensures Sim(w, ref, input, ck, Replayed(w, i, ck, st)) && LowerHandled(w, i, Replayed(w, i, ck, st))
    ensures st.statuses.Keys <= Replayed(w, i, ck, st).statuses.Keys
    ensures ck.Some? ==> forall id :: id in w.layers[i] && id in ck.value.nodeReports ==> id in Replayed(w, i, ck, st).statuses
  {
    hide Sim, Setting, ReplayLayer, Apply, Indexed, Replays;
    if ck.Some? {
      SettingLawful(w, full, ref, input, ck);
      UnfinishedOneLayer(w, i, ck);
      ReplayMoves(w, ck.value, w.layers[i], i, 0, st, st.statuses.Keys);
      var moves := Replays(w.layers[i], 0, ck.value);
      MovesKeepSim(w, full, ref, input, ck, moves, st);
      forall id | id in w.layers[i] && id in ck.value.nodeReports
        ensures id in Moved(moves)
      {
        assert Replay(id) in moves;
      }
    }
  }

  lemma SettingLawful(w: World, full: Io, ref: RunState, input: Io, ck: Option<Checkpoint>)
    requires Setting(w, full, ref, input, ck)
    ensures Lawful(w) && Indexed(w) && IsReference(w, full, ref)
  {
  }

  /** One layer keeps the simulation; if it does not halt, it handles all of its nodes. */
  lemma SimLayer(w: World, full: Io, ref: RunState, input: Io, ck: Option<Checkpoint>, i: nat, st: RunState, cancel: CancelSignal)
    requires Setting(w, full, ref, input, ck) && Sim(w, ref, input, ck, st)
    requires Layered(w.cx, w.layers) && i < |w.layers| && LowerHandled(w, i, st) && NeverCancelled(cancel)
    ensures var p := RunLayer(w.cx, w.layers[i], i, st, ck, cancel);
      && Sim(w, ref, input, ck, p.st)
      && (p.Going? ==> LowerHandled(w, i + 1, p.st))
      && (p.Halted? ==> p.why == Pause)
      && (AllApproved(w, input) && RunsThrough(w, ref) ==> p.Going?)
  {
    hide Sim, Setting, ReplayLayer, Apply, Indexed, Lawful, CanRunConcurrently, EvalNode, IsReference, RunConcurrent, RunSequential, LayerMoves, RunsThrough;
    SettingLawful(w, full, ref, input, ck);
    ReplayPhase(w, full, ref, input, ck, i, st);
    UnfinishedOneLayer(w, i, ck);
    var r := Replayed(w, i, ck, st);
    var p := RunLayer(w.cx, w.layers[i], i, st, ck, cancel);
    if ck.Some? && Unfinished(w, i, ck) == [] {
      assert p == Going(r);
      LayerHandled(w, i, st, ck, r, {});
    } else {
      var ids := EvalMoves(w, i, st, ck, r.statuses.Keys, cancel);
      LayerMovesOrderly(w, i, r.statuses.Keys, ids, Steps(ids));
      MovesKeepSim(w, full, ref, input, ck, Steps(ids), r);
      if p.Going? {
        LayerHandled(w, i, st, ck, p.st, set id | id in ids);
      }
      if AllApproved(w, input) && RunsThrough(w, ref) {
        if CanRunConcurrently(w.cx, Unfinished(w, i, ck), r) {
          ConcurrentStatuses(w, i, st, ck, cancel);
        }
        ApprovedKeepsGoing(w, full, ref, input, ck, i, st, p);
      }
    }
  }

  lemma LayerMovesOrderly(w: World, i: nat, done: set<string>, ids: seq<string>, moves: seq<Move>)
    requires LayerMoves(w, i, done, ids, moves)
    ensures Orderly(w, done, moves) && Moved(moves) == set id | id in ids
  {
  }

  /** Replayed and evaluated nodes together cover the layer. */
  lemma LayerHandled(w: World, i: nat, st: RunState, ck: Option<Checkpoint>, end: RunState, moved: set<string>)
    requires Indexed(w) && Layered(w.cx, w.layers) && i < |w.layers| && LowerHandled(w, i, st)
    requires st.statuses.Keys <= end.statuses.Keys && moved <= end.statuses.Keys
    requires ck.Some? ==> forall id :: id in w.layers[i] && id in ck.value.nodeReports ==> id in end.statuses
    requires forall id :: id in Unfinished(w, i, ck) ==> id in moved
    ensures LowerHandled(w, i + 1, end)
  {
    hide Indexed;
    forall n, g: nat | InLayer(w.layers, n, g) && g < i + 1
      ensures n in end.statuses
    {
      if g == i {
        if ck.Some? {
          assert w.layers[i][0..] == w.layers[i];
          UnreplayedMembers(w.layers[i], 0, ck.value);
          assert n in Unfinished(w, i, ck) <==> n !in ck.value.nodeReports;
        }
      }
    }
  }

  lemma NotReplayed(w: World, full: Io, ref: RunState, input: Io, ck: Option<Checkpoint>, i: nat, x: string)
    requires Setting(w, full, ref, input, ck) && i < |w.layers| && x in w.layers[i]
    requires x in ref.statuses && !Usable(ref.statuses[x])
    ensures x in Unfinished(w, i, ck)
  {
    hide Lawful, IsReference, SameBase, Earned, EvalNode, ReportsOutcome, NodeOutcome;
    if ck.Some? {
      assert w.layers[i][0..] == w.layers[i];
      UnreplayedMembers(w.layers[i], 0, ck.value);
      ReplayedAreUsable(w, ref, input, ck.value);
    }
  }

  lemma ReplayedAreUsable(w: World, ref: RunState, input: Io, ck: Checkpoint)
    requires FaithfulCheckpoint(w, ref, input, ck)
    ensures forall n :: n in ck.nodeReports ==> UsableIn(n, ref.statuses)
  {
    hide ReportsOutcome, NodeOutcome, Earned;
    forall n | n in ck.nodeReports
      ensures UsableIn(n, ref.statuses)
    {
      assert ReportMatches(w, ref, n, ck.nodeReports[n]);
    }
  }

  /** With every approval, a layer in which the reference awaits approval runs concurrently here as it did there,
      next to a failed node. */
  lemma AwaitingRunsConcurrently(w: World, full: Io, ref: RunState, input: Io, ck: Option<Checkpoint>, i: nat, st: RunState)
    requires Setting(w, full, ref, input, ck) && AllApproved(w, input) && RunsThrough(w, ref)
    requires Layered(w.cx, w.layers) && i < |w.layers| && Knows(w.cx, Unfinished(w, i, ck)) && LowerHandled(w, i, Replayed(w, i, ck, st))
    requires Sim(w, ref, input, ck, Replayed(w, i, ck, st))
    requires forall id :: id in Unfinished(w, i, ck) ==> id in w.layers[i]
    requires SomeStatus(w.layers[i], ref.statuses, AwaitingApproval)
    ensures CanRunConcurrently(w.cx, Unfinished(w, i, ck), Replayed(w, i, ck, st))
    ensures SomeStatus(Unfinished(w, i, ck), ref.statuses, Failed)
  {
    hide Sim, ReplayLayer, Lawful, Skips, EvalNode, Settled, RecordAll, RunSequential, NodeBudget, FaithfulCheckpoint, SameBase;
    var layer := w.layers[i];
    var x :| x in layer && x in ref.statuses && ref.statuses[x] == AwaitingApproval;
    assert AwaitingExplained(w, layer, ref.statuses);
    var f :| f in layer && f in ref.statuses && ref.statuses[f] == Failed;
    NotReplayed(w, full, ref, input, ck, i, x);
    NotReplayed(w, full, ref, input, ck, i, f);
    var ids := Unfinished(w, i, ck);
    var r := Replayed(w, i, ck, st);
    forall id | id in ids
      ensures !Skips(w.cx, id, r)
    {
      NotSkippedHere(w, full, ref, input, ck, i, id, r);
    }
    assert |ids| > 1;
  }

  lemma StatusesAgree(w: World, ref: RunState, input: Io, ck: Option<Checkpoint>, st: RunState, ids: seq<string>, status: NodeStatus)
    requires Sim(w, ref, input, ck, st) && AllApproved(w, input)
    ensures SomeStatus(ids, st.statuses, status) ==> SomeStatus(ids, ref.statuses, status)
    ensures SomeStatus(ids, ref.statuses, status) && (forall id :: id in ids ==> id in st.statuses) ==> SomeStatus(ids, st.statuses, status)
  {
    hide Matches, OwnFits, SelectionsFit, UnownedSame, ReportsMatch, Seeded, AllApproved;
  }

  /** With every approval, no layer halts. */
  lemma ApprovedKeepsGoing(w: World, full: Io, ref: RunState, input: Io, ck: Option<Checkpoint>, i: nat, st: RunState, p: Progress)
    requires Setting(w, full, ref, input, ck) && AllApproved(w, input) && RunsThrough(w, ref)
    requires Layered(w.cx, w.layers) && i < |w.layers| && Knows(w.cx, Unfinished(w, i, ck)) && LowerHandled(w, i, Replayed(w, i, ck, st))
    requires Sim(w, ref, input, ck, Replayed(w, i, ck, st)) && Sim(w, ref, input, ck, p.st)
    requires forall id :: id in Unfinished(w, i, ck) ==> id in w.layers[i]
    requires HaltExplained(w, i, ck, st, p)
    requires CanRunConcurrently(w.cx, Unfinished(w, i, ck), Replayed(w, i, ck, st)) ==>
      forall id :: id in Unfinished(w, i, ck) ==> id in p.st.statuses
    ensures p.Going?
  {
    hide Sim, ReplayLayer, Lawful, Setting, CanRunConcurrently, Unfinished, SomeStatus;
    StatusesAgree(w, ref, input, ck, p.st, w.layers[i], AwaitingApproval);
    StatusesAgree(w, ref, input, ck, p.st, Unfinished(w, i, ck), Failed);
    if SomeStatus(w.layers[i], ref.statuses, AwaitingApproval) {
      AwaitingRunsConcurrently(w, full, ref, input, ck, i, st);
    }
  }

  lemma ConcurrentStatuses(w: World, i: nat, st: RunState, ck: Option<Checkpoint>, cancel: CancelSignal)
    requires Layered(w.cx, w.layers) && i < |w.layers| && NeverCancelled(cancel) && Knows(w.cx, Unfinished(w, i, ck))
    requires CanRunConcurrently(w.cx, Unfinished(w, i, ck), Replayed(w, i, ck, st))
    ensures forall id :: id in Unfinished(w, i, ck) ==> id in RunLayer(w.cx, w.layers[i], i, st, ck, cancel).st.statuses
  {
    hide ReplayLayer, Skips, EvalNode, RunSequential, Unreplayed;
    var ids := Unfinished(w, i, ck);
    assert ids[0..] == ids;
  }

  lemma NotSkippedHere(w: World, full: Io, ref: RunState, input: Io, ck: Option<Checkpoint>, i: nat, x: string, st: RunState)
    requires Setting(w, full, ref, input, ck) && AllApproved(w, input) && Sim(w, ref, input, ck, st)
    requires i < |w.layers| && x in w.layers[i] && x in ref.statuses && ref.statuses[x] != Skipped
    requires x in w.cx.nodes && x in w.cx.deps && LowerDone(w, i, st.statuses.Keys)
    ensures !Skips(w.cx, x, st)
  {
    hide Sim, Setting, Indexed, Skips;
    SettingLawful(w, full, ref, input, ck);
    assert InLayer(w.layers, x, i);
    LayerPreds(w, i, x, st.statuses.Keys);
    if Skips(w.cx, x, st) {
      SkipsInReference(w, full, ref, input, ck, x, st);
    }
  }

  // ---- Whole runs ----

  lemma {:induction false} SimRun(w: World, full: Io, ref: RunState, input: Io, ck: Option<Checkpoint>, i: nat, st: RunState, cancel: CancelSignal)
    requires Setting(w, full, ref, input, ck) && Sim(w, ref, input, ck, st)
    requires Layered(w.cx, w.layers) && i <= |w.layers| && LowerHandled(w, i, st) && NeverCancelled(cancel)
    ensures var p := RunLayers(w.cx, w.layers, i, st, ck, cancel);
      && Sim(w, ref, input, ck, p.st)
      && (p.Going? ==> LowerHandled(w, |w.layers|, p.st))
      && (p.Halted? ==> p.why == Pause)
      && (AllApproved(w, input) && RunsThrough(w, ref) ==> p.Going?)
    decreases |w.layers| - i
  {
    hide Sim, Setting, RunLayer, LowerHandled, RunsThrough;
    if i < |w.layers| {
      SimLayer(w, full, ref, input, ck, i, st, cancel);
      var p := RunLayer(w.cx, w.layers[i], i, st, ck, cancel);
      if p.Going? {
        SimRun(w, full, ref, input, ck, i + 1, p.st, cancel);
      }
    }
  }

  /** Outputs a run may start from: its input, plus the reference's outputs of the replayed nodes. */
  ghost predicate StartsFrom(w: World, ref: RunState, input: Io, ck: Option<Checkpoint>, outputs: Io) {
    && UnownedSame(w, outputs, input)
    && (forall n {:trigger OwnSame(w, n, outputs, ref.outputs)} {:trigger OwnEmpty(w, n, outputs)} :: n in w.cx.nodes ==>
          if ck.Some? && n in ck.value.nodeReports then OwnSame(w, n, outputs, ref.outputs) else OwnEmpty(w, n, outputs))
  }

  lemma NoReportsMatch(w: World, ref: RunState, outputs: Io)
    ensures ReportsMatch(w, ref, Fresh(outputs))
  {
  }

  lemma SimStart(w: World, full: Io, ref: RunState, input: Io, ck: Option<Checkpoint>, outputs: Io)
    requires Setting(w, full, ref, input, ck) && StartsFrom(w, ref, input, ck, outputs)
    ensures Sim(w, ref, input, ck, Fresh(outputs)) && LowerHandled(w, 0, Fresh(outputs))
  {
    hide Lawful, IsReference, SameBase, OwnSame, OwnEmpty, UnownedSame, Matches, LawfulNode, ReportMatches, Earned, ReportsMatch, Indexed;
    NoReportsMatch(w, ref, outputs);
    SettingLawful(w, full, ref, input, ck);
    if ck.Some? {
      ReplayedAreUsable(w, ref, input, ck.value);
    }
    forall n | n in w.cx.nodes
      ensures OwnFits(w, ref, n, outputs)
    {
      assert OwnSame(w, n, outputs, ref.outputs) || OwnEmpty(w, n, outputs);
    }
  }

  lemma PlainStarts(w: World, ref: RunState, input: Io)
    requires Lawful(w) && PlainInput(w, input)
    ensures StartsFrom(w, ref, input, None, input)
  {
    hide LawfulNode, Indexed;
    SameSlotReflexive(input);
    forall n | n in w.cx.nodes
      ensures OwnEmpty(w, n, input)
    {
      forall k | OwnedBy(w, k, n)
        ensures EmptySlot(input, k)
      {
        assert EmptySlot(input, k) || Unowned(w, k);
      }
    }
  }

  // ---- The report as a checkpoint ----

  /** What a run with accumulated input `input` leaves for a later resume. */
  ghost predicate FaithfulReport(w: World, ref: RunState, input: Io, report: ExecutionReport) {
    && report.dag == w.cx.manifest.id && report.hash == w.cx.app.hash(w.cx.manifest) && report.input == input
    && exists st :: Sim(w, ref, input, None, st) && report.nodes == st.reports && report.outputs == st.outputs
  }

  lemma NoChildren(w: World, reports: seq<Report>, id: string)
    requires Lawful(w) && forall r :: r in reports ==> r.nodeId in w.cx.nodes
    ensures ChildrenOf(reports, id) == []
  {
    hide LocalNode, WritesOwn, FinalNotWorse, Indexed, FindInfix;
    if |reports| > 0 {
      assert reports[0] in reports;
      var r := reports[0];
      assert LawfulNode(w, r.nodeId);
      NoInfix(r.nodeId, "#round-", 0);
      NoInfix(r.nodeId, "#item-", 0);
      NoChildren(w, reports[1..], id);
    }
  }

  /** The slots of a replayed node, restored from the frozen outputs. */
  lemma ProducedSlots(w: World, full: Io, ref: RunState, input: Io, st: RunState, n: string)
    requires Setting(w, full, ref, input, None) && Sim(w, ref, input, None, st)
    requires n in w.cx.nodes && LastReplayable(st.reports, n).Some?
    ensures var r := LastReplayable(st.reports, n).value;
      && ReportMatches(w, ref, n, r)
      && Earned(w, ref, input, n)
      && OwnSame(w, n, st.outputs, ref.outputs)
      && (forall d :: d in w.cx.deps[n] ==> d in w.cx.nodes && LastReplayable(st.reports, d).Some?)
      && OwnSame(w, n, ref.outputs, NodeOutcome(w, n, ref).produced)
      && r.outputRefs == Uris(NodeOutcome(w, n, ref).produced.artifacts)
      && r.kind == w.cx.nodes[n].kind
      && NodeOutcome(w, n, ref).produced.artifacts.Keys <= set o | o in w.cx.nodes[n].outputs
  {
    hide EvalNode, Lawful, Earned, OwnSame, OwnEmpty, UnownedSame, LastReplayable, Settled, AwaitingExplained, SameBase, Seeded, OwnFits, Skips;
    assert UsableIn(n, st.statuses);
    assert Matches(w, ref, input, n, st);
    ReferenceOutcome(w, full, ref, n);
    EvalShape(w, n, ref.outputs, ref.statuses);
    forall d | d in w.cx.deps[n]
      ensures d in w.cx.nodes && LastReplayable(st.reports, d).Some?
    {
      assert UsableIn(d, st.statuses);
    }
  }

  lemma ReportAccepted(w: World, full: Io, ref: RunState, input: Io, st: RunState, n: string)
    requires Setting(w, full, ref, input, None) && Sim(w, ref, input, None, st)
    requires n in w.cx.nodes && LastReplayable(st.reports, n).Some?
    ensures var r := LastReplayable(st.reports, n).value;
      && ValidNodeReport(w.cx.nodes[n], r)
      && forall k :: k in r.outputRefs ==>
           k in st.outputs.artifacts && st.outputs.artifacts[k].uri == r.outputRefs[k]
           && k in ref.outputs.artifacts && st.outputs.artifacts[k] == ref.outputs.artifacts[k]
  {
    hide EvalNode, IsReference, Earned, UnownedSame, LastReplayable, SameBase, Sim, LawfulNode, Indexed, ReportMatches;
    ProducedSlots(w, full, ref, input, st, n);
    var produced := NodeOutcome(w, n, ref).produced;
    var r := LastReplayable(st.reports, n).value;
    forall k | k in r.outputRefs
      ensures k in w.cx.nodes[n].outputs && k in st.outputs.artifacts && st.outputs.artifacts[k].uri == r.outputRefs[k]
      ensures k in ref.outputs.artifacts && st.outputs.artifacts[k] == ref.outputs.artifacts[k]
    {
      assert k in produced.artifacts && OwnedBy(w, k, n);
      assert SameSlot(st.outputs, ref.outputs, k) && SameSlot(ref.outputs, produced, k);
    }
  }

  lemma EarnedGrows(w: World, ref: RunState, input: Io, more: Io, n: string)
    requires n in w.cx.nodes && Earned(w, ref, input, n) && ApprovedIn(w, input, more)
    ensures Earned(w, ref, more, n)
  {
    hide EvalNode, AgreeFor;
    var io :| AgreeFor(w, n, io, ref.outputs) && ApprovedIn(w, io, input)
              && Usable(EvalNode(w.cx, w.cx.nodes[n], io, ref.statuses).status);
    assert ApprovedIn(w, io, more);
  }

  /** No artifact that a replayable report names has drifted from its file. */
  ghost predicate Undrifted(cx: Context, files: Files, report: ExecutionReport) {
    var kept := KeptReports(cx.nodes, report.nodes);
    forall id, k :: id in kept && k in kept[id].outputRefs && k in report.outputs.artifacts ==> Intact(files, report.outputs.artifacts[k])
  }

  /** The report's own kept entries fit the manifest and the report's outputs. */
  ghost predicate KeptFits(cx: Context, report: ExecutionReport) {
    var kept := KeptReports(cx.nodes, report.nodes);
    && report.dag == cx.manifest.id && report.hash == cx.app.hash(cx.manifest)
    && forall id :: id in kept ==>
         && ChildrenOf(report.nodes, id) == [] && ValidNodeReport(cx.nodes[id], kept[id])
         && forall k :: k in kept[id].outputRefs ==> k in report.outputs.artifacts && report.outputs.artifacts[k].uri == kept[id].outputRefs[k]
  }

  lemma PreparedUnlessDrifted(cx: Context, files: Files, report: ExecutionReport)
    requires KeptFits(cx, report)
    ensures var prepared := PrepareCheckpoint(cx, files, report);
      var kept := KeptReports(cx.nodes, report.nodes);
      if Undrifted(cx, files, report) then prepared == Success(Checkpoint(RestoredOutputs(cx, report.outputs, kept, map[]), kept, map[]))
      else prepared == Failure(BadArtifact)
  {
    hide KeptReports, ChildrenOf, ValidNodeReport, Intact, RestoredOutputs;
    var kept := KeptReports(cx.nodes, report.nodes);
    assert KeptChildren(kept, report.nodes) == map[];
  }

  lemma FaithfulFits(w: World, full: Io, ref: RunState, input: Io, more: Io, report: ExecutionReport, st: RunState)
    requires Setting(w, full, ref, input, None) && FaithfulReport(w, ref, input, report) && ApprovedIn(w, input, more)
    requires Sim(w, ref, input, None, st) && report.nodes == st.reports && report.outputs == st.outputs
    ensures KeptFits(w.cx, report)
    ensures FaithfulCheckpoint(w, ref, more, Checkpoint(EMPTY, KeptReports(w.cx.nodes, report.nodes), map[]))
  {
    hide EvalNode, Lawful, IsReference, Earned, UnownedSame, LastReplayable, SameBase, ChildrenOf, Matches, OwnFits, OwnSame,
         ReportMatches, ValidNodeReport;
    var kept := KeptReports(w.cx.nodes, report.nodes);
    forall id | id in kept
      ensures ChildrenOf(report.nodes, id) == [] && ValidNodeReport(w.cx.nodes[id], kept[id])
      ensures forall k :: k in kept[id].outputRefs ==>
        k in report.outputs.artifacts && report.outputs.artifacts[k].uri == kept[id].outputRefs[k]
      ensures ReportMatches(w, ref, id, kept[id]) && Earned(w, ref, more, id) && w.cx.deps[id] <= kept.Keys
    {
      NoChildren(w, report.nodes, id);
      ReportAccepted(w, full, ref, input, st, id);
      ProducedSlots(w, full, ref, input, st, id);
      EarnedGrows(w, ref, input, more, id);
    }
  }

  /** A faithful report is accepted as a checkpoint exactly when none of its artifacts has drifted, and the checkpoint
      is faithful for any larger approval. */
  lemma CheckpointAccepted(w: World, full: Io, ref: RunState, input: Io, more: Io, files: Files, report: ExecutionReport, st: RunState)
    requires Setting(w, full, ref, input, None) && FaithfulReport(w, ref, input, report) && ApprovedIn(w, input, more)
    requires Sim(w, ref, input, None, st) && report.nodes == st.reports && report.outputs == st.outputs
    ensures var prepared := PrepareCheckpoint(w.cx, files, report);
      && (prepared.Success? <==> Undrifted(w.cx, files, report))
      && (prepared.Failure? ==> prepared.error == BadArtifact)
    ensures Undrifted(w.cx, files, report) ==>
      var ck := PrepareCheckpoint(w.cx, files, report).value;
      && FaithfulCheckpoint(w, ref, more, ck)
      && ck.nodeReports == KeptReports(w.cx.nodes, report.nodes)
      && ck.outputs == RestoredOutputs(w.cx, st.outputs, ck.nodeReports, map[])
  {
    hide EvalNode, Setting, Sim, Earned, RestoredOutputs, ReportMatches, PrepareCheckpoint, KeptReports, KeptFits, Undrifted;
    FaithfulFits(w, full, ref, input, more, report, st);
    PreparedUnlessDrifted(w.cx, files, report);
  }

  lemma RestoredSlots(w: World, full: Io, ref: RunState, input: Io, st: RunState, n: string)
    requires Setting(w, full, ref, input, None) && Sim(w, ref, input, None, st)
    requires n in KeptReports(w.cx.nodes, st.reports)
    ensures OwnSame(w, n, RestoredOutputs(w.cx, st.outputs, KeptReports(w.cx.nodes, st.reports), map[]), ref.outputs)
  {
    hide EvalNode, Lawful, IsReference, Earned, UnownedSame, LastReplayable, SameBase, Sim, ReportMatches, NodeOutcome, RestoredOutputs,
         Setting;
    var kept := KeptReports(w.cx.nodes, st.reports);
    SettingLawful(w, full, ref, input, None);
    ProducedSlots(w, full, ref, input, st, n);
    var produced := NodeOutcome(w, n, ref).produced;
    RestoredKeeps(w, st.outputs, kept, n);
    forall k | OwnedBy(w, k, n)
      ensures SameSlot(RestoredOutputs(w.cx, st.outputs, kept, map[]), ref.outputs, k)
    {
      assert SameSlot(st.outputs, ref.outputs, k) && SameSlot(ref.outputs, produced, k);
      assert k in produced.artifacts <==> k in kept[n].outputRefs;
    }
  }

  /** Restored outputs hold a kept node's frozen values, and the frozen artifacts its report names. */
  lemma RestoredKeeps(w: World, frozen: Io, kept: map<string, Report>, n: string)
    requires Lawful(w) && kept.Keys <= w.cx.nodes.Keys && n in kept
    ensures forall k :: OwnedBy(w, k, n) && (k in frozen.artifacts ==> k in kept[n].outputRefs) ==>
      SameSlot(RestoredOutputs(w.cx, frozen, kept, map[]), frozen, k)
  {
    hide LawfulNode;
  }

  lemma RestoredOwned(w: World, full: Io, ref: RunState, input: Io, st: RunState, k: string)
    requires Setting(w, full, ref, input, None) && Sim(w, ref, input, None, st)
    requires !EmptySlot(RestoredOutputs(w.cx, st.outputs, KeptReports(w.cx.nodes, st.reports), map[]), k)
    ensures exists n :: n in KeptReports(w.cx.nodes, st.reports) && OwnedBy(w, k, n)
  {
    hide EvalNode, Lawful, IsReference, Earned, UnownedSame, LastReplayable, SameBase, Sim, ReportMatches, NodeOutcome, OwnSame;
    var kept := KeptReports(w.cx.nodes, st.reports);
    SettingLawful(w, full, ref, input, None);
    var restored := RestoredOutputs(w.cx, st.outputs, kept, map[]);
    if k in restored.values {
      var id :| id in kept && (k == id || k in w.cx.nodes[id].outputs);
      assert OwnedBy(w, k, id);
    } else {
      var id :| id in kept && k in kept[id].outputRefs;
      ProducedSlots(w, full, ref, input, st, id);
      assert OwnedBy(w, k, id);
    }
  }

  lemma ResumedUnowned(w: World, full: Io, ref: RunState, input: Io, resume: Io, st: RunState, ck: Checkpoint, k: string)
    requires Setting(w, full, ref, input, None) && Sim(w, ref, input, None, st) && Unowned(w, k)
    requires ck.nodeReports == KeptReports(w.cx.nodes, st.reports)
    requires ck.outputs == RestoredOutputs(w.cx, st.outputs, ck.nodeReports, map[])
    ensures SameSlot(Merge(Merge(input, ck.outputs), resume), Merge(input, resume), k)
  {
    hide EvalNode, IsReference, Sim, SameBase, RestoredOutputs, KeptReports, Lawful;
    if !EmptySlot(ck.outputs, k) {
      RestoredOwned(w, full, ref, input, st, k);
      assert false;
    }
  }

  lemma ResumedOwned(w: World, full: Io, ref: RunState, input: Io, resume: Io, st: RunState, ck: Checkpoint, n: string)
    requires Setting(w, full, ref, input, None) && Sim(w, ref, input, None, st) && n in w.cx.nodes
    requires PlainInput(w, Merge(input, resume))
    requires ck.nodeReports == KeptReports(w.cx.nodes, st.reports)
    requires ck.outputs == RestoredOutputs(w.cx, st.outputs, ck.nodeReports, map[])
    ensures OwnSame(w, n, Merge(Merge(input, ck.outputs), resume), ck.outputs)
    ensures n !in ck.nodeReports ==> OwnEmpty(w, n, Merge(Merge(input, ck.outputs), resume))
  {
    hide EvalNode, IsReference, Sim, SameBase, RestoredOutputs, KeptReports, LawfulNode, Indexed;
    var outputs, all := Merge(Merge(input, ck.outputs), resume), Merge(input, resume);
    SettingLawful(w, full, ref, input, None);
    forall k | OwnedBy(w, k, n)
      ensures SameSlot(outputs, ck.outputs, k)
      ensures n !in ck.nodeReports ==> EmptySlot(outputs, k)
    {
      assert EmptySlot(all, k) || Unowned(w, k);
      if !EmptySlot(ck.outputs, k) {
        RestoredOwned(w, full, ref, input, st, k);
      }
    }
  }

  /** The outputs a resumed run starts from are its accumulated input plus the replayed outputs. */
  lemma ResumedStarts(w: World, full: Io, ref: RunState, input: Io, resume: Io, st: RunState, ck: Checkpoint)
    requires Setting(w, full, ref, input, None) && Sim(w, ref, input, None, st)
    requires PlainInput(w, Merge(input, resume))
    requires ck.nodeReports == KeptReports(w.cx.nodes, st.reports)
    requires ck.outputs == RestoredOutputs(w.cx, st.outputs, ck.nodeReports, map[])
    ensures StartsFrom(w, ref, Merge(input, resume), Some(ck), Merge(Merge(input, ck.outputs), resume))
  {
    hide EvalNode, Setting, Sim, RestoredOutputs, KeptReports, PlainInput, OwnSame, OwnEmpty, SameSlot, Merge;
    var outputs := Merge(Merge(input, ck.outputs), resume);
    forall k | Unowned(w, k)
      ensures SameSlot(outputs, Merge(input, resume), k)
    {
      ResumedUnowned(w, full, ref, input, resume, st, ck, k);
    }
    forall n | n in w.cx.nodes
      ensures if n in ck.nodeReports then OwnSame(w, n, outputs, ref.outputs) else OwnEmpty(w, n, outputs)
    {
      ResumedOwned(w, full, ref, input, resume, st, ck, n);
      if n in ck.nodeReports {
        RestoredSlots(w, full, ref, input, st, n);
        OwnSameTransitive(w, n, outputs, ck.outputs, ref.outputs);
      }
    }
  }

  // ---- Theorems ----

  lemma SameIo(a: Io, b: Io)
    requires forall k :: SameSlot(a, b, k)
    ensures a == b
  {
    assert forall k :: k in a.values <==> k in b.values by {
      forall k ensures k in a.values <==> k in b.values { assert SameSlot(a, b, k); }
    }
    assert forall k :: k in a.artifacts <==> k in b.artifacts by {
      forall k ensures k in a.artifacts <==> k in b.artifacts { assert SameSlot(a, b, k); }
    }
    forall k | k in a.values ensures a.values[k] == b.values[k] { assert SameSlot(a, b, k); }
    forall k | k in a.artifacts ensures a.artifacts[k] == b.artifacts[k] { assert SameSlot(a, b, k); }
    assert a.values == b.values && a.artifacts == b.artifacts;
  }

  ghost predicate SameEnd(st: RunState, ref: RunState) {
    st.statuses == ref.statuses && st.selections == ref.selections && st.outputs == ref.outputs
    && OverallStatus(st.reports) == OverallStatus(ref.reports)
  }

  lemma FinishedSlots(w: World, full: Io, ref: RunState, ck: Option<Checkpoint>, st: RunState, k: string)
    requires Setting(w, full, ref, full, ck) && Sim(w, ref, full, ck, st) && st.statuses.Keys == w.cx.nodes.Keys
    ensures SameSlot(st.outputs, ref.outputs, k)
  {
    hide EvalNode, Lawful, Earned, ReportsMatch, Seeded, AwaitingExplained, Skips, FaithfulCheckpoint;
    if Unowned(w, k) {
      assert SameSlot(ref.outputs, full, k) && SameSlot(st.outputs, full, k);
    } else {
      var n :| OwnedBy(w, k, n);
      assert OwnFits(w, ref, n, st.outputs);
      if UsableIn(n, st.statuses) {
        assert Matches(w, ref, full, n, st);
      } else {
        ReferenceOutcome(w, full, ref, n);
        UnusableEmpty(w, full, ref, n);
        assert EmptySlot(st.outputs, k) && EmptySlot(ref.outputs, k);
      }
    }
  }

  lemma UnusableEmpty(w: World, full: Io, ref: RunState, n: string)
    requires Lawful(w) && IsReference(w, full, ref) && n in w.cx.nodes && !Usable(ref.statuses[n])
    ensures OwnEmpty(w, n, ref.outputs)
  {
    hide EvalNode, Lawful, AwaitingExplained, Skips;
    assert RuleHolds(w, n, ref);
    if !Skips(w.cx, n, ref) {
      EvalShape(w, n, ref.outputs, ref.statuses);
      forall k | OwnedBy(w, k, n)
        ensures EmptySlot(ref.outputs, k)
      {
        assert SameSlot(ref.outputs, NodeOutcome(w, n, ref).produced, k);
      }
    }
  }

  /** A simulated run that handled every node under the full input ends exactly like the reference. */
  lemma FinishedEnd(w: World, full: Io, ref: RunState, ck: Option<Checkpoint>, st: RunState)
    requires Setting(w, full, ref, full, ck) && Sim(w, ref, full, ck, st) && LowerHandled(w, |w.layers|, st)
    requires FinalStatuses(ref.reports) == ref.statuses
    ensures SameEnd(st, ref)
  {
    hide EvalNode, Lawful, Earned, Seeded, AwaitingExplained, Skips, FaithfulCheckpoint, OwnFits, UnownedSame, OwnSame, SameSlot, OwnEmpty;
    SettingLawful(w, full, ref, full, ck);
    AllHandled(w, st);
    forall k
      ensures SameSlot(st.outputs, ref.outputs, k)
    {
      FinishedSlots(w, full, ref, ck, st, k);
    }
    SameIo(st.outputs, ref.outputs);
    assert st.statuses == ref.statuses;
    forall n | n in ref.selections
      ensures n in st.selections
    {
      assert RuleHolds(w, n, ref);
      EvalShape(w, n, ref.outputs, ref.statuses);
      assert UsableIn(n, st.statuses) && Matches(w, ref, full, n, st);
    }
    assert st.selections == ref.selections;
  }

  lemma AllHandled(w: World, st: RunState)
    requires Indexed(w) && LowerHandled(w, |w.layers|, st) && st.statuses.Keys <= w.cx.nodes.Keys
    ensures st.statuses.Keys == w.cx.nodes.Keys
  {
    forall n | n in w.cx.nodes
      ensures n in st.statuses
    {
      var i: nat :| InLayer(w.layers, n, i);
    }
  }

  /** An uninterrupted run under all approvals is a reference, and its reports tell its statuses. */
  lemma UninterruptedIsReference(w: World, full: Io, cancel: CancelSignal)
    requires Lawful(w) && Layered(w.cx, w.layers) && PlainInput(w, full) && AllApproved(w, full) && NeverCancelled(cancel)
    requires RunFresh(w.cx, w.layers, full, cancel).Going?
    ensures var ref := RunFresh(w.cx, w.layers, full, cancel).st;
      IsReference(w, full, ref) && RunsThrough(w, ref) && FinalStatuses(ref.reports) == ref.statuses
  {
    hide EvalNode, Lawful, Settled, RunLayers, AwaitingExplained, StartsFrom, LowerHandled, PlainInput;
    FreshStart(w, full);
    FreshRun(w, full, 0, Fresh(full), cancel);
    var ref := RunFresh(w.cx, w.layers, full, cancel).st;
    SameSlotReflexive(full);
    PlainStarts(w, ref, full);
    SimStart(w, full, ref, full, None, full);
    SimRun(w, full, ref, full, None, 0, Fresh(full), cancel);
  }

  /** A first run under any of the approvals leaves a faithful report. */
  lemma FirstReportFaithful(w: World, full: Io, ref: RunState, input: Io, cancel: CancelSignal)
    requires Setting(w, full, ref, input, None) && PlainInput(w, input) && NeverCancelled(cancel)
    ensures FaithfulReport(w, ref, input, Conclude(w.cx, input, RunFresh(w.cx, w.layers, input, cancel)))
  {
    hide EvalNode, Lawful, Settled, RunLayers, AwaitingExplained, StartsFrom, LowerHandled, SameBase, PlainInput, Sim, OverallStatus;
    PlainStarts(w, ref, input);
    SimStart(w, full, ref, input, None, input);
    SimRun(w, full, ref, input, None, 0, Fresh(input), cancel);
  }

  lemma DropCheckpoint(w: World, ref: RunState, input: Io, ck: Option<Checkpoint>, st: RunState)
    requires Sim(w, ref, input, ck, st)
    ensures Sim(w, ref, input, None, st)
  {
    hide Matches, OwnFits, SelectionsFit, UnownedSame, ReportsMatch, AllApproved;
  }

  /** Resuming a faithful report with more approvals is refused only for drifted artifacts, and else leaves a faithful
      report; with all approvals the run finishes exactly like a reference that runs through. */
  lemma ResumeStep(w: World, full: Io, ref: RunState, input: Io, report: ExecutionReport, resume: Io, files: Files, cancel: CancelSignal)
    requires Setting(w, full, ref, input, None) && FaithfulReport(w, ref, input, report) && NeverCancelled(cancel)
    requires SameBase(w, Merge(input, resume), full) && ApprovedIn(w, input, Merge(input, resume)) && PlainInput(w, Merge(input, resume))
    ensures var end := Execute(w.cx, w.layers, resume, Some(report), files, cancel);
      (end.Success? <==> Undrifted(w.cx, files, report)) && (end.Failure? ==> end.error == BadArtifact)
    ensures Undrifted(w.cx, files, report) ==>
      var next := Execute(w.cx, w.layers, resume, Some(report), files, cancel).value;
      && FaithfulReport(w, ref, Merge(input, resume), next)
      && (Merge(input, resume) == full && RunsThrough(w, ref) && FinalStatuses(ref.reports) == ref.statuses ==>
            next.status == OverallStatus(ref.reports) && next.outputs == ref.outputs && FinalStatuses(next.nodes) == ref.statuses)
  {
    hide EvalNode, Lawful, IsReference, RunLayers, StartsFrom, LowerHandled, SameBase, PlainInput, Sim, OverallStatus, PrepareCheckpoint, Undrifted,
         FaithfulCheckpoint, RestoredOutputs, KeptReports, ApprovedIn, FinalStatuses, Merge, RunsThrough;
    var st :| Sim(w, ref, input, None, st) && report.nodes == st.reports && report.outputs == st.outputs;
    var all := Merge(input, resume);
    CheckpointAccepted(w, full, ref, input, all, files, report, st);
    if Undrifted(w.cx, files, report) {
      var ck := PrepareCheckpoint(w.cx, files, report).value;
      ResumedStarts(w, full, ref, input, resume, st, ck);
      var outputs := Merge(Merge(input, ck.outputs), resume);
      SimStart(w, full, ref, all, Some(ck), outputs);
      ReferenceLayered(w, full, ref);
      SimRun(w, full, ref, all, Some(ck), 0, Fresh(outputs), cancel);
      var p := RunResumed(w.cx, w.layers, report.input, ck, resume, cancel);
      DropCheckpoint(w, ref, all, Some(ck), p.st);
      if all == full && RunsThrough(w, ref) && FinalStatuses(ref.reports) == ref.statuses {
        FinishedEnd(w, full, ref, Some(ck), p.st);
        SimFinalStatuses(w, ref, all, p.st);
      }
    }
  }

  lemma ReferenceLayered(w: World, full: Io, ref: RunState)
    requires IsReference(w, full, ref)
    ensures Layered(w.cx, w.layers) && AllApproved(w, full)
  {
  }

  lemma SimFinalStatuses(w: World, ref: RunState, input: Io, st: RunState)
    requires Sim(w, ref, input, None, st)
    ensures FinalStatuses(st.reports) == st.statuses
  {
    hide Matches, OwnFits, SelectionsFit, UnownedSame, AllApproved, FinalStatuses;
  }

  /** One resume: its input, and the files as they are when it starts. */
  datatype Resumption = Resumption(input: Io, files: Files)

  /** Resume `report` time after time, each time from the latest report. */
  ghost function ResumeAll(cx: Context, layers: seq<seq<string>>, report: ExecutionReport, resumes: seq<Resumption>, cancel: CancelSignal)
    : Result<ExecutionReport, CheckpointError>
    requires Layered(cx, layers)
    decreases |resumes|
  {
    if resumes == [] then Success(report)
    else
      var next := Execute(cx, layers, resumes[0].input, Some(report), resumes[0].files, cancel);
      if next.Failure? then next else ResumeAll(cx, layers, next.value, resumes[1..], cancel)
  }

  /** Whenever a report is resumed, none of the artifacts it restores has drifted. */
  ghost predicate NeverDrifts(cx: Context, layers: seq<seq<string>>, report: ExecutionReport, resumes: seq<Resumption>, cancel: CancelSignal)
    requires Layered(cx, layers)
    decreases |resumes|
  {
    resumes == [] ||
    (Undrifted(cx, resumes[0].files, report) &&
     var next := Execute(cx, layers, resumes[0].input, Some(report), resumes[0].files, cancel);
     next.Success? ==> NeverDrifts(cx, layers, next.value, resumes[1..], cancel))
  }

  // ---- Refused only for drift ----

  /** Approvals only accumulate, and plain inputs stay. */
  ghost predicate Grows(w: World, input: Io, resumes: seq<Resumption>)
    decreases |resumes|
  {
    if resumes == [] then true
    else
      var next := Merge(input, resumes[0].input);
      SameBase(w, next, input) && ApprovedIn(w, input, next) && PlainInput(w, next) && Grows(w, next, resumes[1..])
  }

  /** The input with every approval key set. */
  ghost function Completed(w: World, input: Io): Io {
    Io(input.values + map k | k in w.keys :: Bool(true), input.artifacts)
  }

  lemma CompletedFits(w: World, input: Io)
    requires Lawful(w) && PlainInput(w, input)
    ensures SameBase(w, input, Completed(w, input)) && AllApproved(w, Completed(w, input)) && PlainInput(w, Completed(w, input))
  {
    hide LawfulNode, Indexed;
    forall k | !EmptySlot(Completed(w, input), k)
      ensures Unowned(w, k)
    {
      assert k in w.keys || !EmptySlot(input, k);
    }
  }

  lemma SameBaseTransitive(w: World, a: Io, b: Io, c: Io)
    requires SameBase(w, a, b) && SameBase(w, b, c)
    ensures SameBase(w, a, c)
  {
    forall k | k !in w.keys
      ensures SameSlot(a, c, k)
    {
      assert SameSlot(a, b, k) && SameSlot(b, c, k);
    }
  }

  lemma {:induction false} FaithfulResumes(w: World, full: Io, ref: RunState, input: Io, report: ExecutionReport,
                                           resumes: seq<Resumption>, cancel: CancelSignal)
    requires Setting(w, full, ref, input, None) && FaithfulReport(w, ref, input, report) && NeverCancelled(cancel)
    requires Grows(w, input, resumes) && Layered(w.cx, w.layers)
    ensures var end := ResumeAll(w.cx, w.layers, report, resumes, cancel);
      && (end.Success? <==> NeverDrifts(w.cx, w.layers, report, resumes, cancel))
      && (end.Failure? ==> end.error == BadArtifact)
    decreases |resumes|
  {
    hide EvalNode, Lawful, IsReference, SameBase, PlainInput, OverallStatus, ApprovedIn, FinalStatuses, Merge, FaithfulReport, Execute, RunsThrough,
         Undrifted;
    if resumes != [] {
      var next := Merge(input, resumes[0].input);
      SameBaseTransitive(w, next, input, full);
      ResumeStep(w, full, ref, input, report, resumes[0].input, resumes[0].files, cancel);
      if Undrifted(w.cx, resumes[0].files, report) {
        var later := Execute(w.cx, w.layers, resumes[0].input, Some(report), resumes[0].files, cancel).value;
        FaithfulResumes(w, full, ref, next, later, resumes[1..], cancel);
      }
    }
  }

  /** A lawful run, however it ends, resumed from its latest report any number of times with more approvals: a resume
      is refused exactly when an artifact that it would restore has drifted from its file, and for no other reason,
      even where a handler itself keeps the run waiting. */
  lemma RefusedOnlyForDrift(w: World, first: Io, resumes: seq<Resumption>, cancel: CancelSignal)
    requires Lawful(w) && Layered(w.cx, w.layers) && NeverCancelled(cancel)
    requires PlainInput(w, first) && Grows(w, first, resumes)
    ensures var report := Conclude(w.cx, first, RunFresh(w.cx, w.layers, first, cancel));
      var end := ResumeAll(w.cx, w.layers, report, resumes, cancel);
      && (end.Success? <==> NeverDrifts(w.cx, w.layers, report, resumes, cancel))
      && (end.Failure? ==> end.error == BadArtifact)
  {
    hide EvalNode, Lawful, SameBase, PlainInput, RunLayers, Grows, ResumeAll, NeverDrifts, Settled, DoneBelow, AllApproved;
    var full := Completed(w, first);
    CompletedFits(w, first);
    FreshStart(w, full);
    assert Fresh(full).statuses.Keys == {};
    var ref := SettleAll(w, full, 0, Fresh(full));
    FirstReportFaithful(w, full, ref, first, cancel);
    FaithfulResumes(w, full, ref, first, Conclude(w.cx, first, RunFresh(w.cx, w.layers, first, cancel)), resumes, cancel);
  }

  // ---- Ends alike ----

  /** Approvals only accumulate, plain inputs stay those of `full`, and the last input completes `full`. */
  ghost predicate Approaches(w: World, full: Io, input: Io, resumes: seq<Resumption>)
    decreases |resumes|
  {
    if resumes == [] then input == full
    else
      var next := Merge(input, resumes[0].input);
      SameBase(w, next, full) && ApprovedIn(w, input, next) && PlainInput(w, next) && Approaches(w, full, next, resumes[1..])
  }

  /** Every artifact of `outputs` is intact whenever the run is resumed. */
  ghost predicate StayIntact(outputs: Io, resumes: seq<Resumption>) {
    forall i, k :: 0 <= i < |resumes| && k in outputs.artifacts ==> Intact(resumes[i].files, outputs.artifacts[k])
  }

  /** A faithful report restores only artifacts of the reference. */
  lemma ReferenceUndrifted(w: World, full: Io, ref: RunState, input: Io, report: ExecutionReport, files: Files)
    requires Setting(w, full, ref, input, None) && FaithfulReport(w, ref, input, report)
    requires forall k :: k in ref.outputs.artifacts ==> Intact(files, ref.outputs.artifacts[k])
    ensures Undrifted(w.cx, files, report)
  {
    hide EvalNode, Setting, Sim, LastReplayable, ValidNodeReport, Intact;
    var st :| Sim(w, ref, input, None, st) && report.nodes == st.reports && report.outputs == st.outputs;
    forall id | id in KeptReports(w.cx.nodes, report.nodes)
      ensures forall k :: k in KeptReports(w.cx.nodes, report.nodes)[id].outputRefs ==>
        k in st.outputs.artifacts && k in ref.outputs.artifacts && st.outputs.artifacts[k] == ref.outputs.artifacts[k]
    {
      ReportAccepted(w, full, ref, input, st, id);
    }
  }

  lemma {:induction false} ResumesApproach(w: World, full: Io, ref: RunState, input: Io, report: ExecutionReport,
                                           resumes: seq<Resumption>, cancel: CancelSignal)
    requires Setting(w, full, ref, input, None) && FaithfulReport(w, ref, input, report) && NeverCancelled(cancel)
    requires FinalStatuses(ref.reports) == ref.statuses && RunsThrough(w, ref)
    requires Approaches(w, full, input, resumes) && Layered(w.cx, w.layers)
    ensures var end := ResumeAll(w.cx, w.layers, report, resumes, cancel);
      && (end.Success? <==> NeverDrifts(w.cx, w.layers, report, resumes, cancel))
      && (StayIntact(ref.outputs, resumes) ==> end.Success?)
      && (end.Success? && resumes != [] ==>
            end.value.status == OverallStatus(ref.reports) && end.value.outputs == ref.outputs && FinalStatuses(end.value.nodes) == ref.statuses)
    decreases |resumes|
  {
    hide EvalNode, Lawful, IsReference, SameBase, PlainInput, OverallStatus, ApprovedIn, FinalStatuses, Merge, FaithfulReport, Execute, RunsThrough,
         Undrifted, Intact;
    if resumes != [] {
      ResumeStep(w, full, ref, input, report, resumes[0].input, resumes[0].files, cancel);
      if StayIntact(ref.outputs, resumes) {
        ReferenceUndrifted(w, full, ref, input, report, resumes[0].files);
      }
      if Undrifted(w.cx, resumes[0].files, report) {
        var next := Execute(w.cx, w.layers, resumes[0].input, Some(report), resumes[0].files, cancel).value;
        ResumesApproach(w, full, ref, Merge(input, resumes[0].input), next, resumes[1..], cancel);
      }
    }
  }

  /** A lawful run that is paused any number of times and each time resumed from its own report ends, once every
      approval key is set, with the overall status, the node statuses and the outputs of one uninterrupted run that
      had those keys from the start. Only a drifted artifact can stop it, and none does as long as the artifacts of
      the uninterrupted run stay as recorded. */
  lemma ResumedEndsLikeUninterrupted(w: World, full: Io, first: Io, resumes: seq<Resumption>, cancel: CancelSignal)
    requires Lawful(w) && Layered(w.cx, w.layers) && NeverCancelled(cancel)
    requires PlainInput(w, full) && AllApproved(w, full) && RunFresh(w.cx, w.layers, full, cancel).Going?
    requires PlainInput(w, first) && SameBase(w, first, full)
    requires resumes != [] && Approaches(w, full, first, resumes)
    ensures var report := Conclude(w.cx, first, RunFresh(w.cx, w.layers, first, cancel));
      var uninterrupted := Conclude(w.cx, full, RunFresh(w.cx, w.layers, full, cancel));
      var resumed := ResumeAll(w.cx, w.layers, report, resumes, cancel);
      && (resumed.Success? <==> NeverDrifts(w.cx, w.layers, report, resumes, cancel))
      && (StayIntact(uninterrupted.outputs, resumes) ==> resumed.Success?)
      && (resumed.Success? ==>
            && resumed.value.status == uninterrupted.status
            && FinalStatuses(resumed.value.nodes) == FinalStatuses(uninterrupted.nodes)
            && resumed.value.outputs == uninterrupted.outputs)
  {
    hide EvalNode, Lawful, SameBase, PlainInput, OverallStatus, FinalStatuses, RunLayers, Approaches, ResumeAll, NeverDrifts, StayIntact,
         IsReference, RunsThrough;
    UninterruptedIsReference(w, full, cancel);
    var ref := RunFresh(w.cx, w.layers, full, cancel).st;
    FirstReportFaithful(w, full, ref, first, cancel);
    ResumesApproach(w, full, ref, first, Conclude(w.cx, first, RunFresh(w.cx, w.layers, first, cancel)), resumes, cancel);
  }
}
