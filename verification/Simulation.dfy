/** Any lawful run with some of the approvals, fresh or resumed, agrees with the uninterrupted run wherever a
    node ended usable; with all approvals it agrees everywhere. */
module Simulation {
  import opened Results
  import opened Manifest
  import opened Graph
  import opened Layers
  import opened DagIo
  import opened NodeRules
  import opened Executor
  import opened Locality
  import opened RunMoves
  import opened Reference

  /** Every node settled under an input that approves every key, whether or not a run would pause on the way. */
  ghost predicate IsReference(w: World, full: Io, ref: RunState) {
    && Settled(w, full, ref)
    && ref.statuses.Keys == w.cx.nodes.Keys
    && AllApproved(w, full)
    && Layered(w.cx, w.layers)
  }

  /** A run that settles the nodes like this does not pause. */
  ghost predicate RunsThrough(w: World, ref: RunState) {
    Layered(w.cx, w.layers) && forall g :: 0 <= g < |w.layers| ==> AwaitingExplained(w, w.layers[g], ref.statuses)
  }

  ghost predicate SameBase(w: World, input: Io, full: Io) {
    forall k {:trigger SameSlot(input, full, k)} :: k !in w.keys ==> SameSlot(input, full, k)
  }

  /** `n` ends usable under no more approvals than `input` gives. */
  ghost predicate Earned(w: World, ref: RunState, input: Io, n: string)
    requires n in w.cx.nodes
  {
    exists io :: AgreeFor(w, n, io, ref.outputs) && ApprovedIn(w, io, input)
                 && Usable(EvalNode(w.cx, w.cx.nodes[n], io, ref.statuses).status)
  }

  ghost predicate UsableIn(n: string, statuses: map<string, NodeStatus>) {
    n in statuses && Usable(statuses[n])
  }

  /** A usable node carries the reference's status, selection and outputs, and so do its predecessors. */
  ghost predicate Matches(w: World, ref: RunState, input: Io, n: string, st: RunState)
    requires n in w.cx.nodes && n in w.cx.deps
  {
    && n in st.statuses && n in ref.statuses && st.statuses[n] == ref.statuses[n]
    && Earned(w, ref, input, n)
    && OwnSame(w, n, st.outputs, ref.outputs)
    && (n in ref.selections ==> n in st.selections)
    && (forall d :: d in w.cx.deps[n] ==> UsableIn(d, st.statuses))
  }

  ghost predicate ReportMatches(w: World, ref: RunState, n: string, r: Report)
    requires n in w.cx.nodes
  {
    var ev := NodeOutcome(w, n, ref);
    UsableIn(n, ref.statuses) && ReportsOutcome(r, w.cx.nodes[n], ref.statuses[n], ev.produced, ev.selected)
  }

  /** The replayable reports are those of the usable nodes and say what the reference says. */
  ghost predicate ReportsMatch(w: World, ref: RunState, st: RunState) {
    && FinalStatuses(st.reports) == st.statuses
    && (forall r :: r in st.reports ==> r.nodeId in w.cx.nodes)
    && (forall n {:trigger LastReplayable(st.reports, n)} :: n in w.cx.nodes ==>
          && (LastReplayable(st.reports, n).Some? <==> UsableIn(n, st.statuses))
          && (LastReplayable(st.reports, n).Some? ==> ReportMatches(w, ref, n, LastReplayable(st.reports, n).value)))
  }

  /** Owned keys are untouched, or hold what the reference holds. */
  ghost predicate OwnFits(w: World, ref: RunState, n: string, outputs: Io) {
    OwnEmpty(w, n, outputs) || (UsableIn(n, ref.statuses) && OwnSame(w, n, outputs, ref.outputs))
  }

  /** A checkpoint prepared from a faithful report. */
  ghost predicate FaithfulCheckpoint(w: World, ref: RunState, input: Io, ck: Checkpoint) {
    && w.cx.nodes.Keys == w.cx.deps.Keys
    && ck.nodeReports.Keys <= w.cx.nodes.Keys
    && ck.childReports == map[]
    && (forall n {:trigger n in ck.nodeReports} :: n in ck.nodeReports ==>
          ReportMatches(w, ref, n, ck.nodeReports[n]) && Earned(w, ref, input, n) && w.cx.deps[n] <= ck.nodeReports.Keys)
  }

  ghost predicate Seeded(w: World, ref: RunState, ck: Option<Checkpoint>, st: RunState) {
    ck.Some? ==> forall n {:trigger OwnSame(w, n, st.outputs, ref.outputs)} :: n in ck.value.nodeReports ==>
      OwnSame(w, n, st.outputs, ref.outputs) && (n in st.statuses ==> Usable(st.statuses[n]))
  }

  ghost predicate ProperStatuses(w: World, st: RunState) {
    && st.statuses.Keys <= w.cx.nodes.Keys
    && forall n :: n in st.statuses ==> st.statuses[n] in {Ok, Degraded, Failed, AwaitingApproval, Skipped}
  }

  ghost predicate SelectionsFit(ref: RunState, st: RunState) {
    forall n :: n in st.selections ==> n in ref.selections && st.selections[n] == ref.selections[n]
  }

  /** The simulation relation; `input` is the accumulated input of the run. */
  ghost predicate Sim(w: World, ref: RunState, input: Io, ck: Option<Checkpoint>, st: RunState) {
    && w.cx.nodes.Keys == w.cx.deps.Keys
    && ProperStatuses(w, st)
    && (forall n {:trigger Matches(w, ref, input, n, st)} :: n in w.cx.nodes && UsableIn(n, st.statuses) ==> Matches(w, ref, input, n, st))
    && (forall n {:trigger OwnFits(w, ref, n, st.outputs)} :: n in w.cx.nodes ==> OwnFits(w, ref, n, st.outputs))
    && SelectionsFit(ref, st)
    && UnownedSame(w, st.outputs, input)
    && ReportsMatch(w, ref, st)
    && Seeded(w, ref, ck, st)
    && (AllApproved(w, input) ==> forall n :: n in st.statuses ==> n in ref.statuses && st.statuses[n] == ref.statuses[n])
  }

  /** The standing assumptions of a simulation. */
  ghost predicate Setting(w: World, full: Io, ref: RunState, input: Io, ck: Option<Checkpoint>) {
    && Lawful(w) && IsReference(w, full, ref) && SameBase(w, input, full)
    && (ck.Some? ==> FaithfulCheckpoint(w, ref, input, ck.value))
  }

  // ---- What a node sees ----

  lemma {:induction false} AncestorsUsable(w: World, st: RunState, ref: RunState, input: Io, ck: Option<Checkpoint>, a: string, n: string)
    requires Lawful(w) && Sim(w, ref, input, ck, st) && n in w.cx.deps
    requires forall d :: d in w.cx.deps[n] ==> UsableIn(d, st.statuses)
    requires Reaches(w.edges, a, n)
    ensures UsableIn(a, st.statuses)
  {
    hide EvalNode, LawfulNode, Earned, OwnSame, ReportsMatch, Seeded, OwnFits, UnownedSame;
    var usable := set x | x in w.cx.nodes && UsableIn(x, st.statuses);
    forall x | x in usable
      ensures w.cx.deps[x] <= usable
    {
      assert Matches(w, ref, input, x, st);
      forall d | d in w.cx.deps[x]
        ensures d in usable
      {
        assert IsEdge(w.edges, d, x);
      }
    }
    var d := ReachesLastEdge(w.edges, a, n);
    assert d in w.cx.deps[n];
    if d != a {
      var p :| PathBetween(w.edges, p, a, d);
      AncestorsHandled(w, usable, p, a, d);
    }
  }

  /** A node whose predecessors are all usable sees what the reference shows it. */
  lemma SeesReference(w: World, full: Io, ref: RunState, input: Io, ck: Option<Checkpoint>, st: RunState, n: string)
    requires Setting(w, full, ref, input, ck) && Sim(w, ref, input, ck, st) && n in w.cx.deps
    requires forall d :: d in w.cx.deps[n] ==> UsableIn(d, st.statuses)
    ensures AgreeFor(w, n, st.outputs, ref.outputs)
    ensures SourcesAgree(w, n, st.statuses, ref.statuses)
    ensures ApprovedIn(w, st.outputs, ref.outputs)
    ensures ApprovedIn(w, st.outputs, input) && ApprovedIn(w, input, st.outputs)
  {
    hide EvalNode, LawfulNode, Earned, ReportsMatch, Seeded, OwnFits, Indexed;
    forall a | Reaches(w.edges, a, n)
      ensures UsableIn(a, st.statuses) && UsableIn(a, ref.statuses) && OwnSame(w, a, st.outputs, ref.outputs)
    {
      AncestorsUsable(w, st, ref, input, ck, a, n);
      assert Matches(w, ref, input, a, st);
    }
    forall k | !Hidden(w, n, k)
      ensures SameSlot(st.outputs, ref.outputs, k)
    {
      if Unowned(w, k) {
        UnownedAgrees(w, full, ref, input, st, k);
      } else {
        var x :| OwnedBy(w, k, x);
        assert OwnSame(w, x, st.outputs, ref.outputs);
      }
    }
    ApprovalsAgree(w, full, ref, input, st);
  }

  lemma UnownedAgrees(w: World, full: Io, ref: RunState, input: Io, st: RunState, k: string)
    requires UnownedSame(w, ref.outputs, full) && UnownedSame(w, st.outputs, input) && SameBase(w, input, full)
    requires Unowned(w, k) && k !in w.keys
    ensures SameSlot(st.outputs, ref.outputs, k)
  {
    assert SameSlot(ref.outputs, full, k) && SameSlot(st.outputs, input, k) && SameSlot(input, full, k);
  }

  lemma ApprovalsAgree(w: World, full: Io, ref: RunState, input: Io, st: RunState)
    requires Lawful(w) && UnownedSame(w, ref.outputs, full) && UnownedSame(w, st.outputs, input) && AllApproved(w, full)
    ensures ApprovedIn(w, st.outputs, ref.outputs)
    ensures ApprovedIn(w, st.outputs, input) && ApprovedIn(w, input, st.outputs)
  {
    hide EvalNode, LawfulNode, Indexed;
    forall k | k in w.keys
      ensures IsTrue(ref.outputs, k) && (IsTrue(st.outputs, k) <==> IsTrue(input, k))
    {
      assert Unowned(w, k);
      assert SameSlot(ref.outputs, full, k) && SameSlot(st.outputs, input, k);
    }
  }

  /** A reference node that is not skipped there carries its own outcome. */
  lemma ReferenceOutcome(w: World, full: Io, ref: RunState, n: string)
    requires IsReference(w, full, ref) && n in w.cx.nodes && n in w.cx.deps
    ensures Skips(w.cx, n, ref) ==> ref.statuses[n] == Skipped
    ensures !Skips(w.cx, n, ref) ==> Recorded(w, n, ref, NodeOutcome(w, n, ref))
  {
    hide EvalNode, Skips, Recorded, OwnEmpty;
    assert RuleHolds(w, n, ref);
  }

  /** If no predecessor blocks or deselects `n`, all are usable and the reference evaluates `n` too. */
  lemma UnskippedInReference(w: World, full: Io, ref: RunState, input: Io, ck: Option<Checkpoint>, st: RunState, n: string)
    requires Setting(w, full, ref, input, ck) && Sim(w, ref, input, ck, st)
    requires n in w.cx.deps && w.cx.deps[n] <= st.statuses.Keys && !Skips(w.cx, n, st)
    ensures forall d :: d in w.cx.deps[n] ==> UsableIn(d, st.statuses)
    ensures !Skips(w.cx, n, ref)
  {
    hide EvalNode, Lawful, Earned, ReportsMatch, Seeded, OwnFits, OwnSame;
    forall d | d in w.cx.deps[n]
      ensures UsableIn(d, st.statuses) && UsableIn(d, ref.statuses) && (d in ref.selections ==> n in ref.selections[d])
    {
      assert !Blocks(st.statuses[d]);
      assert Matches(w, ref, input, d, st);
    }
  }

  /** A node replayed or already usable is neither blocked nor deselected, and evaluates usable again. */
  lemma EarnedAgain(w: World, full: Io, ref: RunState, input: Io, ck: Option<Checkpoint>, st: RunState, n: string)
    requires Setting(w, full, ref, input, ck) && Sim(w, ref, input, ck, st)
    requires n in w.cx.nodes && n in w.cx.deps && Earned(w, ref, input, n) && UsableIn(n, ref.statuses)
    requires forall d :: d in w.cx.deps[n] ==> UsableIn(d, st.statuses)
    ensures !Skips(w.cx, n, st)
    ensures Usable(EvalNode(w.cx, w.cx.nodes[n], st.outputs, st.statuses).status)
  {
    hide EvalNode, Lawful, ReportsMatch, Seeded, OwnFits, OwnSame, Hidden, SameSlot, IsReference, Matches, UnownedSame, SourcesAgree;
    SeesReference(w, full, ref, input, ck, st, n);
    var io :| AgreeFor(w, n, io, ref.outputs) && ApprovedIn(w, io, input)
              && Usable(EvalNode(w.cx, w.cx.nodes[n], io, ref.statuses).status);
    AgreeSymmetric(w, n, st.outputs, ref.outputs);
    AgreeTransitive(w, n, io, ref.outputs, st.outputs);
    SourcesSymmetric(w, n, st.statuses, ref.statuses);
    EvalAgrees(w, n, io, ref.statuses, st.outputs, st.statuses);
    ReferenceOutcome(w, full, ref, n);
    assert !Skips(w.cx, n, ref);
  }

  lemma AgreeSymmetric(w: World, n: string, a: Io, b: Io)
    requires AgreeFor(w, n, a, b)
    ensures AgreeFor(w, n, b, a)
  {
    forall k | !Hidden(w, n, k)
      ensures SameSlot(b, a, k)
    {
      assert SameSlot(a, b, k);
    }
  }

  lemma SourcesSymmetric(w: World, n: string, s: map<string, NodeStatus>, t: map<string, NodeStatus>)
    requires SourcesAgree(w, n, s, t)
    ensures SourcesAgree(w, n, t, s)
  {
  }

  // ---- One move ----

  /** Everything about nodes other than `x` survives a move of `x` that leaves `x` usable if it was. */
  lemma OthersMatch(w: World, ref: RunState, input: Io, ck: Option<Checkpoint>, x: string, a: RunState, b: RunState)
    requires Lawful(w) && Sim(w, ref, input, ck, a) && ChangesOnly(w, x, a, b)
    requires UsableIn(x, a.statuses) ==> UsableIn(x, b.statuses)
    ensures forall n :: n in w.cx.nodes && n != x && UsableIn(n, b.statuses) ==> Matches(w, ref, input, n, b)
    ensures forall n :: n in w.cx.nodes && n != x ==> OwnFits(w, ref, n, b.outputs)
    ensures UnownedSame(w, b.outputs, input)
  {
    hide EvalNode, Lawful, Earned, SameSlot, ReportsMatch, Seeded, OwnSame, OwnEmpty, UnownedSame, LastReplayable;
    forall n | n in w.cx.nodes && n != x
      ensures OwnFits(w, ref, n, b.outputs)
      ensures UsableIn(n, b.statuses) ==> Matches(w, ref, input, n, b)
    {
      OwnKeysDisjoint(w, x, n, a.outputs, b.outputs);
      assert OwnFits(w, ref, n, a.outputs);
      OwnSameSymmetric(w, n, a.outputs, b.outputs);
      if OwnSame(w, n, a.outputs, ref.outputs) {
        OwnSameTransitive(w, n, b.outputs, a.outputs, ref.outputs);
      }
      if UsableIn(n, b.statuses) {
        assert Matches(w, ref, input, n, a);
      }
    }
    UnownedSurvives(w, x, input, a.outputs, b.outputs);
  }

  /** Appending reports about `x` keeps what the replayable reports of other nodes say. */
  lemma ReportsAppend(w: World, ref: RunState, x: string, a: RunState, b: RunState, more: seq<Report>)
    requires x in w.cx.nodes && ReportsMatch(w, ref, a) && b.reports == a.reports + more
    requires forall r :: r in more ==> r.nodeId == x
    requires more != [] && b.statuses == a.statuses[x := more[|more| - 1].status]
    requires UsableIn(x, b.statuses) ==> LastReplayable(more, x).Some? && ReportMatches(w, ref, x, LastReplayable(more, x).value)
    requires !UsableIn(x, b.statuses) ==> LastReplayable(more, x).None? && !UsableIn(x, a.statuses)
    ensures ReportsMatch(w, ref, b)
  {
    hide EvalNode, ReportMatches;
    FinalStatusesAppend(a.reports, more, x);
    forall n | n in w.cx.nodes
      ensures (LastReplayable(b.reports, n).Some? <==> UsableIn(n, b.statuses))
      ensures LastReplayable(b.reports, n).Some? ==> ReportMatches(w, ref, n, LastReplayable(b.reports, n).value)
    {
      LastReplayableConcat(a.reports, more, n);
      if n != x {
        LastReplayableNone(more, n);
      }
    }
  }

  lemma SeededSurvives(w: World, ref: RunState, ck: Option<Checkpoint>, x: string, a: RunState, b: RunState)
    requires Lawful(w) && Seeded(w, ref, ck, a) && ChangesOnly(w, x, a, b)
    requires ck.Some? && x in ck.value.nodeReports ==> OwnSame(w, x, b.outputs, ref.outputs) && UsableIn(x, b.statuses)
    ensures Seeded(w, ref, ck, b)
  {
    hide EvalNode, Lawful, SameSlot, OwnSame, OwnEmpty;
    if ck.Some? {
      forall n | n in ck.value.nodeReports && n != x
        ensures OwnSame(w, n, b.outputs, ref.outputs) && (n in b.statuses ==> Usable(b.statuses[n]))
      {
        assert OwnSame(w, n, a.outputs, ref.outputs);
        OwnKeysDisjoint(w, x, n, a.outputs, b.outputs);
        OwnSameSymmetric(w, n, a.outputs, b.outputs);
        OwnSameTransitive(w, n, b.outputs, a.outputs, ref.outputs);
      }
    }
  }

  /** Merging the reference's products of `x` onto fitting outputs gives the reference's slots. */
  lemma MergeFits(w: World, ref: RunState, x: string, outputs: Io, produced: Io)
    requires OwnFits(w, ref, x, outputs) && OwnSame(w, x, ref.outputs, produced)
    ensures OwnSame(w, x, Merge(outputs, produced), ref.outputs)
  {
    forall k | OwnedBy(w, k, x)
      ensures SameSlot(Merge(outputs, produced), ref.outputs, k)
    {
      assert SameSlot(ref.outputs, produced, k);
      if OwnEmpty(w, x, outputs) {
        assert EmptySlot(outputs, k);
      } else {
        assert SameSlot(outputs, ref.outputs, k);
      }
    }
  }

  /** An evaluation that the reference shares, or that did not end usable. */
  lemma EvaluatedMatches(w: World, full: Io, ref: RunState, input: Io, ck: Option<Checkpoint>, x: string, st: RunState)
    requires Setting(w, full, ref, input, ck) && Sim(w, ref, input, ck, st)
    requires x in w.cx.nodes && w.cx.deps[x] <= st.statuses.Keys && !Skips(w.cx, x, st)
    ensures var ev := NodeOutcome(w, x, st);
      Usable(ev.status) || AllApproved(w, input) ==>
        ev == NodeOutcome(w, x, ref) && Recorded(w, x, ref, ev)
    ensures Usable(NodeOutcome(w, x, st).status) ==> Earned(w, ref, input, x)
  {
    hide EvalNode, Lawful, Hidden, SameSlot, Matches, ReportsMatch, Seeded, OwnFits, OwnSame, UnownedSame, Recorded, SourcesAgree;
    UnskippedInReference(w, full, ref, input, ck, st, x);
    SeesReference(w, full, ref, input, ck, st, x);
    ReferenceOutcome(w, full, ref, x);
    if AllApproved(w, input) {
      assert ApprovedIn(w, ref.outputs, st.outputs);
    }
    if Usable(NodeOutcome(w, x, st).status) || AllApproved(w, input) {
      EvalAgrees(w, x, st.outputs, st.statuses, ref.outputs, ref.statuses);
    }
    if Usable(NodeOutcome(w, x, st).status) {
      assert SameView(w, x, st.outputs, st.outputs) by { SameViewReflexive(w, x, st.outputs); }
      EvalAgrees(w, x, st.outputs, st.statuses, st.outputs, ref.statuses);
    }
  }

  /** A node that was usable or is replayed ends its next evaluation usable. */
  lemma StaysUsable(w: World, full: Io, ref: RunState, input: Io, ck: Option<Checkpoint>, x: string, st: RunState)
    requires Setting(w, full, ref, input, ck) && Sim(w, ref, input, ck, st)
    requires x in w.cx.nodes && w.cx.deps[x] <= st.statuses.Keys
    requires UsableIn(x, st.statuses) || (ck.Some? && x in ck.value.nodeReports)
    ensures !Skips(w.cx, x, st) && Usable(NodeOutcome(w, x, st).status)
  {
    hide EvalNode, Lawful, Earned, ReportsMatch, OwnFits, OwnSame, UnownedSame, IsReference, Skips;
    if UsableIn(x, st.statuses) {
      assert Matches(w, ref, input, x, st);
    } else {
      assert ReportMatches(w, ref, x, ck.value.nodeReports[x]);
      forall d | d in w.cx.deps[x]
        ensures UsableIn(d, st.statuses)
      {
        assert d in ck.value.nodeReports;
        assert OwnSame(w, d, st.outputs, ref.outputs);
      }
    }
    EarnedAgain(w, full, ref, input, ck, st, x);
  }

  /** A move's effect on its own node, together with its frame, re-establishes the relation. */
  lemma AssembleSim(w: World, ref: RunState, input: Io, ck: Option<Checkpoint>, x: string, a: RunState, b: RunState)
    requires Lawful(w) && Sim(w, ref, input, ck, a) && ChangesOnly(w, x, a, b) && x in w.cx.nodes
    requires x in b.statuses && b.statuses[x] in {Ok, Degraded, Failed, AwaitingApproval, Skipped}
    requires UsableIn(x, a.statuses) ==> UsableIn(x, b.statuses)
    requires UsableIn(x, b.statuses) ==> Matches(w, ref, input, x, b)
    requires OwnFits(w, ref, x, b.outputs) && SelectionsFit(ref, b) && ReportsMatch(w, ref, b) && Seeded(w, ref, ck, b)
    requires AllApproved(w, input) ==> x in ref.statuses && b.statuses[x] == ref.statuses[x]
    ensures Sim(w, ref, input, ck, b)
  {
    hide EvalNode, Lawful, Earned, ReportsMatch, OwnFits, OwnSame, OwnEmpty, UnownedSame, Matches, SameSlot, Seeded, SelectionsFit;
    OthersMatch(w, ref, input, ck, x, a, b);
  }

  lemma SkipKeepsSim(w: World, full: Io, ref: RunState, input: Io, ck: Option<Checkpoint>, x: string, st: RunState)
    requires Setting(w, full, ref, input, ck) && Sim(w, ref, input, ck, st)
    requires x in w.cx.nodes && w.cx.deps[x] <= st.statuses.Keys && Skips(w.cx, x, st)
    ensures Sim(w, ref, input, ck, StepNode(w.cx, x, st))
  {
    hide EvalNode, Lawful, Earned, ReportsMatch, OwnFits, OwnSame, OwnEmpty, UnownedSame, Matches, SameSlot, LastReplayable, Seeded, Skips,
         ChangesOnly, SkipReport, FaithfulCheckpoint, AwaitingExplained, Settled;
    var st' := StepNode(w.cx, x, st);
    if UsableIn(x, st.statuses) || (ck.Some? && x in ck.value.nodeReports) {
      StaysUsable(w, full, ref, input, ck, x, st);
      assert false;
    }
    StepChangesOnly(w, x, st);
    LawfulIndexed(w);
    SkippedReports(w, x);
    assert OwnFits(w, ref, x, st.outputs);
    ReportsAppend(w, ref, x, st, st', [SkipReport(w.cx, w.cx.nodes[x])]);
    SeededSurvives(w, ref, ck, x, st, st');
    if AllApproved(w, input) {
      SkipsInReference(w, full, ref, input, ck, x, st);
    }
    AssembleSim(w, ref, input, ck, x, st, st');
  }

  lemma SkippedReports(w: World, x: string)
    requires Indexed(w) && x in w.cx.nodes
    ensures forall r :: r in [SkipReport(w.cx, w.cx.nodes[x])] ==> r.nodeId == x && r.status == Skipped
    ensures LastReplayable([SkipReport(w.cx, w.cx.nodes[x])], x).None?
  {
    LastReplayableNone([SkipReport(w.cx, w.cx.nodes[x])], x);
  }

  /** With all approvals, what is skipped here is skipped in the reference. */
  lemma SkipsInReference(w: World, full: Io, ref: RunState, input: Io, ck: Option<Checkpoint>, x: string, st: RunState)
    requires Setting(w, full, ref, input, ck) && Sim(w, ref, input, ck, st) && AllApproved(w, input)
    requires x in w.cx.nodes && w.cx.deps[x] <= st.statuses.Keys && Skips(w.cx, x, st)
    ensures ref.statuses[x] == Skipped
  {
    hide EvalNode, Lawful, Earned, ReportsMatch, OwnFits, OwnSame, UnownedSame, Matches, RuleHolds;
    ReferenceOutcome(w, full, ref, x);
    if IsUnselected(w.cx.deps[x], x, st.selections) {
      var d :| d in w.cx.deps[x] && d in st.selections && x !in st.selections[d];
      assert IsUnselected(w.cx.deps[x], x, ref.selections);
    } else {
      var d :| d in w.cx.deps[x] && d in st.statuses && Blocks(st.statuses[d]);
      assert HasBlockingDependency(w.cx.deps[x], ref.statuses);
    }
  }

  lemma EvaluationKeepsSim(w: World, full: Io, ref: RunState, input: Io, ck: Option<Checkpoint>, x: string, st: RunState)
    requires Setting(w, full, ref, input, ck) && Sim(w, ref, input, ck, st)
    requires x in w.cx.nodes && w.cx.deps[x] <= st.statuses.Keys && !Skips(w.cx, x, st)
    ensures Sim(w, ref, input, ck, StepNode(w.cx, x, st))
  {
    hide EvalNode, Lawful, Earned, ReportsMatch, OwnFits, OwnSame, OwnEmpty, UnownedSame, Matches, SameSlot, LastReplayable, Seeded, Settled,
         AwaitingExplained, FaithfulCheckpoint, SameBase, ReportMatches, ChangesOnly, Settle, Skips, ReportsOutcome;
    var ev := NodeOutcome(w, x, st);
    var st' := StepNode(w.cx, x, st);
    StepChangesOnly(w, x, st);
    EvaluatedMatches(w, full, ref, input, ck, x, st);
    EvalShape(w, x, st.outputs, st.statuses);
    EvalReports(w, x, st.outputs, st.statuses);
    if UsableIn(x, st.statuses) || (ck.Some? && x in ck.value.nodeReports) {
      StaysUsable(w, full, ref, input, ck, x, st);
    }
    LawfulIndexed(w);
    if Usable(ev.status) {
      UsableStepMatches(w, full, ref, input, ck, x, st);
      assert OwnSame(w, x, st'.outputs, ref.outputs) by { hide *; MatchesOwn(w, ref, input, x, st'); }
    } else {
      UnusableOutputs(w, x, st);
      assert OwnFits(w, ref, x, st.outputs);
    }
    ReportsAppend(w, ref, x, st, st', ev.reports);
    SeededSurvives(w, ref, ck, x, st, st');
    AssembleSim(w, ref, input, ck, x, st, st');
  }

  lemma MatchesOwn(w: World, ref: RunState, input: Io, x: string, st: RunState)
    requires x in w.cx.nodes && x in w.cx.deps && Matches(w, ref, input, x, st)
    ensures OwnSame(w, x, st.outputs, ref.outputs)
  {
    hide Earned, OwnSame;
  }

  lemma UnusableOutputs(w: World, x: string, st: RunState)
    requires Lawful(w) && x in w.cx.nodes && x in w.cx.deps && !Skips(w.cx, x, st) && !Usable(NodeOutcome(w, x, st).status)
    ensures StepNode(w.cx, x, st).outputs == st.outputs
  {
    hide EvalNode, Lawful, Skips;
    EvalShape(w, x, st.outputs, st.statuses);
    RecordChangesOnly(w, x, NodeOutcome(w, x, st), st);
    MergeEmpty(st.outputs);
  }

  lemma MergeEmpty(io: Io)
    ensures Merge(io, EMPTY) == io
  {
  }

  /** What a usable evaluation leaves behind about its own node. */
  lemma UsableReportMatches(w: World, full: Io, ref: RunState, input: Io, ck: Option<Checkpoint>, x: string, st: RunState)
    requires Setting(w, full, ref, input, ck) && Sim(w, ref, input, ck, st)
    requires x in w.cx.nodes && w.cx.deps[x] <= st.statuses.Keys && !Skips(w.cx, x, st)
    requires Usable(NodeOutcome(w, x, st).status)
    ensures LastReplayable(NodeOutcome(w, x, st).reports, x).Some?
    ensures ReportMatches(w, ref, x, LastReplayable(NodeOutcome(w, x, st).reports, x).value)
  {
    hide EvalNode, Lawful, Sim, LastReplayable, IsReference, FaithfulCheckpoint, SameBase, Indexed;
    EvaluatedMatches(w, full, ref, input, ck, x, st);
    EvalReports(w, x, st.outputs, st.statuses);
    LawfulIndexed(w);
    IndexedIds(w, x);
  }

  lemma IndexedIds(w: World, x: string)
    requires Indexed(w) && x in w.cx.nodes
    ensures w.cx.nodes[x].id == x
  {
  }

  lemma UsableStepMatches(w: World, full: Io, ref: RunState, input: Io, ck: Option<Checkpoint>, x: string, st: RunState)
    requires Setting(w, full, ref, input, ck) && Sim(w, ref, input, ck, st)
    requires x in w.cx.nodes && w.cx.deps[x] <= st.statuses.Keys && !Skips(w.cx, x, st)
    requires Usable(NodeOutcome(w, x, st).status)
    ensures var st' := StepNode(w.cx, x, st);
      && Matches(w, ref, input, x, st')
      && OwnFits(w, ref, x, st'.outputs)
      && SelectionsFit(ref, st')
      && LastReplayable(NodeOutcome(w, x, st).reports, x).Some?
      && ReportMatches(w, ref, x, LastReplayable(NodeOutcome(w, x, st).reports, x).value)
  {
    hide EvalNode, Lawful, Earned, ReportsMatch, OwnSame, OwnEmpty, UnownedSame, SameSlot, LastReplayable, Seeded, IsReference,
         FaithfulCheckpoint, SameBase, ReportMatches;
    var ev := NodeOutcome(w, x, st);
    var st' := StepNode(w.cx, x, st);
    EvaluatedMatches(w, full, ref, input, ck, x, st);
    UsableReportMatches(w, full, ref, input, ck, x, st);
    EvalShape(w, x, st.outputs, st.statuses);
    RecordChangesOnly(w, x, ev, st);
    LawfulIndexed(w);
    UnskippedInReference(w, full, ref, input, ck, st, x);
    NoSelfEdge(w, x);
    assert OwnFits(w, ref, x, st.outputs);
    MergeFits(w, ref, x, st.outputs, ev.produced);
  }

  lemma ReplayKeepsSim(w: World, full: Io, ref: RunState, input: Io, ck: Option<Checkpoint>, x: string, st: RunState)
    requires Setting(w, full, ref, input, ck) && Sim(w, ref, input, ck, st)
    requires ck.Some? && x in ck.value.nodeReports && x in w.cx.nodes && w.cx.deps[x] <= st.statuses.Keys
    ensures Sim(w, ref, input, ck, ReplayNode(w.cx, x, ck.value, st))
  {
    hide EvalNode, Lawful, Earned, ReportsMatch, OwnSame, OwnEmpty, UnownedSame, SameSlot, LastReplayable, IsReference,
         SameBase, Skips, SelectionsFit, ReportMatches, Seeded, Matches, OwnFits, ReplayNode;
    var st' := ReplayNode(w.cx, x, ck.value, st);
    LawfulIndexed(w);
    ReplayedMatches(w, full, ref, input, ck, x, st);
    ReplayFrame(w, x, ck.value, st);
    assert OwnFits(w, ref, x, st.outputs);
    var more := [ReplayedReport(w.cx, w.cx.nodes[x], ck.value.nodeReports[x])];
    ReportsAppend(w, ref, x, st, st', more);
    SeededSurvives(w, ref, ck, x, st, st');
    AssembleSim(w, ref, input, ck, x, st, st');
  }

  lemma ReplayFrame(w: World, x: string, ck: Checkpoint, st: RunState)
    requires x in w.cx.nodes && x in ck.nodeReports && ck.childReports == map[]
    ensures var st' := ReplayNode(w.cx, x, ck, st);
      && ChangesOnly(w, x, st, st') && st'.outputs == st.outputs
      && st'.statuses == st.statuses[x := ck.nodeReports[x].status]
      && st'.reports == st.reports + [ReplayedReport(w.cx, w.cx.nodes[x], ck.nodeReports[x])]
  {
    hide SameSlot;
    SameSlotReflexive(st.outputs);
  }

  /** The predecessors of a replayed node were replayed and are usable. */
  lemma ReplayedDepsUsable(w: World, ref: RunState, input: Io, ck: Checkpoint, x: string, st: RunState)
    requires Sim(w, ref, input, Some(ck), st) && FaithfulCheckpoint(w, ref, input, ck)
    requires x in ck.nodeReports && w.cx.deps[x] <= st.statuses.Keys
    ensures forall d :: d in w.cx.deps[x] ==> UsableIn(d, st.statuses)
    ensures OwnSame(w, x, st.outputs, ref.outputs)
  {
    hide EvalNode, Earned, ReportsMatch, OwnFits, OwnSame, OwnEmpty, UnownedSame, SameSlot, Matches, ReportMatches;
    assert OwnSame(w, x, st.outputs, ref.outputs);
    forall d | d in w.cx.deps[x]
      ensures UsableIn(d, st.statuses)
    {
      assert d in ck.nodeReports;
      assert OwnSame(w, d, st.outputs, ref.outputs);
    }
  }

  /** A replayed report is what the reference recorded, selection included. */
  lemma ReplayedReportFits(w: World, full: Io, ref: RunState, input: Io, ck: Checkpoint, x: string)
    requires Setting(w, full, ref, input, Some(ck)) && x in ck.nodeReports
    ensures var r := ck.nodeReports[x];
      && UsableIn(x, ref.statuses) && r.status == ref.statuses[x] && Earned(w, ref, input, x)
      && (x in ref.selections <==> w.cx.nodes[x].kind == Branch && r.selected.Some?)
      && (x in ref.selections ==> r.selected.value == ref.selections[x])
  {
    hide EvalNode, Lawful, Earned, OwnSame, OwnEmpty, UnownedSame, SameSlot, IsReference, SameBase, Skips;
    assert ReportMatches(w, ref, x, ck.nodeReports[x]);
    ReferenceOutcome(w, full, ref, x);
    EvalShape(w, x, ref.outputs, ref.statuses);
  }

  lemma ReplayedReportMatches(w: World, ref: RunState, x: string, r: Report)
    requires Indexed(w) && x in w.cx.nodes && ReportMatches(w, ref, x, r)
    ensures var more := [ReplayedReport(w.cx, w.cx.nodes[x], r)];
      && (forall q :: q in more ==> q.nodeId == x)
      && LastReplayable(more, x).Some? && ReportMatches(w, ref, x, LastReplayable(more, x).value)
  {
    hide EvalNode;
    LastReplayableEnd([ReplayedReport(w.cx, w.cx.nodes[x], r)], x);
  }

  /** What a replay leaves behind about its own node. */
  lemma ReplayedMatches(w: World, full: Io, ref: RunState, input: Io, ck: Option<Checkpoint>, x: string, st: RunState)
    requires Setting(w, full, ref, input, ck) && Sim(w, ref, input, ck, st)
    requires ck.Some? && x in ck.value.nodeReports && x in w.cx.nodes && w.cx.deps[x] <= st.statuses.Keys
    ensures var st' := ReplayNode(w.cx, x, ck.value, st);
      var more := [ReplayedReport(w.cx, w.cx.nodes[x], ck.value.nodeReports[x])];
      && UsableIn(x, st'.statuses) && x in ref.statuses && st'.statuses[x] == ref.statuses[x]
      && Matches(w, ref, input, x, st')
      && OwnSame(w, x, st'.outputs, ref.outputs)
      && SelectionsFit(ref, st')
      && (forall r :: r in more ==> r.nodeId == x)
      && LastReplayable(more, x).Some? && ReportMatches(w, ref, x, LastReplayable(more, x).value)
  {
    hide EvalNode, Lawful, Earned, ReportsMatch, OwnFits, OwnSame, IsReference, SameBase, UnownedSame, ReportMatches, LastReplayable, ReplayedReport,
         Seeded;
    LawfulIndexed(w);
    NoSelfEdge(w, x);
    ReplayedDepsUsable(w, ref, input, ck.value, x, st);
    ReplayedReportFits(w, full, ref, input, ck.value, x);
    assert ReportMatches(w, ref, x, ck.value.nodeReports[x]);
    ReplayedReportMatches(w, ref, x, ck.value.nodeReports[x]);
  }

  lemma SameSlotReflexive(a: Io)
    ensures forall k {:trigger SameSlot(a, a, k)} :: SameSlot(a, a, k)
  {
  }

  lemma MoveKeepsSim(w: World, full: Io, ref: RunState, input: Io, ck: Option<Checkpoint>, m: Move, st: RunState)
    requires Setting(w, full, ref, input, ck) && Sim(w, ref, input, ck, st)
    requires MoveKnown(w, ck, m) && w.cx.deps[m.id] <= st.statuses.Keys
    ensures Sim(w, ref, input, ck, ApplyMove(w, ck, m, st))
    ensures ApplyMove(w, ck, m, st).statuses.Keys == st.statuses.Keys + {m.id}
  {
    hide EvalNode, Setting, Sim;
    match m {
      case Replay(x) => ReplayKeepsSim(w, full, ref, input, ck, x, st);
      case Step(x) =>
        if Skips(w.cx, x, st) {
          SkipKeepsSim(w, full, ref, input, ck, x, st);
        } else {
          EvaluationKeepsSim(w, full, ref, input, ck, x, st);
        }
    }
  }

  lemma {:induction false} MovesKeepSim(w: World, full: Io, ref: RunState, input: Io, ck: Option<Checkpoint>, moves: seq<Move>, st: RunState)
    requires Setting(w, full, ref, input, ck) && Sim(w, ref, input, ck, st)
    requires MovesKnown(w, ck, moves) && Orderly(w, st.statuses.Keys, moves)
    ensures Sim(w, ref, input, ck, Apply(w, ck, moves, st))
    ensures Apply(w, ck, moves, st).statuses.Keys == st.statuses.Keys + Moved(moves)
    decreases |moves|
  {
    hide ApplyMove, Setting, Sim;
    if moves != [] {
      assert moves[0] in moves;
      MoveKeepsSim(w, full, ref, input, ck, moves[0], st);
      MovesKeepSim(w, full, ref, input, ck, moves[1..], ApplyMove(w, ck, moves[0], st));
      assert moves == [moves[0]] + moves[1..];
      assert Moved(moves) == {moves[0].id} + Moved(moves[1..]);
    }
  }
}
