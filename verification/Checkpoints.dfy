/** Which reports a run may be resumed from: for any report at all, the demands it must meet and the error each failed
    demand gives. */
module Checkpoints {
  import opened Results
  import opened Manifest
  import opened Layers
  import opened DagIo
  import opened Artifacts
  import opened Infixes
  import opened NodeRules
  import opened Executor

  // ---- Demands ----

  predicate EndedUsable(r: Report) {
    r.status == Ok || r.status == Degraded
  }

  /** Report `i` is the last one about `n` that ended usable. */
  ghost predicate IsLastUsable(reports: seq<Report>, n: string, i: nat) {
    && i < |reports| && reports[i].nodeId == n && EndedUsable(reports[i])
    && forall j :: i < j < |reports| && reports[j].nodeId == n ==> !EndedUsable(reports[j])
  }

  ghost predicate HasUsable(reports: seq<Report>, n: string) {
    exists i: nat :: IsLastUsable(reports, n, i)
  }

  /** Cutting `id` at the first occurrence of `marker` leaves `n`. */
  ghost predicate CutAt(id: string, marker: string, n: string) {
    n + marker <= id && forall i :: 0 <= i < |n| ==> !OccursAt(id, marker, i)
  }

  /** `id` names a round of the loop `n`, or else an item of the map `n`. */
  ghost predicate IsChildOf(id: string, n: string) {
    || CutAt(id, "#round-", n)
    || (CutAt(id, "#item-", n) && forall p :: !CutAt(id, "#round-", p))
  }

  /** The reports that a resume would restore for `n`: its last usable one and, if it has one, its usable children. */
  ghost predicate Restores(reports: seq<Report>, n: string, r: Report) {
    exists i: nat :: IsLastUsable(reports, n, i) &&
      (r == reports[i] || (r in reports && EndedUsable(r) && IsChildOf(r.nodeId, n)))
  }

  ghost predicate ReportsFit(m: DagManifest, reports: seq<Report>) {
    forall node, r :: node in m.nodes && Restores(reports, node.id, r) ==>
      r.kind == node.kind && forall k :: k in r.outputRefs ==> k in node.outputs
  }

  /** Every artifact the report names is in the outputs, under that uri, and has not drifted. */
  ghost predicate Supported(files: Files, outputs: Io, r: Report) {
    forall k :: k in r.outputRefs ==>
      && k in outputs.artifacts
      && outputs.artifacts[k].uri == r.outputRefs[k]
      && Intact(files, outputs.artifacts[k])
  }

  ghost predicate ArtifactsHold(m: DagManifest, files: Files, report: ExecutionReport) {
    forall node, r :: node in m.nodes && Restores(report.nodes, node.id, r) ==> Supported(files, report.outputs, r)
  }

  // ---- Reading reports ----

  lemma {:induction false} LastReplayableIsLast(reports: seq<Report>, n: string)
    ensures LastReplayable(reports, n).Some? <==> exists i: nat :: IsLastUsable(reports, n, i)
    ensures forall i: nat :: IsLastUsable(reports, n, i) ==> LastReplayable(reports, n) == Some(reports[i])
  {
    if reports != [] {
      var rest := reports[1..];
      LastReplayableIsLast(rest, n);
      forall i: nat
        ensures IsLastUsable(rest, n, i) ==> IsLastUsable(reports, n, i + 1)
        ensures i > 0 && IsLastUsable(reports, n, i) ==> IsLastUsable(rest, n, i - 1)
      {
        ShiftLast(reports, n, i);
      }
      if LastReplayable(rest, n).None? {
        NoneUsable(rest, n, |rest|);
        if reports[0].nodeId == n && EndedUsable(reports[0]) {
          assert IsLastUsable(reports, n, 0);
        }
      } else {
        var i: nat :| IsLastUsable(rest, n, i);
        assert IsLastUsable(reports, n, i + 1);
        assert !IsLastUsable(reports, n, 0) by {
          assert reports[i + 1] == rest[i];
        }
      }
    }
  }

  lemma ShiftLast(reports: seq<Report>, n: string, i: nat)
    requires reports != []
    ensures IsLastUsable(reports[1..], n, i) ==> IsLastUsable(reports, n, i + 1)
    ensures i > 0 && IsLastUsable(reports, n, i) ==> IsLastUsable(reports[1..], n, i - 1)
  {
    var rest := reports[1..];
    assert forall j :: 0 <= j < |rest| ==> rest[j] == reports[j + 1];
    if IsLastUsable(rest, n, i) {
      forall j | i + 1 < j < |reports| && reports[j].nodeId == n
        ensures !EndedUsable(reports[j])
      {
        assert rest[j - 1] == reports[j];
      }
    }
  }

  /** With no last usable report there is no usable one at all. */
  lemma {:induction false} NoneUsable(reports: seq<Report>, n: string, k: nat)
    requires k <= |reports| && forall i: nat :: !IsLastUsable(reports, n, i)
    ensures forall j :: |reports| - k <= j < |reports| && reports[j].nodeId == n ==> !EndedUsable(reports[j])
  {
    if k > 0 {
      NoneUsable(reports, n, k - 1);
      assert !IsLastUsable(reports, n, |reports| - k);
    }
  }

  lemma CutFound(id: string, marker: string, n: string)
    requires marker != ""
    ensures CutAt(id, marker, n) <==> FindInfix(id, marker, 0).Some? && n == id[..FindInfix(id, marker, 0).value]
  {
    hide OccursAt, FindInfix;
    FindsFirst(id, marker, 0);
    CutOccurs(id, marker, n);
    var r := FindInfix(id, marker, 0);
    if r.Some? {
      CutOccurs(id, marker, id[..r.value]);
    }
  }

  lemma CutOccurs(id: string, marker: string, n: string)
    ensures n + marker <= id <==> |n| <= |id| && n == id[..|n|] && OccursAt(id, marker, |n|)
  {
    if n + marker <= id {
      assert id == n + marker + id[|n| + |marker|..];
    }
  }

  lemma ChildParentMeans(id: string, n: string)
    ensures ChildParent(id) == Some(n) <==> IsChildOf(id, n)
  {
    hide CutAt;
    CutFound(id, "#item-", n);
    forall p
      ensures CutAt(id, "#round-", p) <==> FindInfix(id, "#round-", 0).Some? && p == id[..FindInfix(id, "#round-", 0).value]
    {
      CutFound(id, "#round-", p);
    }
    var round := FindInfix(id, "#round-", 0);
    assert round.Some? ==> CutAt(id, "#round-", id[..round.value]);
  }

  lemma {:induction false} ChildrenAre(reports: seq<Report>, n: string)
    ensures forall r :: r in ChildrenOf(reports, n) <==> r in reports && EndedUsable(r) && IsChildOf(r.nodeId, n)
  {
    hide ChildParent, IsChildOf;
    if reports != [] {
      ChildrenAre(reports[1..], n);
      ChildParentMeans(reports[0].nodeId, n);
      assert reports == [reports[0]] + reports[1..];
    }
  }

  // ---- The decision ----

  ghost predicate NodesMatch(cx: Context) {
    && (forall n :: n in cx.nodes ==> cx.nodes[n].id == n && cx.nodes[n] in cx.manifest.nodes)
    && forall node :: node in cx.manifest.nodes ==> node.id in cx.nodes && cx.nodes[node.id] == node
  }

  /** What is kept for a node is what a resume would restore. */
  lemma KeptRestores(cx: Context, reports: seq<Report>, n: string, r: Report)
    requires n in cx.nodes
    ensures var kept := KeptReports(cx.nodes, reports);
      var children := KeptChildren(kept, reports);
      Restores(reports, n, r) <==> (n in kept && r == kept[n]) || (n in children && r in children[n])
  {
    hide LastReplayable, ChildrenOf, IsChildOf, EndedUsable;
    LastReplayableIsLast(reports, n);
    ChildrenAre(reports, n);
    if LastReplayable(reports, n).Some? {
      var i: nat :| IsLastUsable(reports, n, i);
      assert IsLastUsable(reports, n, i) && reports[i] == LastReplayable(reports, n).value;
    }
  }

  lemma KnownKept(cx: Context, reports: seq<Report>)
    ensures KeptReports(cx.nodes, reports).Keys <= cx.nodes.Keys
    ensures KeptChildren(KeptReports(cx.nodes, reports), reports).Keys <= KeptReports(cx.nodes, reports).Keys
  {
    hide LastReplayable, ChildrenOf;
  }

  lemma KeptOf(cx: Context, reports: seq<Report>)
    ensures var kept := KeptReports(cx.nodes, reports);
      var children := KeptChildren(kept, reports);
      && (forall n :: n in kept ==> Restores(reports, n, kept[n]))
      && (forall n, r: Report :: n in children && r in children[n] ==> Restores(reports, n, r))
      && forall n, r :: n in cx.nodes && Restores(reports, n, r) ==> (n in kept && r == kept[n]) || (n in children && r in children[n])
  {
    hide KeptReports, KeptChildren, Restores;
    KnownKept(cx, reports);
    forall n, r | n in cx.nodes
      ensures var kept := KeptReports(cx.nodes, reports);
        var children := KeptChildren(kept, reports);
        Restores(reports, n, r) <==> (n in kept && r == kept[n]) || (n in children && r in children[n])
    {
      KeptRestores(cx, reports, n, r);
    }
  }

  lemma FitsDecided(cx: Context, report: ExecutionReport)
    requires NodesMatch(cx)
    ensures var kept := KeptReports(cx.nodes, report.nodes);
      var children := KeptChildren(kept, report.nodes);
      ReportsFit(cx.manifest, report.nodes) <==>
        && (forall id :: id in kept ==> id in cx.nodes && ValidNodeReport(cx.nodes[id], kept[id]))
        && (forall id, r: Report :: id in children && r in children[id] ==> id in cx.nodes && ValidNodeReport(cx.nodes[id], r))
  {
    hide KeptReports, KeptChildren, Restores;
    KnownKept(cx, report.nodes);
    KeptOf(cx, report.nodes);
    assert forall n :: n in cx.nodes ==> cx.nodes[n].id == n;
  }

  lemma SupportedMeans(files: Files, outputs: Io, r: Report)
    ensures Supported(files, outputs, r) <==> ArtifactsIntact(files, outputs, r.outputRefs)
  {
    hide Intact;
  }

  lemma ArtifactsDecided(cx: Context, files: Files, report: ExecutionReport)
    requires NodesMatch(cx)
    ensures var kept := KeptReports(cx.nodes, report.nodes);
      var children := KeptChildren(kept, report.nodes);
      ArtifactsHold(cx.manifest, files, report) <==>
        && (forall id :: id in kept ==> ArtifactsIntact(files, report.outputs, kept[id].outputRefs))
        && (forall id, r: Report :: id in children && r in children[id] ==> ArtifactsIntact(files, report.outputs, r.outputRefs))
  {
    hide KeptReports, KeptChildren, Restores, Supported, ArtifactsIntact;
    KnownKept(cx, report.nodes);
    KeptOf(cx, report.nodes);
    forall r: Report
      ensures Supported(files, report.outputs, r) <==> ArtifactsIntact(files, report.outputs, r.outputRefs)
    {
      SupportedMeans(files, report.outputs, r);
    }
    assert forall n :: n in cx.nodes ==> cx.nodes[n].id == n;
  }

  /** The checks as they are made, over what has been kept. */
  lemma PreparedByCases(cx: Context, files: Files, report: ExecutionReport, fits: bool, holds: bool)
    requires KeptReports(cx.nodes, report.nodes).Keys <= cx.nodes.Keys
    requires KeptChildren(KeptReports(cx.nodes, report.nodes), report.nodes).Keys <= KeptReports(cx.nodes, report.nodes).Keys
    requires var kept := KeptReports(cx.nodes, report.nodes);
      var children := KeptChildren(kept, report.nodes);
      && (fits <==>
            && (forall id :: id in kept ==> ValidNodeReport(cx.nodes[id], kept[id]))
            && (forall id, r: Report :: id in children && r in children[id] ==> ValidNodeReport(cx.nodes[id], r)))
      && (holds <==>
            && (forall id :: id in kept ==> ArtifactsIntact(files, report.outputs, kept[id].outputRefs))
            && (forall id, r: Report :: id in children && r in children[id] ==> ArtifactsIntact(files, report.outputs, r.outputRefs)))
    ensures var prepared := PrepareCheckpoint(cx, files, report);
      if report.dag != cx.manifest.id then prepared == Failure(WrongDag)
      else if report.hash != cx.app.hash(cx.manifest) then prepared == Failure(WrongHash)
      else if !fits then prepared == Failure(BadNodeReport)
      else if !holds then prepared == Failure(BadArtifact)
      else prepared.Success?
  {
    hide KeptReports, KeptChildren, ValidNodeReport, ArtifactsIntact, RestoredOutputs;
  }

  lemma IndexMatches(app: App, m: DagManifest)
    requires UniqueNodeIds(m.nodes)
    ensures NodesMatch(MakeContext(app, m))
  {
    hide Preds, NodeOrder, NodeIds;
    var order := NodeOrder(m.nodes);
    forall i | 0 <= i < |m.nodes|
      ensures m.nodes[i].id in order && order[m.nodes[i].id] == i
    {
      var j := order[m.nodes[i].id];
      assert m.nodes[j].id == m.nodes[i].id;
    }
    var cx := MakeContext(app, m);
    assert forall n :: n in order ==> cx.nodes[n] == m.nodes[order[n]];
  }

  /** The four demands on a checkpoint, in the order in which they are checked, for an arbitrary report. */
  lemma CheckpointDecided(app: App, m: DagManifest, files: Files, report: ExecutionReport)
    requires UniqueNodeIds(m.nodes)
    ensures var prepared := PrepareCheckpoint(MakeContext(app, m), files, report);
      var sameDag, sameHash := report.dag == m.id, report.hash == app.hash(m);
      var fits, holds := ReportsFit(m, report.nodes), ArtifactsHold(m, files, report);
      && (prepared.Success? <==> sameDag && sameHash && fits && holds)
      && (prepared == Failure(WrongDag) <==> !sameDag)
      && (prepared == Failure(WrongHash) <==> sameDag && !sameHash)
      && (prepared == Failure(BadNodeReport) <==> sameDag && sameHash && !fits)
      && (prepared == Failure(BadArtifact) <==> sameDag && sameHash && fits && !holds)
  {
    hide KeptReports, KeptChildren, ReportsFit, ArtifactsHold, ValidNodeReport, ArtifactsIntact, NodesMatch, PrepareCheckpoint, NodeOrder, Preds;
    var cx := MakeContext(app, m);
    IndexMatches(app, m);
    KnownKept(cx, report.nodes);
    FitsDecided(cx, report);
    ArtifactsDecided(cx, files, report);
    PreparedByCases(cx, files, report, ReportsFit(m, report.nodes), ArtifactsHold(m, files, report));
  }

  // ---- What is restored ----

  /** Kept beside each kept report are all usable reports of the node's rounds or items, and no others. */
  ghost predicate KeepsChildren(reports: seq<Report>, kept: map<string, Report>, children: map<string, seq<Report>>) {
    && (forall n :: n in children ==> n in kept && forall r :: r in children[n] ==> r in reports && EndedUsable(r) && IsChildOf(r.nodeId, n))
    && (forall n, r :: n in kept && r in reports && EndedUsable(r) && IsChildOf(r.nodeId, n) ==> n in children && r in children[n])
  }

  /** An accepted checkpoint restores exactly the last usable report of each node that has one, with its usable
      children. */
  lemma RestoredReports(app: App, m: DagManifest, files: Files, report: ExecutionReport)
    requires UniqueNodeIds(m.nodes) && PrepareCheckpoint(MakeContext(app, m), files, report).Success?
    ensures var ck := PrepareCheckpoint(MakeContext(app, m), files, report).value;
      && (forall n :: n in ck.nodeReports <==> n in NodeIds(m.nodes) && HasUsable(report.nodes, n))
      && (forall n, i: nat :: n in NodeIds(m.nodes) && IsLastUsable(report.nodes, n, i) ==>
            i < |report.nodes| && n in ck.nodeReports && ck.nodeReports[n] == report.nodes[i])
      && KeepsChildren(report.nodes, ck.nodeReports, ck.childReports)
  {
    hide KeptReports, KeptChildren, KeepsChildren, HasUsable, IsLastUsable, IsChildOf, EndedUsable, MakeContext, RestoredOutputs, PrepareCheckpoint, NodeIds;
    var cx := MakeContext(app, m);
    MakesFor(app, m);
    PreparedIs(cx, files, report);
    var kept := KeptReports(cx.nodes, report.nodes);
    var ck := PrepareCheckpoint(cx, files, report).value;
    assert ck.nodeReports == kept && ck.childReports == KeptChildren(kept, report.nodes);
    KeptMembers(cx, report.nodes, kept, ck.childReports);
  }

  /** Its values are exactly the frozen ones under the id or a declared output of a node it restores, its artifacts
      exactly the frozen ones that a restored report names. */
  lemma RestoredExactly(app: App, m: DagManifest, files: Files, report: ExecutionReport)
    requires UniqueNodeIds(m.nodes) && PrepareCheckpoint(MakeContext(app, m), files, report).Success?
    ensures var ck := PrepareCheckpoint(MakeContext(app, m), files, report).value;
      && (forall k :: k in ck.outputs.values <==>
            (k in report.outputs.values && exists node :: node in m.nodes && node.id in ck.nodeReports && (k == node.id || k in node.outputs)))
      && (forall k :: k in ck.outputs.values ==> ck.outputs.values[k] == report.outputs.values[k])
      && (forall k :: k in ck.outputs.artifacts <==>
            (k in report.outputs.artifacts && exists node, r :: node in m.nodes && Restores(report.nodes, node.id, r) && k in r.outputRefs))
      && (forall k :: k in ck.outputs.artifacts ==> ck.outputs.artifacts[k] == report.outputs.artifacts[k])
  {
    hide KeptReports, KeptChildren, Restores, MakeContext, RestoredOutputs, PrepareCheckpoint;
    var cx := MakeContext(app, m);
    IndexMatches(app, m);
    KnownKept(cx, report.nodes);
    var kept := KeptReports(cx.nodes, report.nodes);
    var children := KeptChildren(kept, report.nodes);
    MakesFor(app, m);
    PreparedIs(cx, files, report);
    RestoredKeys(cx, report.outputs, kept, children);
    KeptOf(cx, report.nodes);
    forall n | n in kept
      ensures cx.nodes[n] in m.nodes && cx.nodes[n].id == n
    {
    }
  }

  lemma MakesFor(app: App, m: DagManifest)
    ensures MakeContext(app, m).manifest == m && MakeContext(app, m).app == app && MakeContext(app, m).nodes.Keys == NodeIds(m.nodes)
  {
    hide NodeOrder, NodeIds;
  }

  lemma PreparedIs(cx: Context, files: Files, report: ExecutionReport)
    requires PrepareCheckpoint(cx, files, report).Success?
    ensures var kept := KeptReports(cx.nodes, report.nodes);
      var children := KeptChildren(kept, report.nodes);
      && kept.Keys <= cx.nodes.Keys
      && PrepareCheckpoint(cx, files, report).value == Checkpoint(RestoredOutputs(cx, report.outputs, kept, children), kept, children)
  {
    hide LastReplayable, ChildrenOf, ValidNodeReport, ArtifactsIntact, RestoredOutputs;
  }

  lemma KeptMembers(cx: Context, reports: seq<Report>, kept: map<string, Report>, children: map<string, seq<Report>>)
    requires kept == KeptReports(cx.nodes, reports) && children == KeptChildren(kept, reports)
    ensures
      && (forall n :: n in kept <==> n in cx.nodes && HasUsable(reports, n))
      && (forall n, i: nat :: n in cx.nodes && IsLastUsable(reports, n, i) ==> i < |reports| && n in kept && kept[n] == reports[i])
      && KeepsChildren(reports, kept, children)
  {
    hide LastReplayable, ChildrenOf, IsLastUsable, IsChildOf, EndedUsable;
    forall n
      ensures LastReplayable(reports, n).Some? <==> exists i: nat :: IsLastUsable(reports, n, i)
      ensures forall i: nat :: IsLastUsable(reports, n, i) ==> i < |reports| && LastReplayable(reports, n) == Some(reports[i])
      ensures forall r :: r in ChildrenOf(reports, n) <==> r in reports && EndedUsable(r) && IsChildOf(r.nodeId, n)
    {
      LastInRange(reports, n);
      LastReplayableIsLast(reports, n);
      ChildrenAre(reports, n);
    }
  }

  lemma LastInRange(reports: seq<Report>, n: string)
    ensures forall i: nat :: IsLastUsable(reports, n, i) ==> i < |reports|
  {
  }

  lemma RestoredKeys(cx: Context, frozen: Io, kept: map<string, Report>, children: map<string, seq<Report>>)
    requires kept.Keys <= cx.nodes.Keys
    ensures var out := RestoredOutputs(cx, frozen, kept, children);
      && (forall k :: k in out.values <==> (k in frozen.values && exists n :: n in kept && (k == n || k in cx.nodes[n].outputs)))
      && (forall k :: k in out.values ==> out.values[k] == frozen.values[k])
      && (forall k :: k in out.artifacts <==>
            (k in frozen.artifacts &&
             ((exists n :: n in kept && k in kept[n].outputRefs) || (exists n, r: Report :: n in children && r in children[n] && k in r.outputRefs))))
      && (forall k :: k in out.artifacts ==> out.artifacts[k] == frozen.artifacts[k])
  {
  }

  /** Replaying a layer gives each checkpointed node of it the checkpoint's status and, to a branch, its selection,
      leaves every other node and the outputs alone, and reports nothing for other nodes. */
  lemma {:induction false} ReplayRestores(cx: Context, layer: seq<string>, j: nat, ck: Checkpoint, st: RunState)
    requires j <= |layer| && Knows(cx, layer)
    ensures var after := ReplayLayer(cx, layer, j, ck, st);
      && after.outputs == st.outputs && st.reports <= after.reports
      && (forall id :: id in after.statuses <==> id in st.statuses || (id in layer[j..] && id in ck.nodeReports))
      && (forall id :: id in after.statuses ==>
            after.statuses[id] == if id in layer[j..] && id in ck.nodeReports then ck.nodeReports[id].status else st.statuses[id])
    decreases |layer| - j
  {
    if j < |layer| {
      assert layer[j..] == [layer[j]] + layer[j + 1..];
      ReplayRestores(cx, layer, j + 1, ck, if layer[j] in ck.nodeReports then ReplayNode(cx, layer[j], ck, st) else st);
    }
  }

  function KeptFor(ck: Checkpoint, id: string): seq<Report> {
    if id in ck.childReports then ck.childReports[id] else []
  }

  /** What replaying one node adds: its kept children's reports, then its own with the checkpointed status, attempt,
      artifacts and selection, and the executor it was reported with, if any. */
  lemma ReplayTells(cx: Context, id: string, ck: Checkpoint, st: RunState) returns (own: Report)
    requires id in cx.nodes && id in ck.nodeReports
    ensures var after, was := ReplayNode(cx, id, ck, st), ck.nodeReports[id];
      && after.reports == st.reports + KeptFor(ck, id) + [own]
      && own.nodeId == cx.nodes[id].id && own.kind == cx.nodes[id].kind && own.status == was.status && own.attempt == was.attempt
      && own.outputRefs == was.outputRefs && own.selected == was.selected
      && (was.policy.executor.Some? ==> own.policy.executor == was.policy.executor)
      && (cx.nodes[id].kind == Branch && was.selected.Some? ==> id in after.selections && after.selections[id] == was.selected.value)
      && (cx.nodes[id].kind != Branch || was.selected.None? ==> after.selections == st.selections)
  {
    hide ExecutorLabel;
    own := ReplayedReport(cx, cx.nodes[id], ck.nodeReports[id]);
  }
}
