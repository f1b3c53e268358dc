/** The hypotheses of the resume theorem are met by a manifest with a tool and an approval behind it: its first run
    executes the tool, which writes a file, and pauses; resumed with the key it restores the tool's outputs instead of
    pausing, unless the file has drifted. */
module ResumeExample {
  import opened Results
  import opened Manifest
  import opened Graph
  import opened Layers
  import opened Json
  import opened DagIo
  import opened Artifacts
  import opened Infixes
  import opened NodeRules
  import opened Executor
  import opened Locality
  import opened RunMoves
  import opened Simulation
  import opened Resume

  const DRAFT := DagNode("draft", Tool, None, Some("writer"), None, ["draft.md"], true, None, None, None, None, None, None)

  const RELEASE := DagNode("release", Approval, None, None, None, [], true, None, None, None, None, Some(ApprovalPolicy("ok")), None)

  const WRITER := DagTool("writer", Rust, None)

  const MANIFEST := DagManifest("d", None, [WRITER], [], [DRAFT, RELEASE], [DagEdge(One("draft"), One("release"))])

  /** What the tool's file holds when it has just been written. */
  const WRITTEN := FileFacts("c0ffee", 4)

  const FILE := RefTo(map["draft.md" := WRITTEN], "draft.md")

  /** A tool that returns one value under its node's id and one file. */
  function WritingApp(): App {
    App((node: DagNode, call, io) => Success(NodeResult(Ok, Io(map[node.id := Str("text")], map["draft.md" := FILE]))),
        (node, io) => false, (node, io) => true, (node, io) => true, m => "hash")
  }

  const PRODUCED := Io(map["draft" := Str("text")], map["draft.md" := FILE])

  ghost function Example(): World {
    World(MakeContext(WritingApp(), MANIFEST), [["draft"], ["release"]], {("draft", "release")}, {"ok"})
  }

  lemma Names()
    ensures "draft" != "release" && "ok" != "draft" && "ok" != "release"
    ensures "draft.md" != "draft" && "draft.md" != "release" && "draft.md" != "ok"
  {
    assert |"draft"| == 5 && |"release"| == 7 && |"ok"| == 2 && |"draft.md"| == 8;
  }

  lemma ExamplePreds()
    ensures Preds(MANIFEST.edges, "draft") == {} && Preds(MANIFEST.edges, "release") == {"draft"}
  {
    Names();
    var e := DagEdge(One("draft"), One("release"));
    assert e in MANIFEST.edges && "release" in e.target.Values() && "draft" in e.source.Values();
  }

  lemma ExampleContext()
    ensures Example().cx.nodes == map["draft" := DRAFT, "release" := RELEASE]
    ensures Example().cx.deps == map["draft" := {}, "release" := {"draft"}]
  {
    hide NodeOrder, Preds;
    Names();
    ExamplePreds();
    var order := NodeOrder(MANIFEST.nodes);
    assert MANIFEST.nodes[0].id == "draft" && MANIFEST.nodes[1].id == "release";
    assert order.Keys == {"draft", "release"};
  }

  ghost predicate IsExample(w: World) {
    && w.cx.manifest == MANIFEST && w.cx.app == WritingApp()
    && w.cx.nodes == map["draft" := DRAFT, "release" := RELEASE]
    && w.cx.deps == map["draft" := {}, "release" := {"draft"}]
    && w.layers == [["draft"], ["release"]] && w.edges == {("draft", "release")} && w.keys == {"ok"}
  }

  lemma ExampleIsExample()
    ensures IsExample(Example())
  {
    ExampleContext();
  }

  lemma ExampleInLayer(w: World, n: string, i: nat)
    requires IsExample(w)
    ensures InLayer(w.layers, n, i) <==> (n == "draft" && i == 0) || (n == "release" && i == 1)
  {
  }

  lemma ExampleIndexed(w: World)
    requires IsExample(w)
    ensures Indexed(w) && Layered(w.cx, w.layers)
  {
    hide InLayer;
    Names();
    forall n, i: nat
      ensures InLayer(w.layers, n, i) <==> (n == "draft" && i == 0) || (n == "release" && i == 1)
    {
      ExampleInLayer(w, n, i);
    }
    assert CrossesLayers(w.layers, "draft", "release");
    assert InLayer(w.layers, "draft", 0) && InLayer(w.layers, "release", 1);
    assert IsPartition(w.cx.nodes.Keys, w.layers);
    assert w.layers[0] == ["draft"] && w.layers[1] == ["release"];
  }

  lemma DraftLawful(w: World)
    requires IsExample(w)
    ensures "draft" in w.cx.nodes && LawfulNode(w, "draft")
  {
    hide ExecuteOnce;
    Names();
    assert MaxAttempts(DRAFT) == 1;
  }

  lemma ReleaseLawful(w: World)
    requires IsExample(w)
    ensures "release" in w.cx.nodes && LawfulNode(w, "release")
  {
    hide ExecuteOnce;
    Names();
    assert MaxAttempts(RELEASE) == 1;
  }

  lemma ExampleLawful(w: World)
    requires IsExample(w)
    ensures Lawful(w)
  {
    hide Indexed, LawfulNode;
    Names();
    ExampleIndexed(w);
    DraftLawful(w);
    ReleaseLawful(w);
    assert Own(DRAFT) == {"draft", "draft.md"} && Own(RELEASE) == {"release"};
  }

  // ---- The runs ----

  const APPROVED := Io(map["ok" := Bool(true)], map[])

  function NoCancel(): CancelSignal {
    (i, j) => false
  }

  lemma DraftReply(w: World, input: Io)
    requires IsExample(w)
    ensures Attempts(w.cx, DRAFT, input, 1) == [Success(NodeResult(Ok, PRODUCED))]
  {
    assert ExecuteOnce(w.cx, DRAFT, 1, input) == Success(NodeResult(Ok, PRODUCED));
  }

  lemma DraftStep(w: World, input: Io)
    requires IsExample(w)
    ensures var st := StepNode(w.cx, "draft", Fresh(input));
      && st.statuses == map["draft" := Ok] && st.selections == map[]
      && st.outputs == Merge(input, PRODUCED)
      && |st.reports| == 1 && st.reports[0].nodeId == "draft" && st.reports[0].status == Ok
      && st.reports[0].outputRefs == Uris(PRODUCED.artifacts)
  {
    hide ExecuteOnce, Attempts, ExecutorLabel, TraceOf;
    DraftReply(w, input);
    assert !Skips(w.cx, "draft", Fresh(input));
  }

  lemma ReleaseStep(w: World, st: RunState)
    requires IsExample(w) && st.statuses == map["draft" := Ok] && st.selections == map[]
    ensures var st' := StepNode(w.cx, "release", st);
      && st'.statuses["release"] == (if IsTrue(st.outputs, "ok") then Ok else AwaitingApproval)
      && (!IsTrue(st.outputs, "ok") ==>
            st'.outputs == st.outputs
            && exists r: Report :: r.nodeId == "release" && r.status == AwaitingApproval && st'.reports == st.reports + [r])
  {
    assert !Skips(w.cx, "release", st);
    var ev := EvalNode(w.cx, RELEASE, st.outputs, st.statuses);
    if !IsTrue(st.outputs, "ok") {
      assert ev.reports[0].nodeId == "release" && ev.reports == [ev.reports[0]];
      assert Merge(st.outputs, EMPTY) == st.outputs;
    }
  }

  lemma OneNodeLayer(w: World, i: nat, x: string, st: RunState)
    requires i < |w.layers| && w.layers[i] == [x] && x in w.cx.nodes && x in w.cx.deps
    ensures var st' := StepNode(w.cx, x, st);
      RunLayer(w.cx, w.layers[i], i, st, None, NoCancel()) == if st'.statuses[x] == AwaitingApproval then Halted(st', Pause) else Going(st')
  {
    hide StepNode;
    assert RunSequential(w.cx, [x], i, 1, StepNode(w.cx, x, st), NoCancel()) == Going(StepNode(w.cx, x, st));
  }

  lemma ExampleRun(w: World, input: Io)
    requires IsExample(w)
    ensures Layered(w.cx, w.layers)
    ensures var st := StepNode(w.cx, "draft", Fresh(input));
      var p := RunFresh(w.cx, w.layers, input, NoCancel());
      if IsTrue(input, "ok") then p.Going? else p == Halted(StepNode(w.cx, "release", st), Pause)
  {
    hide StepNode, RunLayer, Indexed;
    Names();
    ExampleIndexed(w);
    var st := StepNode(w.cx, "draft", Fresh(input));
    DraftStep(w, input);
    OneNodeLayer(w, 0, "draft", Fresh(input));
    ReleaseStep(w, st);
    OneNodeLayer(w, 1, "release", st);
    var st' := StepNode(w.cx, "release", st);
    assert RunLayers(w.cx, w.layers, 2, st', None, NoCancel()) == Going(st');
    assert RunLayers(w.cx, w.layers, 1, st, None, NoCancel()) == if IsTrue(input, "ok") then Going(st') else Halted(st', Pause);
  }

  /** The paused report: the tool's report is kept, and names its file. */
  lemma PausedReports(w: World)
    requires IsExample(w)
    ensures var paused := RunFresh(w.cx, w.layers, EMPTY, NoCancel());
      var kept := KeptReports(w.cx.nodes, paused.st.reports);
      && paused.Halted? && paused.why == Pause && paused.st.outputs == PRODUCED
      && kept.Keys == {"draft"} && kept["draft"].outputRefs == map["draft.md" := "draft.md"]
  {
    hide StepNode, RunFresh;
    Names();
    ExampleRun(w, EMPTY);
    DraftStep(w, EMPTY);
    var st := StepNode(w.cx, "draft", Fresh(EMPTY));
    assert Merge(EMPTY, PRODUCED) == PRODUCED;
    ReleaseStep(w, st);
    var d := st.reports[0];
    var r: Report :| r.nodeId == "release" && r.status == AwaitingApproval && StepNode(w.cx, "release", st).reports == st.reports + [r];
    assert st.reports + [r] == [d, r] && [d, r][1..] == [r] && [r][1..] == [];
    assert LastReplayable([d, r], "draft") == Some(d) && LastReplayable([d, r], "release") == None;
    assert d.outputRefs == map["draft.md" := "draft.md"];
  }

  /** The file still reads as it did when the tool had written it. */
  predicate Unchanged(files: Files) {
    "draft.md" in files && files["draft.md"] == WRITTEN
  }

  lemma LocalFile()
    ensures LocalPath("draft.md") == Some("draft.md")
  {
    assert "draft.md"[0] == 'd' && "file://"[0] == 'f';
    assert ':' !in "draft.md";
    NoInfix("draft.md", "://", 0);
  }

  lemma DriftMeansChanged(w: World, files: Files, report: ExecutionReport)
    requires IsExample(w) && report.outputs == PRODUCED
    requires var kept := KeptReports(w.cx.nodes, report.nodes);
      kept.Keys == {"draft"} && kept["draft"].outputRefs == map["draft.md" := "draft.md"]
    ensures Undrifted(w.cx, files, report) <==> Unchanged(files)
  {
    hide KeptReports, Intact;
    LocalFile();
    IntactUntilDrift(map["draft.md" := WRITTEN], files, "draft.md");
    var kept := KeptReports(w.cx.nodes, report.nodes);
    assert "draft" in kept && "draft.md" in kept["draft"].outputRefs && "draft.md" in report.outputs.artifacts;
  }

  lemma ApprovedCompletes(w: World)
    requires IsExample(w)
    ensures PlainInput(w, APPROVED) && AllApproved(w, APPROVED) && PlainInput(w, EMPTY) && SameBase(w, EMPTY, APPROVED)
    ensures forall files :: Approaches(w, APPROVED, EMPTY, [Resumption(APPROVED, files)])
  {
    Names();
    assert Merge(EMPTY, APPROVED) == APPROVED;
    assert forall r: Resumption :: [r][1..] == [];
    assert Own(DRAFT) == {"draft", "draft.md"} && Own(RELEASE) == {"release"};
    assert Approaches(w, APPROVED, APPROVED, []);
  }

  lemma OneResume(cx: Context, layers: seq<seq<string>>, report: ExecutionReport, r: Resumption, cancel: CancelSignal)
    requires Layered(cx, layers)
    ensures ResumeAll(cx, layers, report, [r], cancel) == Execute(cx, layers, r.input, Some(report), r.files, cancel)
    ensures NeverDrifts(cx, layers, report, [r], cancel) <==> Undrifted(cx, r.files, report)
  {
    hide Execute, Undrifted;
    assert [r][1..] == [];
  }

  lemma DraftRestored(w: World, files: Files, report: ExecutionReport)
    requires IsExample(w) && PrepareCheckpoint(w.cx, files, report).Success? && report.outputs == PRODUCED
    requires var kept := KeptReports(w.cx.nodes, report.nodes);
      kept.Keys == {"draft"} && kept["draft"].outputRefs == map["draft.md" := "draft.md"]
    ensures var ck := PrepareCheckpoint(w.cx, files, report).value;
      ck.nodeReports.Keys == {"draft"} && ck.outputs == PRODUCED
  {
    hide KeptReports, ValidNodeReport, ArtifactsIntact, ChildrenOf, Intact, RefTo;
    Names();
    var kept := KeptReports(w.cx.nodes, report.nodes);
    var children := KeptChildren(kept, report.nodes);
    var restored := RestoredOutputs(w.cx, report.outputs, kept, children);
    assert DRAFT.outputs == ["draft.md"];
    assert "draft.md" in kept["draft"].outputRefs;
    assert restored.values.Keys == {"draft"} && restored.artifacts.Keys == {"draft.md"};
    assert restored.values == PRODUCED.values && restored.artifacts == PRODUCED.artifacts;
  }

  lemma ExampleResumes(w: World, files: Files)
    requires IsExample(w) && Layered(w.cx, w.layers)
    ensures var report := Conclude(w.cx, EMPTY, RunFresh(w.cx, w.layers, EMPTY, NoCancel()));
      var uninterrupted := Conclude(w.cx, APPROVED, RunFresh(w.cx, w.layers, APPROVED, NoCancel()));
      var resumed := Execute(w.cx, w.layers, APPROVED, Some(report), files, NoCancel());
      && (resumed.Success? <==> Undrifted(w.cx, files, report))
      && (resumed.Success? ==> resumed.value.status == uninterrupted.status && resumed.value.outputs == uninterrupted.outputs)
  {
    hide RunFresh, Lawful, RunLayers, Approaches, ResumeAll, NeverDrifts, StayIntact, Undrifted, IsExample, Conclude, PrepareCheckpoint;
    ExampleLawful(w);
    ApprovedGoesOn(w);
    ApprovedCompletes(w);
    var r := Resumption(APPROVED, files);
    ResumedEndsLikeUninterrupted(w, APPROVED, EMPTY, [r], NoCancel());
    OneResume(w.cx, w.layers, Conclude(w.cx, EMPTY, RunFresh(w.cx, w.layers, EMPTY, NoCancel())), r, NoCancel());
  }

  lemma ApprovedGoesOn(w: World)
    requires IsExample(w) && Layered(w.cx, w.layers)
    ensures RunFresh(w.cx, w.layers, APPROVED, NoCancel()).Going?
  {
    hide RunFresh, StepNode;
    ExampleRun(w, APPROVED);
  }

  lemma PreparedIfResumed(cx: Context, layers: seq<seq<string>>, input: Io, report: ExecutionReport, files: Files, cancel: CancelSignal)
    requires Layered(cx, layers)
    ensures PrepareCheckpoint(cx, files, report).Success? <==> Execute(cx, layers, input, Some(report), files, cancel).Success?
  {
    hide PrepareCheckpoint, RunResumed, Conclude;
  }

  /** Without the key the run executes the tool and pauses. A resume with the key is accepted exactly when the tool's
      file is unchanged; then the tool's report, value and file are restored, and the run ends like one that had the
      key from the start. */
  lemma PausedThenApproved(w: World, files: Files)
    requires w == Example()
    ensures Lawful(w) && Layered(w.cx, w.layers)
    ensures var paused := RunFresh(w.cx, w.layers, EMPTY, NoCancel());
      var report := Conclude(w.cx, EMPTY, paused);
      var uninterrupted := Conclude(w.cx, APPROVED, RunFresh(w.cx, w.layers, APPROVED, NoCancel()));
      var prepared := PrepareCheckpoint(w.cx, files, report);
      var resumed := Execute(w.cx, w.layers, APPROVED, Some(report), files, NoCancel());
      && paused.Halted? && paused.why == Pause
      && (resumed.Success? <==> Unchanged(files))
      && (resumed.Success? ==>
            && prepared.Success? && prepared.value.nodeReports.Keys == {"draft"} && prepared.value.outputs == PRODUCED
            && resumed.value.status == uninterrupted.status && resumed.value.outputs == uninterrupted.outputs)
  {
    hide RunFresh, Lawful, Example, IsExample, PrepareCheckpoint, KeptReports, Execute, Indexed, Undrifted, Unchanged;
    ExampleIsExample();
    ExampleLawful(w);
    ExampleIndexed(w);
    PausedReports(w);
    var report := Conclude(w.cx, EMPTY, RunFresh(w.cx, w.layers, EMPTY, NoCancel()));
    ExampleResumes(w, files);
    DriftMeansChanged(w, files, report);
    PreparedIfResumed(w.cx, w.layers, APPROVED, report, files, NoCancel());
    if PrepareCheckpoint(w.cx, files, report).Success? {
      DraftRestored(w, files, report);
    }
  }

  /** A degraded attempt followed by a failed one: the run ends with the failure, but a resume would restore the
      degraded attempt. `Locality.ReplayTellsTheEnd` says exactly when this happens. */
  lemma FailedRetryReplaysDegraded(id: string, degraded: Report, failed: Report)
    requires degraded.nodeId == failed.nodeId == id && degraded.status == Degraded && failed.status == Failed
    ensures id in FinalStatuses([degraded, failed]) && FinalStatuses([degraded, failed])[id] == Failed
    ensures LastReplayable([degraded, failed], id) == Some(degraded)
  {
    assert [degraded, failed][1..] == [failed] && [failed][1..] == [];
  }
}
