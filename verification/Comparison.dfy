/** Comparing two persisted app runs: readiness, checks and the difference lists shown beside them. */
module Comparison {
  import opened Results
  import opened Json
  import opened CanonicalJson
  import opened Normalise

  // ---- Persisted rows ----

  datatype NodeRow = NodeRow(nodeId: string, attempt: int, status: string, exitStatus: Option<int>, input: Json, output: Json)

  datatype ArtifactRow = ArtifactRow(nodeId: Option<string>, name: string, attempt: Option<int>, sha256: Option<string>)

  datatype DagRow = DagRow(dagType: string, manifestHash: Option<string>, input: Json, output: Json)

  datatype Summary = Summary(
    manifestHash: Option<string>,
    frozenInputHash: Option<string>,
    dagOutputHash: Option<string>,
    checkpointAvailable: bool,
    nodeAttempts: nat,
    nodeInputHashes: nat,
    nodeOutputHashes: nat,
    artifacts: nat,
    artifactsWithSha256: nat,
    replayReady: bool,
    compareReady: bool)

  datatype Detail = Detail(
    appId: string,
    actionId: string,
    output: Json,
    dag: Option<DagRow>,
    nodes: seq<NodeRow>,
    artifacts: seq<ArtifactRow>,
    determinism: Summary)

  // ---- Hashes and signatures ----

  /** SHA-256 of canonical text, taken as that text. */
  function JsonHash(j: Json): string {
    Canonical(j)
  }

  function Get(j: Json, key: string): Option<Json> {
    if !j.Obj? then None
    else match Find(j.members, key, 0)
      case None => None
      case Some(i) => Some(j.members[i].value)
  }

  function GetString(j: Json, key: string): Option<string> {
    match Get(j, key)
    case Some(Str(s)) => Some(s)
    case _ => None
  }

  predicate StringPresent(j: Json, key: string) {
    GetString(j, key).Some? && GetString(j, key).value != ""
  }

  predicate HasOutputHash(n: NodeRow) {
    StringPresent(n.output, "output_hash")
  }

  predicate HasInputHash(n: NodeRow) {
    StringPresent(n.input, "input_hash")
  }

  predicate HasSha256(a: ArtifactRow) {
    a.sha256.Some? && a.sha256.value != ""
  }

  function CountIf<T>(items: seq<T>, p: T -> bool): (n: nat)
    ensures n <= |items|
    ensures n == |items| <==> forall x :: x in items ==> p(x)
  {
    if items == [] then 0
    else
      assert items == [items[0]] + items[1..];
      (if p(items[0]) then 1 else 0) + CountIf(items[1..], p)
  }

  /** Determinism of a run, read off its own rows. */
  function Summarise(output: Json, dag: Option<DagRow>, nodes: seq<NodeRow>, artifacts: seq<ArtifactRow>): Summary {
    var manifestHash := if dag.Some? then dag.value.manifestHash else None;
    var inputHash := if dag.Some? then Some(JsonHash(dag.value.input)) else None;
    var outputHash := if dag.Some? then Some(JsonHash(dag.value.output)) else None;
    var checkpoint := Get(output, "report").Some? && Get(output, "report").value.Obj?;
    var inputs, outputs := CountIf(nodes, HasInputHash), CountIf(nodes, HasOutputHash);
    var hashed := CountIf(artifacts, HasSha256);
    Summary(manifestHash, inputHash, outputHash, checkpoint, |nodes|, inputs, outputs, |artifacts|, hashed,
            dag.Some? && manifestHash.Some? && inputHash.Some? && checkpoint && |nodes| == inputs && |nodes| == outputs,
            inputHash.Some? && outputHash.Some? && outputs == |nodes| && |artifacts| - hashed == 0)
  }

  type Signatures = map<string, Option<string>>

  /** Signatures by key; a later row replaces an earlier one. */
  function Keyed<T>(rows: seq<T>, key: T -> string, signature: T -> Option<string>): Signatures {
    if rows == [] then map[]
    else
      var last := rows[|rows| - 1];
      Keyed(rows[..|rows| - 1], key, signature)[key(last) := signature(last)]
  }

  function NodeKey(n: NodeRow): string {
    n.nodeId + "#" + IntText(n.attempt)
  }

  /** The owner and the name of an artifact; an artifact of the run itself has the owner `-`. */
  function OwnerAndName(a: ArtifactRow): string {
    (if a.nodeId.Some? then a.nodeId.value else "-") + ":" + a.name
  }

  function ArtifactKey(a: ArtifactRow): string {
    OwnerAndName(a) + "#" + IntText(if a.attempt.Some? then a.attempt.value else 0)
  }

  function OutputHash(n: NodeRow): Option<string> {
    GetString(n.output, "output_hash")
  }

  function NodeOutputs(nodes: seq<NodeRow>): Signatures {
    Keyed(nodes, NodeKey, OutputHash)
  }

  function ArtifactSignatures(artifacts: seq<ArtifactRow>): Signatures {
    Keyed(artifacts, ArtifactKey, (a: ArtifactRow) => a.sha256)
  }

  function OrNull(j: Option<Json>): Json {
    if j.Some? then j.value else Null
  }

  /** The part of a node row that is its work product, artifact locations removed. */
  function WorkProduct(n: NodeRow): Json {
    var integrity := Get(n.output, "output_artifact_integrity");
    Obj([Member("state", Str(n.status)),
         Member("exit_status", if n.exitStatus.Some? then Num(n.exitStatus.value) else Null),
         Member("outputs", OrNull(Get(n.output, "outputs"))),
         Member("output_artifact_integrity", if integrity.Some? then NormalizeArtifacts(integrity.value) else Null),
         Member("warning", OrNull(Get(n.output, "warning")))])
  }

  function NormalizedNodeOutputs(nodes: seq<NodeRow>): Signatures {
    Keyed(nodes, NodeKey, (n: NodeRow) => Some(JsonHash(WorkProduct(n))))
  }

  function NormalizedInputHash(d: Detail): Option<string> {
    if d.dag.Some? then Some(JsonHash(NormalizeDagIo(d.dag.value.input))) else None
  }

  function NormalizedOutputHash(d: Detail): Option<string> {
    if d.dag.Some? then Some(JsonHash(NormalizeDagIo(d.dag.value.output))) else None
  }

  // ---- Differences ----

  datatype Difference = Difference(field: string, left: Json, right: Json)

  function OptText(o: Option<string>): Json {
    if o.Some? then Str(o.value) else Null
  }

  /** A signature, with a missing key read as no signature. */
  function Flat(s: Signatures, key: string): Option<string> {
    if key in s then s[key] else None
  }

  function FieldDifference(field: string, left: Json, right: Json, same: bool): seq<Difference> {
    if same then [] else [Difference(field, left, right)]
  }

  function KeyDifference(prefix: string, left: Signatures, right: Signatures, key: string): seq<Difference> {
    FieldDifference(prefix + "." + key, OptText(Flat(left, key)), OptText(Flat(right, key)), Flat(left, key) == Flat(right, key))
  }

  ghost predicate IsLeast(key: string, keys: set<string>) {
    key in keys && forall k :: k in keys ==> k == key || Before(key, k)
  }

  lemma {:induction false} LeastExists(keys: set<string>)
    requires keys != {}
    ensures exists k :: IsLeast(k, keys)
    decreases |keys|
  {
    var k :| k in keys;
    var rest := keys - {k};
    if rest == {} {
      assert keys == {k};
      assert IsLeast(k, keys);
    } else {
      LeastExists(rest);
      var l :| IsLeast(l, rest);
      BeforeTotal(k, l);
      if Before(k, l) {
        forall o | o in keys
          ensures o == k || Before(k, o)
        {
          if o != k && o != l {
            BeforeTransitive(k, l, o);
          }
        }
        assert IsLeast(k, keys);
      } else {
        assert IsLeast(l, keys);
      }
    }
  }

  lemma LeastUnique(a: string, b: string, keys: set<string>)
    requires IsLeast(a, keys) && IsLeast(b, keys)
    ensures a == b
  {
    if Before(a, b) {
      BeforeStrict(a, b);
    }
  }

  ghost function Least(keys: set<string>): (k: string)
    requires keys != {}
    ensures IsLeast(k, keys)
  {
    LeastExists(keys);
    var k :| IsLeast(k, keys);
    k
  }

  /** The differences over `keys`, in key order. */
  ghost function DifferencesOver(prefix: string, left: Signatures, right: Signatures, keys: set<string>): seq<Difference>
    decreases |keys|
  {
    if keys == {} then []
    else
      var k := Least(keys);
      KeyDifference(prefix, left, right, k) + DifferencesOver(prefix, left, right, keys - {k})
  }

  lemma NoDifferences(prefix: string, left: Signatures, right: Signatures)
    ensures DifferencesOver(prefix, left, right, {}) == []
  {
  }

  lemma DifferencesStep(items: seq<Difference>, prefix: string, left: Signatures, right: Signatures, keys: set<string>, k: string)
    requires IsLeast(k, keys)
    ensures items + DifferencesOver(prefix, left, right, keys)
            == items + KeyDifference(prefix, left, right, k) + DifferencesOver(prefix, left, right, keys - {k})
  {
    hide KeyDifference;
    LeastUnique(k, Least(keys), keys);
  }

  ghost function MapDifferences(prefix: string, left: Signatures, right: Signatures): seq<Difference> {
    DifferencesOver(prefix, left, right, left.Keys + right.Keys)
  }

  class DifferenceList {
    var items: seq<Difference>

    constructor ()
      ensures items == []
    {
      items := [];
    }

    method PushField(field: string, left: Json, right: Json, same: bool)
      modifies this
      ensures items == old(items) + FieldDifference(field, left, right, same)
    {
      if !same {
        items := items + [Difference(field, left, right)];
      }
    }

    /** Push one difference per key whose signatures differ, keys in order. */
    method PushMap(prefix: string, left: Signatures, right: Signatures)
      modifies this
      ensures items == old(items) + MapDifferences(prefix, left, right)
    {
      hide Before, DifferencesOver, KeyDifference;
      var keys := left.Keys + right.Keys;
      while keys != {}
        invariant items + DifferencesOver(prefix, left, right, keys) == old(items) + MapDifferences(prefix, left, right)
        decreases |keys|
      {
        LeastExists(keys);
        var k :| k in keys && forall o :: o in keys ==> k == o || Before(k, o);
        DifferencesStep(items, prefix, left, right, keys, k);
        items := items + KeyDifference(prefix, left, right, k);
        keys := keys - {k};
      }
      NoDifferences(prefix, left, right);
    }
  }

  // ---- The comparison ----

  datatype Checks = Checks(
    sameApp: bool,
    sameAction: bool,
    sameDagType: bool,
    sameManifestHash: bool,
    sameFrozenInputHash: bool,
    sameDagOutputHash: bool,
    sameNodeOutputs: bool,
    sameArtifacts: bool,
    sameNormalizedFrozenInputHash: bool,
    sameNormalizedDagOutputHash: bool,
    sameNormalizedNodeOutputs: bool)
  {
    predicate All() {
      && sameApp && sameAction && sameDagType && sameManifestHash
      && sameFrozenInputHash && sameDagOutputHash && sameNodeOutputs && sameArtifacts
    }

    predicate WorkProductAll() {
      && sameApp && sameAction && sameDagType && sameManifestHash
      && sameNormalizedFrozenInputHash && sameNormalizedDagOutputHash && sameNormalizedNodeOutputs && sameArtifacts
    }
  }

  datatype RunComparison = RunComparison(
    compareReady: bool,
    matches: bool,
    workProductMatches: bool,
    checks: Checks,
    differences: seq<Difference>,
    workProductDifferences: seq<Difference>)

  function DagType(d: Detail): Option<string> {
    if d.dag.Some? then Some(d.dag.value.dagType) else None
  }

  function ChecksOf(l: Detail, r: Detail): Checks {
    Checks(
      l.appId == r.appId, l.actionId == r.actionId, DagType(l) == DagType(r),
      l.determinism.manifestHash == r.determinism.manifestHash,
      l.determinism.frozenInputHash == r.determinism.frozenInputHash,
      l.determinism.dagOutputHash == r.determinism.dagOutputHash,
      NodeOutputs(l.nodes) == NodeOutputs(r.nodes),
      ArtifactSignatures(l.artifacts) == ArtifactSignatures(r.artifacts),
      NormalizedInputHash(l) == NormalizedInputHash(r),
      NormalizedOutputHash(l) == NormalizedOutputHash(r),
      NormalizedNodeOutputs(l.nodes) == NormalizedNodeOutputs(r.nodes))
  }

  /** Differences of the fields that identify what was run. */
  function IdentityDifferences(l: Detail, r: Detail, checks: Checks): seq<Difference> {
    FieldDifference("app_id", Str(l.appId), Str(r.appId), checks.sameApp)
    + FieldDifference("action_id", Str(l.actionId), Str(r.actionId), checks.sameAction)
    + FieldDifference("dag_type", OptText(DagType(l)), OptText(DagType(r)), checks.sameDagType)
    + FieldDifference("determinism.manifest_hash",
        OptText(l.determinism.manifestHash), OptText(r.determinism.manifestHash), checks.sameManifestHash)
  }

  ghost function Differences(l: Detail, r: Detail): seq<Difference> {
    var checks := ChecksOf(l, r);
    IdentityDifferences(l, r, checks)
    + FieldDifference("determinism.frozen_input_hash",
        OptText(l.determinism.frozenInputHash), OptText(r.determinism.frozenInputHash), checks.sameFrozenInputHash)
    + FieldDifference("determinism.dag_output_hash",
        OptText(l.determinism.dagOutputHash), OptText(r.determinism.dagOutputHash), checks.sameDagOutputHash)
    + MapDifferences("node_outputs", NodeOutputs(l.nodes), NodeOutputs(r.nodes))
    + MapDifferences("artifacts", ArtifactSignatures(l.artifacts), ArtifactSignatures(r.artifacts))
  }

  ghost function WorkProductDifferences(l: Detail, r: Detail): seq<Difference> {
    var checks := ChecksOf(l, r);
    IdentityDifferences(l, r, checks)
    + FieldDifference("determinism.normalized_frozen_input_hash",
        OptText(NormalizedInputHash(l)), OptText(NormalizedInputHash(r)), checks.sameNormalizedFrozenInputHash)
    + FieldDifference("determinism.normalized_dag_output_hash",
        OptText(NormalizedOutputHash(l)), OptText(NormalizedOutputHash(r)), checks.sameNormalizedDagOutputHash)
    + MapDifferences("normalized_node_outputs", NormalizedNodeOutputs(l.nodes), NormalizedNodeOutputs(r.nodes))
    + MapDifferences("artifacts", ArtifactSignatures(l.artifacts), ArtifactSignatures(r.artifacts))
  }

  method PushIdentity(list: DifferenceList, l: Detail, r: Detail, checks: Checks)
    modifies list
    ensures list.items == old(list.items) + IdentityDifferences(l, r, checks)
  {
    hide FieldDifference;
    list.PushField("app_id", Str(l.appId), Str(r.appId), checks.sameApp);
    list.PushField("action_id", Str(l.actionId), Str(r.actionId), checks.sameAction);
    list.PushField("dag_type", OptText(DagType(l)), OptText(DagType(r)), checks.sameDagType);
    list.PushField("determinism.manifest_hash",
        OptText(l.determinism.manifestHash), OptText(r.determinism.manifestHash), checks.sameManifestHash);
  }

  method CompareDetails(l: Detail, r: Detail) returns (c: RunComparison)
    ensures c.compareReady == (l.determinism.compareReady && r.determinism.compareReady)
    ensures c.matches == (c.compareReady && c.checks.All())
    ensures c.workProductMatches == (c.compareReady && c.checks.WorkProductAll())
    ensures c.checks == ChecksOf(l, r)
    ensures c.differences == Differences(l, r) && c.workProductDifferences == WorkProductDifferences(l, r)
  {
    hide FieldDifference, MapDifferences, IdentityDifferences;
    var checks := ChecksOf(l, r);
    var leftArtifacts, rightArtifacts := ArtifactSignatures(l.artifacts), ArtifactSignatures(r.artifacts);
    var differences := new DifferenceList();
    var work := new DifferenceList();
    PushIdentity(differences, l, r, checks);
    differences.PushField("determinism.frozen_input_hash",
        OptText(l.determinism.frozenInputHash), OptText(r.determinism.frozenInputHash), checks.sameFrozenInputHash);
    differences.PushField("determinism.dag_output_hash",
        OptText(l.determinism.dagOutputHash), OptText(r.determinism.dagOutputHash), checks.sameDagOutputHash);
    differences.PushMap("node_outputs", NodeOutputs(l.nodes), NodeOutputs(r.nodes));
    differences.PushMap("artifacts", leftArtifacts, rightArtifacts);
    PushIdentity(work, l, r, checks);
    work.PushField("determinism.normalized_frozen_input_hash",
        OptText(NormalizedInputHash(l)), OptText(NormalizedInputHash(r)), checks.sameNormalizedFrozenInputHash);
    work.PushField("determinism.normalized_dag_output_hash",
        OptText(NormalizedOutputHash(l)), OptText(NormalizedOutputHash(r)), checks.sameNormalizedDagOutputHash);
    work.PushMap("normalized_node_outputs", NormalizedNodeOutputs(l.nodes), NormalizedNodeOutputs(r.nodes));
    work.PushMap("artifacts", leftArtifacts, rightArtifacts);
    var ready := l.determinism.compareReady && r.determinism.compareReady;
    c := RunComparison(ready, ready && checks.All(), ready && checks.WorkProductAll(), checks, differences.items, work.items);
    assert [] + IdentityDifferences(l, r, checks) == IdentityDifferences(l, r, checks);
  }

  // ---- What the verdict means ----

  /** A map difference list is empty exactly when no key has differing signatures, missing counting as none. */
  lemma {:induction false} NoDifferencesMeans(prefix: string, left: Signatures, right: Signatures, keys: set<string>)
    ensures DifferencesOver(prefix, left, right, keys) == [] <==> forall k :: k in keys ==> Flat(left, k) == Flat(right, k)
    decreases |keys|
  {
    if keys != {} {
      var k := Least(keys);
      NoDifferencesMeans(prefix, left, right, keys - {k});
      assert forall o :: o in keys <==> o == k || o in keys - {k};
    }
  }

  /** Some key is missing on one side and present without a signature on the other. */
  ghost predicate HidesMissing(left: Signatures, right: Signatures) {
    exists k :: k in left.Keys + right.Keys && !(k in left && k in right) && Flat(left, k) == Flat(right, k) == None
  }

  /** Signature maps are equal exactly when nothing differs and no missing key is hidden. */
  lemma EqualMapsMeans(prefix: string, left: Signatures, right: Signatures)
    ensures left == right <==> MapDifferences(prefix, left, right) == [] && !HidesMissing(left, right)
  {
    NoDifferencesMeans(prefix, left, right, left.Keys + right.Keys);
    if MapDifferences(prefix, left, right) == [] && !HidesMissing(left, right) {
      forall k
        ensures k in left <==> k in right
        ensures k in left ==> left[k] == right[k]
      {
        assert k in left.Keys + right.Keys ==> Flat(left, k) == Flat(right, k);
      }
    }
  }

  ghost predicate AllSigned(s: Signatures) {
    forall k :: k in s ==> s[k].Some?
  }

  lemma SignedNeverHides(left: Signatures, right: Signatures)
    requires AllSigned(left) && AllSigned(right)
    ensures !HidesMissing(left, right)
  {
  }

  lemma {:induction false} KeyedSigned<T>(rows: seq<T>, key: T -> string, signature: T -> Option<string>)
    requires forall r :: r in rows ==> signature(r).Some?
    ensures AllSigned(Keyed(rows, key, signature))
  {
    if rows != [] {
      KeyedSigned(rows[..|rows| - 1], key, signature);
      assert rows[|rows| - 1] in rows;
    }
  }

  lemma HashedNodesSigned(nodes: seq<NodeRow>)
    requires forall n :: n in nodes ==> HasOutputHash(n)
    ensures AllSigned(NodeOutputs(nodes))
  {
    KeyedSigned(nodes, NodeKey, OutputHash);
  }

  lemma HashedArtifactsSigned(artifacts: seq<ArtifactRow>)
    requires forall a :: a in artifacts ==> HasSha256(a)
    ensures AllSigned(ArtifactSignatures(artifacts))
  {
    KeyedSigned(artifacts, ArtifactKey, (a: ArtifactRow) => a.sha256);
  }

  lemma WorkProductsSigned(nodes: seq<NodeRow>)
    ensures AllSigned(NormalizedNodeOutputs(nodes))
  {
    KeyedSigned(nodes, NodeKey, (n: NodeRow) => Some(JsonHash(WorkProduct(n))));
  }

  /** The determinism summary of a detail is that of its own rows. */
  predicate OwnSummary(d: Detail) {
    d.determinism == Summarise(d.output, d.dag, d.nodes, d.artifacts)
  }

  /** A run is ready for comparison exactly when it has a DAG run whose every node row carries an output hash and
      whose every artifact row carries a SHA-256; for replay exactly when it has a DAG run with a manifest hash, its
      output holds a report, and every node row carries both hashes. */
  lemma ReadyMeans(d: Detail)
    requires OwnSummary(d)
    ensures d.determinism.compareReady <==>
      d.dag.Some? && (forall n :: n in d.nodes ==> HasOutputHash(n)) && (forall a :: a in d.artifacts ==> HasSha256(a))
    ensures d.determinism.replayReady <==>
      && d.dag.Some? && d.dag.value.manifestHash.Some?
      && Get(d.output, "report").Some? && Get(d.output, "report").value.Obj?
      && forall n :: n in d.nodes ==> HasInputHash(n) && HasOutputHash(n)
  {
    hide JsonHash, HasOutputHash, HasInputHash, HasSha256, Get;
  }

  lemma ReadySigned(d: Detail)
    requires OwnSummary(d) && d.determinism.compareReady
    ensures AllSigned(NodeOutputs(d.nodes)) && AllSigned(ArtifactSignatures(d.artifacts))
  {
    hide OwnSummary, AllSigned;
    ReadyMeans(d);
    HashedNodesSigned(d.nodes);
    HashedArtifactsSigned(d.artifacts);
  }

  /** Ready or not, all checks pass exactly when nothing differs and neither the node outputs nor the artifacts hide
      a missing key; for work products only artifacts can hide one. */
  lemma ChecksMeanNoDifferences(l: Detail, r: Detail)
    ensures ChecksOf(l, r).All() <==>
      && Differences(l, r) == []
      && !HidesMissing(NodeOutputs(l.nodes), NodeOutputs(r.nodes))
      && !HidesMissing(ArtifactSignatures(l.artifacts), ArtifactSignatures(r.artifacts))
    ensures ChecksOf(l, r).WorkProductAll() <==>
      WorkProductDifferences(l, r) == [] && !HidesMissing(ArtifactSignatures(l.artifacts), ArtifactSignatures(r.artifacts))
  {
    hide MapDifferences, HidesMissing, NodeOutputs, ArtifactSignatures, NormalizedNodeOutputs,
      NormalizedInputHash, NormalizedOutputHash, OptText, DagType;
    WorkProductsSigned(l.nodes);
    WorkProductsSigned(r.nodes);
    SignedNeverHides(NormalizedNodeOutputs(l.nodes), NormalizedNodeOutputs(r.nodes));
    EqualMapsMeans("node_outputs", NodeOutputs(l.nodes), NodeOutputs(r.nodes));
    EqualMapsMeans("artifacts", ArtifactSignatures(l.artifacts), ArtifactSignatures(r.artifacts));
    EqualMapsMeans("normalized_node_outputs", NormalizedNodeOutputs(l.nodes), NormalizedNodeOutputs(r.nodes));
  }

  /** For details that carry their own summaries, runs match exactly when both are ready and the difference list
      is empty, and likewise for work products. */
  lemma MatchMeansNoDifferences(l: Detail, r: Detail)
    requires OwnSummary(l) && OwnSummary(r)
    ensures var ready := l.determinism.compareReady && r.determinism.compareReady;
      && (ready && ChecksOf(l, r).All() <==> ready && Differences(l, r) == [])
      && (ready && ChecksOf(l, r).WorkProductAll() <==> ready && WorkProductDifferences(l, r) == [])
  {
    hide OwnSummary, AllSigned, HidesMissing, ChecksOf, Differences, WorkProductDifferences;
    ChecksMeanNoDifferences(l, r);
    if l.determinism.compareReady && r.determinism.compareReady {
      ReadySigned(l);
      ReadySigned(r);
      SignedNeverHides(NodeOutputs(l.nodes), NodeOutputs(r.nodes));
      SignedNeverHides(ArtifactSignatures(l.artifacts), ArtifactSignatures(r.artifacts));
    }
  }

  /** Hash checks decide agreement: frozen inputs and outputs agree up to member order, normalised ones once erased
      too. */
  lemma HashChecksDecideAgreement(l: Detail, r: Detail)
    requires OwnSummary(l) && OwnSummary(r) && l.dag.Some? && r.dag.Some?
    requires UniqueKeys(l.dag.value.input) && UniqueKeys(r.dag.value.input)
    requires UniqueKeys(l.dag.value.output) && UniqueKeys(r.dag.value.output)
    ensures ChecksOf(l, r).sameFrozenInputHash <==> Agree(Plain, l.dag.value.input, r.dag.value.input)
    ensures ChecksOf(l, r).sameDagOutputHash <==> Agree(Plain, l.dag.value.output, r.dag.value.output)
    ensures ChecksOf(l, r).sameNormalizedFrozenInputHash <==> Agree(Payload, l.dag.value.input, r.dag.value.input)
    ensures ChecksOf(l, r).sameNormalizedDagOutputHash <==> Agree(Payload, l.dag.value.output, r.dag.value.output)
  {
    hide Canonical, NormalizeDagIo, UniqueKeys, Agree, NodeOutputs, ArtifactSignatures, NormalizedNodeOutputs;
    CanonicalEqualsAgreement(l.dag.value.input, r.dag.value.input);
    CanonicalEqualsAgreement(l.dag.value.output, r.dag.value.output);
    NormalizedTextDecidesAgreement(l.dag.value.input, r.dag.value.input);
    NormalizedTextDecidesAgreement(l.dag.value.output, r.dag.value.output);
  }

  /** Without readiness an empty difference list is no match: a node without an output hash on one side only. */
  lemma UnreadyDifferencesMislead(input: Json, output: Json)
    ensures var dag := Some(DagRow("t", None, input, output));
      var row := NodeRow("n", 1, "ok", None, Null, Null);
      var l := Detail("a", "b", Null, dag, [], [], Summarise(Null, dag, [], []));
      var r := Detail("a", "b", Null, dag, [row], [], Summarise(Null, dag, [row], []));
      && OwnSummary(l) && OwnSummary(r)
      && Differences(l, r) == [] && !ChecksOf(l, r).All() && !r.determinism.compareReady
  {
    hide JsonHash;
    var row := NodeRow("n", 1, "ok", None, Null, Null);
    var key := "n" + "#" + IntText(1);
    assert [row][..0] == [];
    assert NodeKey(row) == key && OutputHash(row) == None;
    assert Keyed([row][..0], NodeKey, OutputHash) == map[];
    assert NodeOutputs([row]) == map[key := None];
    var none: Signatures, unsigned: Signatures := map[], map[key := None];
    assert none.Keys + unsigned.Keys == {key} && none.Keys + none.Keys == {};
    NoDifferencesMeans("node_outputs", none, unsigned, {key});
    NoDifferencesMeans("artifacts", none, none, {});
    assert !HasOutputHash(row) && row in [row];
  }
}
