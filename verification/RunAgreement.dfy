/** What the checks of a run comparison mean: agreement of the payloads and of the rows, said without hashes or keys. */
module RunAgreement {
  import opened Results
  import opened Json
  import opened CanonicalJson
  import opened JsonText
  import opened Normalise
  import opened Comparison

  // ---- Rows that speak of the same thing ----

  predicate SameAttempt(n: NodeRow, m: NodeRow) {
    n.nodeId == m.nodeId && n.attempt == m.attempt
  }

  /** Owner and name run together, so `a:b` owning `c` is taken for `a` owning `b:c`, and no attempt for attempt 0. */
  predicate SameArtifact(a: ArtifactRow, b: ArtifactRow) {
    && (if a.nodeId.Some? then a.nodeId.value else "-") + ":" + a.name == (if b.nodeId.Some? then b.nodeId.value else "-") + ":" + b.name
    && (if a.attempt.Some? then a.attempt.value else 0) == (if b.attempt.Some? then b.attempt.value else 0)
  }

  lemma NumberedTexts(s: string, n: int, t: string, m: int)
    ensures s + "#" + IntText(n) == t + "#" + IntText(m) <==> s == t && n == m
  {
    if s + "#" + IntText(n) == t + "#" + IntText(m) {
      NoHash(n);
      NoHash(m);
      LastHash(s, IntText(n), t, IntText(m));
      assert IntText(n) + "" == IntText(n) && IntText(m) + "" == IntText(m);
      IntTextEnds(n, "", m, "");
    }
  }

  lemma NoHash(n: int)
    ensures '#' !in IntText(n)
  {
    hide NatText;
    NumeralOf(if n < 0 then -n else n);
    assert forall i :: 0 <= i < |IntText(n)| ==> IntText(n)[i] == '-' || IsDigit(IntText(n)[i]);
  }

  lemma AfterHash(s: string, a: string, x: string, i: nat)
    requires '#' !in a && x == s + "#" + a && i < |x| && x[i] == '#'
    ensures i <= |s|
  {
  }

  /** Texts cut at their last `#` are cut alike. */
  lemma LastHash(s: string, a: string, t: string, b: string)
    requires '#' !in a && '#' !in b && s + "#" + a == t + "#" + b
    ensures s == t && a == b
  {
    var x := s + "#" + a;
    assert x[|s|] == x[|t|] == '#';
    AfterHash(s, a, x, |t|);
    AfterHash(t, b, x, |s|);
    assert |s| == |t|;
    assert s == x[..|s|] == t && a == x[|s| + 1..] == b;
  }

  lemma NodeKeyMeans(n: NodeRow, m: NodeRow)
    ensures NodeKey(n) == NodeKey(m) <==> SameAttempt(n, m)
  {
    hide IntText;
    NumberedTexts(n.nodeId, n.attempt, m.nodeId, m.attempt);
  }

  lemma ArtifactKeyMeans(a: ArtifactRow, b: ArtifactRow)
    ensures ArtifactKey(a) == ArtifactKey(b) <==> SameArtifact(a, b)
  {
    hide IntText;
    NumberedTexts(OwnerAndName(a), if a.attempt.Some? then a.attempt.value else 0,
                  OwnerAndName(b), if b.attempt.Some? then b.attempt.value else 0);
  }

  // ---- Lists of rows ----

  ghost predicate IsLast<T(!new)>(rows: seq<T>, about: (T, T) -> bool, i: nat) {
    i < |rows| && forall j :: i < j < |rows| ==> !about(rows[i], rows[j])
  }

  ghost predicate HasRow<T(!new)>(a: T, rows: seq<T>, about: (T, T) -> bool) {
    exists j :: 0 <= j < |rows| && about(a, rows[j])
  }

  ghost predicate Covers<T(!new)>(rows: seq<T>, other: seq<T>, about: (T, T) -> bool) {
    forall i :: 0 <= i < |rows| ==> HasRow(rows[i], other, about)
  }

  /** Whatever one list has a row about the other has one about too, and the last rows about it say the same. */
  ghost predicate RowsAgree<T(!new)>(left: seq<T>, right: seq<T>, about: (T, T) -> bool, same: (T, T) -> bool) {
    && Covers(left, right, about) && Covers(right, left, about)
    && forall i: nat, j: nat :: IsLast(left, about, i) && IsLast(right, about, j) && about(left[i], right[j]) ==> same(left[i], right[j])
  }

  /** The row that gives key `k` its signature. */
  ghost predicate Signs<T(!new)>(rows: seq<T>, key: T -> string, k: string, i: nat) {
    i < |rows| && key(rows[i]) == k && forall j :: i < j < |rows| ==> key(rows[j]) != k
  }

  lemma {:induction false} KeysOfRows<T(!new)>(rows: seq<T>, key: T -> string, signature: T -> Option<string>)
    ensures forall i :: 0 <= i < |rows| ==> key(rows[i]) in Keyed(rows, key, signature)
  {
    if rows != [] {
      KeysOfRows(rows[..|rows| - 1], key, signature);
    }
  }

  lemma {:induction false} Signer<T(!new)>(rows: seq<T>, key: T -> string, signature: T -> Option<string>, k: string) returns (i: nat)
    requires k in Keyed(rows, key, signature)
    ensures Signs(rows, key, k, i) && Keyed(rows, key, signature)[k] == signature(rows[i])
  {
    if key(rows[|rows| - 1]) == k {
      i := |rows| - 1;
    } else {
      i := Signer(rows[..|rows| - 1], key, signature, k);
    }
  }

  lemma SignsOnce<T(!new)>(rows: seq<T>, key: T -> string, k: string, i: nat, j: nat)
    requires Signs(rows, key, k, i) && Signs(rows, key, k, j)
    ensures i == j
  {
  }

  ghost predicate ByKey<T(!new)>(key: T -> string, about: (T, T) -> bool) {
    forall a, b {:trigger about(a, b)} :: about(a, b) <==> key(a) == key(b)
  }

  lemma LastSigns<T(!new)>(rows: seq<T>, key: T -> string, about: (T, T) -> bool, i: nat)
    requires ByKey(key, about) && i < |rows|
    ensures IsLast(rows, about, i) <==> Signs(rows, key, key(rows[i]), i)
  {
  }

  lemma KeysCovered<T(!new)>(rows: seq<T>, other: seq<T>, key: T -> string, signature: T -> Option<string>, about: (T, T) -> bool,
                             l: Signatures, r: Signatures)
    requires ByKey(key, about) && l == Keyed(rows, key, signature) && r == Keyed(other, key, signature)
    ensures Covers(rows, other, about) <==> l.Keys <= r.Keys
  {
    hide Keyed;
    KeysOfRows(rows, key, signature);
    KeysOfRows(other, key, signature);
    if Covers(rows, other, about) {
      forall k | k in l
        ensures k in r
      {
        var i := Signer(rows, key, signature, k);
        assert HasRow(rows[i], other, about);
        var j :| 0 <= j < |other| && about(rows[i], other[j]);
        assert key(other[j]) == k;
      }
      assert l.Keys <= r.Keys;
    }
    if l.Keys <= r.Keys {
      forall i | 0 <= i < |rows|
        ensures HasRow(rows[i], other, about)
      {
        assert key(rows[i]) in l.Keys;
        var j := Signer(other, key, signature, key(rows[i]));
        assert about(rows[i], other[j]);
      }
    }
  }

  /** Two rows that give a key its signatures, one on each side. */
  lemma SidesAgree<T(!new)>(left: seq<T>, right: seq<T>, key: T -> string, signature: T -> Option<string>,
                            about: (T, T) -> bool, i: nat, j: nat)
    requires ByKey(key, about) && IsLast(left, about, i) && IsLast(right, about, j) && about(left[i], right[j])
    ensures key(left[i]) in Keyed(left, key, signature) && Keyed(left, key, signature)[key(left[i])] == signature(left[i])
    ensures key(left[i]) in Keyed(right, key, signature) && Keyed(right, key, signature)[key(left[i])] == signature(right[j])
  {
    hide Keyed;
    var k := key(left[i]);
    KeysOfRows(left, key, signature);
    KeysOfRows(right, key, signature);
    LastSigns(left, key, about, i);
    LastSigns(right, key, about, j);
    assert key(right[j]) == k;
    var p := Signer(left, key, signature, k);
    SignsOnce(left, key, k, i, p);
    var q := Signer(right, key, signature, k);
    SignsOnce(right, key, k, j, q);
  }

  lemma KeyHasSides<T(!new)>(left: seq<T>, right: seq<T>, key: T -> string, signature: T -> Option<string>, about: (T, T) -> bool, k: string)
    returns (i: nat, j: nat)
    requires ByKey(key, about) && k in Keyed(left, key, signature) && k in Keyed(right, key, signature)
    ensures IsLast(left, about, i) && IsLast(right, about, j) && about(left[i], right[j]) && key(left[i]) == k
  {
    hide Keyed;
    i := Signer(left, key, signature, k);
    j := Signer(right, key, signature, k);
    LastSigns(left, key, about, i);
    LastSigns(right, key, about, j);
  }

  /** Equal signature maps mean agreeing rows. */
  lemma KeyedAgree<T(!new)>(left: seq<T>, right: seq<T>, key: T -> string, signature: T -> Option<string>,
                            about: (T, T) -> bool, same: (T, T) -> bool)
    requires ByKey(key, about)
    requires forall i, j :: 0 <= i < |left| && 0 <= j < |right| ==> (same(left[i], right[j]) <==> signature(left[i]) == signature(right[j]))
    ensures Keyed(left, key, signature) == Keyed(right, key, signature) <==> RowsAgree(left, right, about, same)
  {
    hide Keyed, ByKey, Covers;
    var l, r := Keyed(left, key, signature), Keyed(right, key, signature);
    KeysCovered(left, right, key, signature, about, l, r);
    KeysCovered(right, left, key, signature, about, r, l);
    if l == r {
      forall i: nat, j: nat | IsLast(left, about, i) && IsLast(right, about, j) && about(left[i], right[j])
        ensures same(left[i], right[j])
      {
        SidesAgree(left, right, key, signature, about, i, j);
      }
    }
    if RowsAgree(left, right, about, same) {
      forall k | k in l && k in r
        ensures l[k] == r[k]
      {
        var i, j := KeyHasSides(left, right, key, signature, about, k);
        SidesAgree(left, right, key, signature, about, i, j);
      }
      assert l.Keys == r.Keys;
    }
  }

  // ---- Work products ----

  /** The member of an object, or null. */
  function Part(j: Json, key: string): Json {
    if j.Obj? && Find(j.members, key, 0).Some? then j.members[Find(j.members, key, 0).value].value else Null
  }

  /** Same status, exit status, outputs, artifact integrity apart from the files' locations, and warning. */
  predicate SameWork(n: NodeRow, m: NodeRow) {
    && n.status == m.status && n.exitStatus == m.exitStatus
    && Agree(Plain, Part(n.output, "outputs"), Part(m.output, "outputs"))
    && Agree(Artifacts, Part(n.output, "output_artifact_integrity"), Part(m.output, "output_artifact_integrity"))
    && Agree(Plain, Part(n.output, "warning"), Part(m.output, "warning"))
  }

  lemma PartUnique(j: Json, key: string)
    requires UniqueKeys(j)
    ensures UniqueKeys(Part(j, key))
  {
  }

  function Integrity(n: NodeRow): Json {
    NormalizeArtifacts(Part(n.output, "output_artifact_integrity"))
  }

  lemma WorkProductIs(n: NodeRow)
    ensures WorkProduct(n) == Obj([
      Member("state", Str(n.status)),
      Member("exit_status", if n.exitStatus.Some? then Num(n.exitStatus.value) else Null),
      Member("outputs", Part(n.output, "outputs")),
      Member("output_artifact_integrity", Integrity(n)),
      Member("warning", Part(n.output, "warning"))])
  {
  }

  lemma WorkProductUnique(n: NodeRow)
    requires UniqueKeys(n.output)
    ensures UniqueKeys(WorkProduct(n))
  {
    hide NormalizeArtifacts;
    WorkProductIs(n);
    PartUnique(n.output, "outputs");
    PartUnique(n.output, "output_artifact_integrity");
    PartUnique(n.output, "warning");
    ArtifactsErase(Part(n.output, "output_artifact_integrity"));
    ErasedUnique(Artifacts, Part(n.output, "output_artifact_integrity"));
    FiveKeys(WorkProduct(n).members);
  }

  lemma FiveKeys(members: seq<Member>)
    requires |members| == 5 && members[0].key == "state" && members[1].key == "exit_status" && members[2].key == "outputs"
    requires members[3].key == "output_artifact_integrity" && members[4].key == "warning"
    ensures DistinctKeys(members)
  {
    assert |"state"| == 5 && |"exit_status"| == 11 && |"outputs"| == 7 && |"output_artifact_integrity"| == 25 && |"warning"| == 7;
    assert "outputs"[0] == 'o' && "warning"[0] == 'w';
  }

  lemma FiveAgree(a: seq<Member>, b: seq<Member>)
    requires |a| == |b| == 5 && DistinctKeys(a) && forall i :: 0 <= i < 5 ==> a[i].key == b[i].key
    ensures Agree(Plain, Obj(a), Obj(b)) <==> forall i :: 0 <= i < 5 ==> Agree(Plain, a[i].value, b[i].value)
  {
    assert VisibleKeys(Plain, a) == VisibleKeys(Plain, b) by {
      forall k
        ensures k in VisibleKeys(Plain, a) <==> k in VisibleKeys(Plain, b)
      {
        if m :| m in a && m.key == k {
          var i :| 0 <= i < 5 && a[i] == m;
          assert b[i] in b;
        }
        if m :| m in b && m.key == k {
          var i :| 0 <= i < 5 && b[i] == m;
          assert a[i] in a;
        }
      }
    }
    if forall i :: 0 <= i < 5 ==> Agree(Plain, a[i].value, b[i].value) {
      forall m, n | m in a && n in b && m.key == n.key
        ensures Agree(Plain, m.value, n.value)
      {
        var i :| 0 <= i < 5 && a[i] == m;
        var j :| 0 <= j < 5 && b[j] == n;
        assert i == j;
      }
    }
    if Agree(Plain, Obj(a), Obj(b)) {
      forall i | 0 <= i < 5
        ensures Agree(Plain, a[i].value, b[i].value)
      {
        assert a[i] in a && b[i] in b;
      }
    }
  }

  /** Work products hash alike exactly when the rows tell the same work. */
  lemma WorkProductMeans(n: NodeRow, m: NodeRow)
    requires UniqueKeys(n.output) && UniqueKeys(m.output)
    ensures JsonHash(WorkProduct(n)) == JsonHash(WorkProduct(m)) <==> SameWork(n, m)
  {
    hide Canonical, Agree, UniqueKeys, NormalizeArtifacts, Part, WorkProduct;
    WorkProductUnique(n);
    WorkProductUnique(m);
    CanonicalEqualsAgreement(WorkProduct(n), WorkProduct(m));
    WorkProductIs(n);
    WorkProductIs(m);
    FiveKeys(WorkProduct(n).members);
    FiveAgree(WorkProduct(n).members, WorkProduct(m).members);
    var i, j := Part(n.output, "output_artifact_integrity"), Part(m.output, "output_artifact_integrity");
    ErasedDecides(i, j);
    LeafAgree(Str(n.status), Str(m.status));
    LeafAgree(WorkProduct(n).members[1].value, WorkProduct(m).members[1].value);
    var a, b := WorkProduct(n).members, WorkProduct(m).members;
    assert a[0].value == Str(n.status) && b[0].value == Str(m.status);
    assert (forall k :: 0 <= k < 5 ==> Agree(Plain, a[k].value, b[k].value)) <==>
      Agree(Plain, a[0].value, b[0].value) && Agree(Plain, a[1].value, b[1].value) && Agree(Plain, a[2].value, b[2].value)
      && Agree(Plain, a[3].value, b[3].value) && Agree(Plain, a[4].value, b[4].value);
  }

  lemma LeafAgree(a: Json, b: Json)
    requires !a.Obj? && !a.Arr?
    ensures Agree(Plain, a, b) <==> a == b
  {
  }

  lemma ErasedDecides(a: Json, b: Json)
    ensures Agree(Plain, NormalizeArtifacts(a), NormalizeArtifacts(b)) <==> Agree(Artifacts, a, b)
  {
    hide Agree, NormalizeArtifacts, Erase;
    ArtifactsErase(a);
    ArtifactsErase(b);
    if Agree(Artifacts, a, b) {
      AgreementSurvivesErasing(Artifacts, a, b);
    }
    if Agree(Plain, NormalizeArtifacts(a), NormalizeArtifacts(b)) {
      ErasedAgreementIsAgreement(Artifacts, a, b);
    }
  }

  // ---- The checks ----

  /** Parsed payloads and rows have no key twice. */
  ghost predicate Parsed(d: Detail) {
    && (d.dag.Some? ==> UniqueKeys(d.dag.value.input) && UniqueKeys(d.dag.value.output))
    && forall n :: n in d.nodes ==> UniqueKeys(n.output)
  }

  /** What each check of a comparison decides, for details that carry their own summaries: who ran what, agreement of
      the DAG inputs and outputs, raw and with runtime identities and artifact locations erased, and agreement of the
      node and artifact rows. */
  lemma ChecksDecideAgreement(l: Detail, r: Detail)
    requires OwnSummary(l) && OwnSummary(r) && Parsed(l) && Parsed(r)
    ensures var checks := ChecksOf(l, r);
      && (checks.sameApp <==> l.appId == r.appId) && (checks.sameAction <==> l.actionId == r.actionId)
      && (l.dag.Some? && r.dag.Some? ==>
            && (checks.sameDagType <==> l.dag.value.dagType == r.dag.value.dagType)
            && (checks.sameManifestHash <==> l.dag.value.manifestHash == r.dag.value.manifestHash)
            && (checks.sameFrozenInputHash <==> Agree(Plain, l.dag.value.input, r.dag.value.input))
            && (checks.sameDagOutputHash <==> Agree(Plain, l.dag.value.output, r.dag.value.output))
            && (checks.sameNormalizedFrozenInputHash <==> Agree(Payload, l.dag.value.input, r.dag.value.input))
            && (checks.sameNormalizedDagOutputHash <==> Agree(Payload, l.dag.value.output, r.dag.value.output)))
    ensures ChecksOf(l, r).sameNodeOutputs <==>
      RowsAgree(l.nodes, r.nodes, SameAttempt, (n: NodeRow, m: NodeRow) => GetString(n.output, "output_hash") == GetString(m.output, "output_hash"))
    ensures ChecksOf(l, r).sameNormalizedNodeOutputs <==> RowsAgree(l.nodes, r.nodes, SameAttempt, SameWork)
    ensures ChecksOf(l, r).sameArtifacts <==>
      RowsAgree(l.artifacts, r.artifacts, SameArtifact, (a: ArtifactRow, b: ArtifactRow) => a.sha256 == b.sha256)
  {
    hide Canonical, NormalizeDagIo, UniqueKeys, Agree, Keyed, RowsAgree, WorkProduct, SameWork, SameAttempt, SameArtifact, NodeKey, ArtifactKey;
    if l.dag.Some? && r.dag.Some? {
      HashChecksDecideAgreement(l, r);
    }
    NodesAgree(l.nodes, r.nodes);
    ArtifactsAgree(l.artifacts, r.artifacts);
  }

  lemma NodesAgree(left: seq<NodeRow>, right: seq<NodeRow>)
    requires forall n :: n in left + right ==> UniqueKeys(n.output)
    ensures NodeOutputs(left) == NodeOutputs(right) <==>
      RowsAgree(left, right, SameAttempt, (n: NodeRow, m: NodeRow) => GetString(n.output, "output_hash") == GetString(m.output, "output_hash"))
    ensures NormalizedNodeOutputs(left) == NormalizedNodeOutputs(right) <==> RowsAgree(left, right, SameAttempt, SameWork)
  {
    hide Keyed, RowsAgree, NodeKey, SameAttempt, SameWork, JsonHash, WorkProduct, UniqueKeys;
    forall n, m
      ensures SameAttempt(n, m) <==> NodeKey(n) == NodeKey(m)
    {
      NodeKeyMeans(n, m);
    }
    forall i, j | 0 <= i < |left| && 0 <= j < |right|
      ensures SameWork(left[i], right[j]) <==> JsonHash(WorkProduct(left[i])) == JsonHash(WorkProduct(right[j]))
    {
      assert left[i] in left + right && right[j] in left + right;
      WorkProductMeans(left[i], right[j]);
    }
    KeyedAgree(left, right, NodeKey, OutputHash, SameAttempt,
               (n: NodeRow, m: NodeRow) => GetString(n.output, "output_hash") == GetString(m.output, "output_hash"));
    KeyedAgree(left, right, NodeKey, (n: NodeRow) => Some(JsonHash(WorkProduct(n))), SameAttempt, SameWork);
  }

  lemma ArtifactsAgree(left: seq<ArtifactRow>, right: seq<ArtifactRow>)
    ensures ArtifactSignatures(left) == ArtifactSignatures(right) <==>
      RowsAgree(left, right, SameArtifact, (a: ArtifactRow, b: ArtifactRow) => a.sha256 == b.sha256)
  {
    hide Keyed, RowsAgree, ArtifactKey, SameArtifact;
    forall a, b
      ensures SameArtifact(a, b) <==> ArtifactKey(a) == ArtifactKey(b)
    {
      ArtifactKeyMeans(a, b);
    }
    KeyedAgree(left, right, ArtifactKey, (a: ArtifactRow) => a.sha256, SameArtifact, (a: ArtifactRow, b: ArtifactRow) => a.sha256 == b.sha256);
  }

  // ---- The difference lists ----

  function TextOrNull(o: Option<string>): Json {
    match o case Some(s) => Str(s) case None => Null
  }

  /** `d` tells that the signatures of key `k` differ, a missing key read as no signature. */
  ghost predicate TellsKey(prefix: string, left: Signatures, right: Signatures, k: string, d: Difference) {
    && k in left.Keys + right.Keys
    && var l, r := if k in left then left[k] else None, if k in right then right[k] else None;
       l != r && d == Difference(prefix + "." + k, TextOrNull(l), TextOrNull(r))
  }

  lemma {:induction false} DifferencesTell(prefix: string, left: Signatures, right: Signatures, keys: set<string>, d: Difference)
    requires keys <= left.Keys + right.Keys
    ensures d in DifferencesOver(prefix, left, right, keys) <==> exists k :: k in keys && TellsKey(prefix, left, right, k, d)
    decreases |keys|
  {
    if keys != {} {
      var k := Least(keys);
      DifferencesTell(prefix, left, right, keys - {k}, d);
      OneKeyTells(prefix, left, right, k, d);
      hide TellsKey, KeyDifference;
      assert forall o :: o in keys <==> o == k || o in keys - {k};
    }
  }

  lemma OneKeyTells(prefix: string, left: Signatures, right: Signatures, k: string, d: Difference)
    requires k in left.Keys + right.Keys
    ensures d in KeyDifference(prefix, left, right, k) <==> TellsKey(prefix, left, right, k, d)
  {
  }

  /** A field is listed with both sides' values exactly when they differ. */
  ghost predicate TellsField(field: string, left: Option<string>, right: Option<string>, d: Difference) {
    left != right && d == Difference(field, TextOrNull(left), TextOrNull(right))
  }

  ghost predicate TellsIdentity(l: Detail, r: Detail, d: Difference) {
    || (l.appId != r.appId && d == Difference("app_id", Str(l.appId), Str(r.appId)))
    || (l.actionId != r.actionId && d == Difference("action_id", Str(l.actionId), Str(r.actionId)))
    || TellsField("dag_type", if l.dag.Some? then Some(l.dag.value.dagType) else None,
                  if r.dag.Some? then Some(r.dag.value.dagType) else None, d)
    || TellsField("determinism.manifest_hash", l.determinism.manifestHash, r.determinism.manifestHash, d)
  }

  lemma IdentityTells(l: Detail, r: Detail, d: Difference)
    ensures d in IdentityDifferences(l, r, ChecksOf(l, r)) <==> TellsIdentity(l, r, d)
  {
    hide NodeOutputs, ArtifactSignatures, NormalizedNodeOutputs, NormalizedInputHash, NormalizedOutputHash;
  }

  /** What the difference list of a comparison holds: exactly one entry for each field, node output and artifact on
      which the runs differ, naming it with its left and right value. */
  lemma DifferencesListed(l: Detail, r: Detail, d: Difference)
    ensures d in Differences(l, r) <==>
      || TellsIdentity(l, r, d)
      || TellsField("determinism.frozen_input_hash", l.determinism.frozenInputHash, r.determinism.frozenInputHash, d)
      || TellsField("determinism.dag_output_hash", l.determinism.dagOutputHash, r.determinism.dagOutputHash, d)
      || (exists k :: TellsKey("node_outputs", NodeOutputs(l.nodes), NodeOutputs(r.nodes), k, d))
      || (exists k :: TellsKey("artifacts", ArtifactSignatures(l.artifacts), ArtifactSignatures(r.artifacts), k, d))
    ensures d in WorkProductDifferences(l, r) <==>
      || TellsIdentity(l, r, d)
      || TellsField("determinism.normalized_frozen_input_hash", NormalizedInputHash(l), NormalizedInputHash(r), d)
      || TellsField("determinism.normalized_dag_output_hash", NormalizedOutputHash(l), NormalizedOutputHash(r), d)
      || (exists k :: TellsKey("normalized_node_outputs", NormalizedNodeOutputs(l.nodes), NormalizedNodeOutputs(r.nodes), k, d))
      || (exists k :: TellsKey("artifacts", ArtifactSignatures(l.artifacts), ArtifactSignatures(r.artifacts), k, d))
  {
    hide NodeOutputs, ArtifactSignatures, NormalizedNodeOutputs, NormalizedInputHash, NormalizedOutputHash, IdentityDifferences, TellsIdentity,
      DifferencesOver;
    IdentityTells(l, r, d);
    MapTells("node_outputs", NodeOutputs(l.nodes), NodeOutputs(r.nodes), d);
    MapTells("normalized_node_outputs", NormalizedNodeOutputs(l.nodes), NormalizedNodeOutputs(r.nodes), d);
    MapTells("artifacts", ArtifactSignatures(l.artifacts), ArtifactSignatures(r.artifacts), d);
    hide MapDifferences, TellsKey;
  }

  lemma MapTells(prefix: string, left: Signatures, right: Signatures, d: Difference)
    ensures d in MapDifferences(prefix, left, right) <==> exists k :: TellsKey(prefix, left, right, k, d)
  {
    DifferencesTell(prefix, left, right, left.Keys + right.Keys, d);
  }

  // ---- The summary ----

  /** Counting adds up over lists, and counts a single row that has the property once. */
  lemma {:induction false} CountIfAdds<T>(a: seq<T>, b: seq<T>, p: T -> bool)
    ensures CountIf(a + b, p) == CountIf(a, p) + CountIf(b, p)
    ensures |a| == 1 ==> CountIf(a, p) == if p(a[0]) then 1 else 0
  {
    if a == [] {
      assert a + b == b;
    } else {
      assert (a + b)[1..] == a[1..] + b;
      CountIfAdds(a[1..], b, p);
    }
  }

  /** The member is a string that is not empty. */
  predicate Holds(j: Json, key: string) {
    match Get(j, key)
    case Some(v) => v.Str? && v.s != ""
    case None => false
  }

  /** What a determinism summary counts: node rows, those with an input hash, those with an output hash, artifact rows
      and those with a SHA-256; and whether the output holds a report. */
  lemma SummaryCounts(d: Detail)
    requires OwnSummary(d)
    ensures var s := d.determinism;
      && s.nodeAttempts == |d.nodes| && s.artifacts == |d.artifacts|
      && s.nodeInputHashes == CountIf(d.nodes, (n: NodeRow) => Holds(n.input, "input_hash"))
      && s.nodeOutputHashes == CountIf(d.nodes, (n: NodeRow) => Holds(n.output, "output_hash"))
      && s.artifactsWithSha256 == CountIf(d.artifacts, (a: ArtifactRow) => a.sha256.Some? && a.sha256.value != "")
      && (s.checkpointAvailable <==> Get(d.output, "report").Some? && Get(d.output, "report").value.Obj?)
  {
    hide JsonHash, Get;
    SameCount(d.nodes, HasInputHash, (n: NodeRow) => Holds(n.input, "input_hash"));
    SameCount(d.nodes, HasOutputHash, (n: NodeRow) => Holds(n.output, "output_hash"));
    SameCount(d.artifacts, HasSha256, (a: ArtifactRow) => a.sha256.Some? && a.sha256.value != "");
  }

  lemma {:induction false} SameCount<T(!new)>(items: seq<T>, p: T -> bool, q: T -> bool)
    requires forall x :: p(x) == q(x)
    ensures CountIf(items, p) == CountIf(items, q)
  {
    if items != [] {
      SameCount(items[1..], p, q);
    }
  }
}
