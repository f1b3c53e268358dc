/** Normalised comparison of DAG payloads: equal canonical text means agreement up to member order and erased keys. */
module Normalise {
  import opened Results
  import opened Json
  import opened CanonicalJson
  import opened JsonText

  // ---- The normalisers ----

  predicate IsRuntimeIdentity(key: string) {
    key in {"adapter_idempotency_key", "app_run_id", "app_run_log_path", "dag_run_id", "lease_id", "loop_continue"}
  }

  function NormalizeDagIo(j: Json): Json {
    if !j.Obj? then j
    else Obj(seq(|j.members|, i requires 0 <= i < |j.members| =>
      var m := j.members[i];
      if m.key == "values" then Member(m.key, NormalizeValues(m.value))
      else if m.key == "artifacts" then Member(m.key, NormalizeArtifacts(m.value))
      else m))
  }

  function NormalizeValues(j: Json): Json
    decreases j
  {
    match j
    case Obj(members) => Obj(NormalizeValueMembers(members))
    case Arr(items) => Arr(seq(|items|, i requires 0 <= i < |items| => NormalizeValues(items[i])))
    case other => other
  }

  function NormalizeValueMembers(members: seq<Member>): seq<Member>
    decreases members
  {
    if members == [] then []
    else if IsRuntimeIdentity(members[0].key) then NormalizeValueMembers(members[1..])
    else [Member(members[0].key, NormalizeValues(members[0].value))] + NormalizeValueMembers(members[1..])
  }

  function NormalizeArtifacts(j: Json): Json {
    if !j.Obj? then j
    else Obj(seq(|j.members|, i requires 0 <= i < |j.members| =>
      Member(j.members[i].key, NormalizeArtifactRef(j.members[i].value))))
  }

  function NormalizeArtifactRef(j: Json): Json {
    if !j.Obj? then j else Obj(WithoutUri(j.members))
  }

  function WithoutUri(members: seq<Member>): seq<Member> {
    if members == [] then []
    else (if members[0].key == "uri" then [] else [members[0]]) + WithoutUri(members[1..])
  }

  // ---- What agreement means ----

  /** Where in a payload a value stands, which decides the keys erased below it. */
  datatype Scope = Payload | Values | Artifacts | ArtifactRef | Plain

  /** Where the value of a member stands, or None when the member is erased. */
  function Inside(scope: Scope, key: string): Option<Scope> {
    match scope
    case Payload => if key == "values" then Some(Values) else if key == "artifacts" then Some(Artifacts) else Some(Plain)
    case Values => if IsRuntimeIdentity(key) then None else Some(Values)
    case Artifacts => Some(ArtifactRef)
    case ArtifactRef => if key == "uri" then None else Some(Plain)
    case Plain => Some(Plain)
  }

  function ItemScope(scope: Scope): Scope {
    if scope == Values then Values else Plain
  }

  function VisibleKeys(scope: Scope, members: seq<Member>): set<string> {
    set m | m in members && Inside(scope, m.key).Some? :: m.key
  }

  /** Equal up to member order, ignoring the members erased at each depth. */
  predicate Agree(scope: Scope, a: Json, b: Json)
    decreases a
  {
    if a.Obj? && b.Obj? then
      && VisibleKeys(scope, a.members) == VisibleKeys(scope, b.members)
      && (forall m, n :: m in a.members && n in b.members && m.key == n.key && Inside(scope, m.key).Some? ==>
            Agree(Inside(scope, m.key).value, m.value, n.value))
    else if a.Arr? && b.Arr? then
      |a.items| == |b.items| && forall i :: 0 <= i < |a.items| ==> Agree(ItemScope(scope), a.items[i], b.items[i])
    else a == b
  }

  /** No object has a key twice, as in any parsed value. */
  ghost predicate UniqueKeys(j: Json)
    decreases j
  {
    match j
    case Obj(members) => DistinctKeys(members) && forall m :: m in members ==> UniqueKeys(m.value)
    case Arr(items) => forall i :: 0 <= i < |items| ==> UniqueKeys(items[i])
    case _ => true
  }

  // ---- Canonical text and agreement ----

  predicate KeysSorted(keys: seq<string>) {
    forall i, j :: 0 <= i < j < |keys| ==> Before(keys[i], keys[j])
  }

  lemma SameFirstKey(a: seq<string>, b: seq<string>)
    requires KeysSorted(a) && KeysSorted(b) && forall k :: k in a <==> k in b
    ensures a == [] <==> b == []
    ensures a != [] ==> a[0] == b[0]
  {
    assert a != [] ==> a[0] in b;
    assert b != [] ==> b[0] in a;
    if a != [] && b != [] {
      FirstIsLeast(a, b[0]);
      FirstIsLeast(b, a[0]);
      assert Before(a[0], b[0]) ==> !Before(b[0], a[0]) by {
        if Before(a[0], b[0]) {
          BeforeStrict(a[0], b[0]);
        }
      }
    }
  }

  lemma {:induction false} SortedKeysUnique(a: seq<string>, b: seq<string>)
    requires KeysSorted(a) && KeysSorted(b) && forall k :: k in a <==> k in b
    ensures a == b
  {
    hide Before;
    SameFirstKey(a, b);
    if a != [] {
      TailKeys(a);
      TailKeys(b);
      SortedKeysUnique(a[1..], b[1..]);
      assert a == [a[0]] + a[1..] && b == [b[0]] + b[1..];
    }
  }

  lemma FirstIsLeast(a: seq<string>, k: string)
    requires KeysSorted(a) && k in a
    ensures k == a[0] || Before(a[0], k)
  {
  }

  lemma TailKeys(a: seq<string>)
    requires KeysSorted(a) && a != []
    ensures KeysSorted(a[1..]) && forall k :: k in a[1..] <==> k in a && k != a[0]
  {
    forall i | 0 < i < |a|
      ensures a[i] != a[0]
    {
      BeforeStrict(a[0], a[i]);
    }
    assert a == [a[0]] + a[1..];
  }

  function KeysOf(members: seq<Member>): (keys: seq<string>)
    ensures |keys| == |members| && forall i :: 0 <= i < |keys| ==> keys[i] == members[i].key
  {
    seq(|members|, i requires 0 <= i < |members| => members[i].key)
  }

  lemma PlainKeys(members: seq<Member>, k: string)
    ensures k in VisibleKeys(Plain, members) <==> k in KeysOf(members)
    ensures k in KeysOf(members) <==> exists m :: m in members && m.key == k
  {
    if m :| m in members && m.key == k {
      var i :| 0 <= i < |members| && members[i] == m;
      assert KeysOf(members)[i] == k;
    }
  }

  lemma SortedSameKeys(ms: seq<Member>, ns: seq<Member>)
    requires DistinctKeys(ms) && DistinctKeys(ns) && VisibleKeys(Plain, ms) == VisibleKeys(Plain, ns)
    ensures KeysOf(SortMembers(ms)) == KeysOf(SortMembers(ns))
  {
    hide SortMembers, VisibleKeys, Before;
    SortSorts(ms);
    SortSorts(ns);
    var a, b := KeysOf(SortMembers(ms)), KeysOf(SortMembers(ns));
    forall k
      ensures k in a <==> k in b
    {
      PlainKeys(ms, k);
      PlainKeys(ns, k);
      PlainKeys(SortMembers(ms), k);
      PlainKeys(SortMembers(ns), k);
    }
    SortedKeysUnique(a, b);
  }

  lemma {:induction false} AgreeingOrdered(a: Json, b: Json)
    requires UniqueKeys(a) && UniqueKeys(b) && Agree(Plain, a, b)
    ensures Ordered(a) == Ordered(b)
    decreases a
  {
    hide SortMembers, VisibleKeys;
    if a.Obj? && b.Obj? {
      var s, t := SortMembers(a.members), SortMembers(b.members);
      SortedSameKeys(a.members, b.members);
      assert KeysOf(s) == KeysOf(t);
      forall i | 0 <= i < |s|
        ensures s[i].key == t[i].key && Ordered(s[i].value) == Ordered(t[i].value)
      {
        assert s[i].key == KeysOf(s)[i] && t[i].key == KeysOf(t)[i];
        assert s[i] in a.members && t[i] in b.members;
        AgreeingOrdered(s[i].value, t[i].value);
      }
      assert Ordered(a).members == Ordered(b).members;
    } else if a.Arr? && b.Arr? {
      forall i | 0 <= i < |a.items|
        ensures Ordered(a.items[i]) == Ordered(b.items[i])
      {
        AgreeingOrdered(a.items[i], b.items[i]);
      }
      assert Ordered(a).items == Ordered(b).items;
    }
  }

  /** Objects ordered alike have the same keys, with values ordered alike. */
  lemma OrderedMembers(ms: seq<Member>, ns: seq<Member>)
    requires DistinctKeys(ns) && Ordered(Obj(ms)) == Ordered(Obj(ns))
    ensures VisibleKeys(Plain, ms) == VisibleKeys(Plain, ns)
    ensures forall m, n :: m in ms && n in ns && m.key == n.key ==> Ordered(m.value) == Ordered(n.value)
  {
    hide SortMembers, VisibleKeys;
    var s, t := SortMembers(ms), SortMembers(ns);
    forall i | 0 <= i < |s|
      ensures i < |t| && s[i].key == t[i].key && Ordered(s[i].value) == Ordered(t[i].value)
    {
      assert Ordered(Obj(ms)).members[i] == Ordered(Obj(ns)).members[i];
    }
    assert |s| == |Ordered(Obj(ms)).members| == |t|;
    hide Ordered;
    SortSorts(ns);
    SameKeySets(ms, ns, s, t);
    forall m, n | m in ms && n in ns && m.key == n.key
      ensures Ordered(m.value) == Ordered(n.value)
    {
      var i :| 0 <= i < |s| && s[i] == m;
      var j :| 0 <= j < |t| && t[j] == n;
      SortedKeyAt(t, i, j);
    }
  }

  lemma {:induction false} OrderedAgree(a: Json, b: Json)
    requires UniqueKeys(a) && UniqueKeys(b) && Ordered(a) == Ordered(b)
    ensures Agree(Plain, a, b)
    decreases a
  {
    hide SortMembers, VisibleKeys;
    if a.Obj? && b.Obj? {
      OrderedMembers(a.members, b.members);
      hide Ordered;
      forall m, n | m in a.members && n in b.members && m.key == n.key
        ensures Agree(Plain, m.value, n.value)
      {
        OrderedAgree(m.value, n.value);
      }
    } else if a.Arr? && b.Arr? {
      assert |a.items| == |Ordered(a).items| == |b.items|;
      forall i | 0 <= i < |a.items|
        ensures Agree(Plain, a.items[i], b.items[i])
      {
        assert Ordered(a).items[i] == Ordered(b).items[i];
        OrderedAgree(a.items[i], b.items[i]);
      }
    }
  }

  lemma SortedKeyAt(t: seq<Member>, i: nat, j: nat)
    requires StrictlySorted(t) && i < |t| && j < |t| && t[i].key == t[j].key
    ensures i == j
  {
    if i < j {
      BeforeStrict(t[i].key, t[j].key);
    } else if j < i {
      BeforeStrict(t[j].key, t[i].key);
    }
  }

  lemma SameKeySets(ms: seq<Member>, ns: seq<Member>, s: seq<Member>, t: seq<Member>)
    requires (forall m :: m in s <==> m in ms) && (forall n :: n in t <==> n in ns)
    requires |s| == |t| && forall i :: 0 <= i < |s| ==> s[i].key == t[i].key
    ensures VisibleKeys(Plain, ms) == VisibleKeys(Plain, ns)
  {
    forall k
      ensures k in VisibleKeys(Plain, ms) <==> k in VisibleKeys(Plain, ns)
    {
      if m :| m in s && m.key == k {
        var i :| 0 <= i < |s| && s[i] == m;
        assert t[i] in t;
      }
      if n :| n in t && n.key == k {
        var i :| 0 <= i < |t| && t[i] == n;
        assert s[i] in s;
      }
    }
  }

  /** Two values have the same canonical text exactly when they are equal up to member order. */
  lemma CanonicalEqualsAgreement(a: Json, b: Json)
    requires UniqueKeys(a) && UniqueKeys(b)
    ensures Canonical(a) == Canonical(b) <==> Agree(Plain, a, b)
  {
    hide Text, Ordered, Agree, UniqueKeys;
    if Canonical(a) == Canonical(b) {
      TextInjective(Ordered(a), Ordered(b));
      OrderedAgree(a, b);
    }
    if Agree(Plain, a, b) {
      AgreeingOrdered(a, b);
    }
  }

  // ---- The normalisers erase ----

  /** The value without the members that its scope erases. */
  function Erase(scope: Scope, j: Json): Json
    decreases j
  {
    match j
    case Obj(members) => Obj(EraseMembers(scope, members))
    case Arr(items) => Arr(seq(|items|, i requires 0 <= i < |items| => Erase(ItemScope(scope), items[i])))
    case other => other
  }

  function EraseMembers(scope: Scope, members: seq<Member>): seq<Member>
    decreases members
  {
    if members == [] then []
    else
      var inside := Inside(scope, members[0].key);
      (if inside.None? then [] else [Member(members[0].key, Erase(inside.value, members[0].value))]) + EraseMembers(scope, members[1..])
  }

  lemma {:induction false} ErasedMember(scope: Scope, members: seq<Member>, e: Member)
    ensures e in EraseMembers(scope, members) <==>
      exists m :: m in members && Inside(scope, m.key).Some? && e == Member(m.key, Erase(Inside(scope, m.key).value, m.value))
  {
    hide Erase, Inside;
    if members != [] {
      ErasedMember(scope, members[1..], e);
      assert members == [members[0]] + members[1..];
    }
  }

  lemma {:induction false} PlainErasesNothing(j: Json)
    ensures Erase(Plain, j) == j
    decreases j, 0
  {
    match j
    case Obj(members) => PlainErasesNoMember(members);
    case Arr(items) =>
      forall i | 0 <= i < |items|
        ensures Erase(Plain, items[i]) == items[i]
      {
        PlainErasesNothing(items[i]);
      }
    case _ =>
  }

  lemma {:induction false} PlainErasesNoMember(members: seq<Member>)
    ensures EraseMembers(Plain, members) == members
    decreases members, 1
  {
    if members != [] {
      PlainErasesNothing(members[0].value);
      PlainErasesNoMember(members[1..]);
    }
  }

  lemma {:induction false} ValuesErase(j: Json)
    ensures NormalizeValues(j) == Erase(Values, j)
    decreases j, 0
  {
    match j
    case Obj(members) => ValueMembersErase(members);
    case Arr(items) =>
      forall i | 0 <= i < |items|
        ensures NormalizeValues(items[i]) == Erase(Values, items[i])
      {
        ValuesErase(items[i]);
      }
    case _ =>
  }

  lemma {:induction false} ValueMembersErase(members: seq<Member>)
    ensures NormalizeValueMembers(members) == EraseMembers(Values, members)
    decreases members, 1
  {
    if members != [] {
      ValuesErase(members[0].value);
      ValueMembersErase(members[1..]);
    }
  }

  lemma {:induction false} ArtifactRefErases(j: Json)
    ensures NormalizeArtifactRef(j) == Erase(ArtifactRef, j)
  {
    if j.Obj? {
      WithoutUriErases(j.members);
    } else {
      PlainErasesNothing(j);
    }
  }

  lemma {:induction false} WithoutUriErases(members: seq<Member>)
    ensures WithoutUri(members) == EraseMembers(ArtifactRef, members)
  {
    if members != [] {
      PlainErasesNothing(members[0].value);
      WithoutUriErases(members[1..]);
    }
  }

  /** Where nothing is erased, erasing rewrites members one by one. */
  lemma {:induction false} ErasesInPlace(scope: Scope, members: seq<Member>)
    requires forall m :: m in members ==> Inside(scope, m.key).Some?
    ensures |EraseMembers(scope, members)| == |members|
    ensures forall i :: 0 <= i < |members| ==>
      EraseMembers(scope, members)[i] == Member(members[i].key, Erase(Inside(scope, members[i].key).value, members[i].value))
  {
    hide Erase, Inside;
    if members != [] {
      assert members[0] in members;
      ErasesInPlace(scope, members[1..]);
    }
  }

  lemma ArtifactsErase(j: Json)
    ensures NormalizeArtifacts(j) == Erase(Artifacts, j)
  {
    hide NormalizeArtifactRef;
    if j.Obj? {
      ErasesInPlace(Artifacts, j.members);
      forall i | 0 <= i < |j.members|
        ensures NormalizeArtifacts(j).members[i] == EraseMembers(Artifacts, j.members)[i]
      {
        ArtifactRefErases(j.members[i].value);
      }
      assert NormalizeArtifacts(j).members == EraseMembers(Artifacts, j.members);
    } else {
      PlainErasesNothing(j);
    }
  }

  /** The payload normaliser erases what its scopes say. */
  lemma PayloadErases(j: Json)
    ensures NormalizeDagIo(j) == Erase(Payload, j)
  {
    hide NormalizeValues, NormalizeArtifacts;
    if j.Obj? {
      ErasesInPlace(Payload, j.members);
      forall i | 0 <= i < |j.members|
        ensures NormalizeDagIo(j).members[i] == EraseMembers(Payload, j.members)[i]
      {
        ValuesErase(j.members[i].value);
        ArtifactsErase(j.members[i].value);
        PlainErasesNothing(j.members[i].value);
      }
      assert NormalizeDagIo(j).members == EraseMembers(Payload, j.members);
    } else {
      PlainErasesNothing(j);
    }
  }

  // ---- Erasing and agreement ----

  lemma ErasedKeys(scope: Scope, members: seq<Member>)
    ensures VisibleKeys(Plain, EraseMembers(scope, members)) == VisibleKeys(scope, members)
  {
    hide Erase, EraseMembers;
    forall k
      ensures k in VisibleKeys(Plain, EraseMembers(scope, members)) <==> k in VisibleKeys(scope, members)
    {
      if e :| e in EraseMembers(scope, members) && e.key == k {
        ErasedMember(scope, members, e);
      }
      if m :| m in members && Inside(scope, m.key).Some? && m.key == k {
        ErasedMember(scope, members, Member(m.key, Erase(Inside(scope, m.key).value, m.value)));
      }
    }
  }

  lemma {:induction false} AgreementSurvivesErasing(scope: Scope, a: Json, b: Json)
    requires Agree(scope, a, b)
    ensures Agree(Plain, Erase(scope, a), Erase(scope, b))
    decreases a
  {
    hide EraseMembers, VisibleKeys;
    if a.Obj? && b.Obj? {
      ErasedKeys(scope, a.members);
      ErasedKeys(scope, b.members);
      forall e, f | e in EraseMembers(scope, a.members) && f in EraseMembers(scope, b.members) && e.key == f.key
        ensures Agree(Plain, e.value, f.value)
      {
        ErasedMember(scope, a.members, e);
        ErasedMember(scope, b.members, f);
        var m :| m in a.members && Inside(scope, m.key).Some? && e == Member(m.key, Erase(Inside(scope, m.key).value, m.value));
        var n :| n in b.members && Inside(scope, n.key).Some? && f == Member(n.key, Erase(Inside(scope, n.key).value, n.value));
        AgreementSurvivesErasing(Inside(scope, m.key).value, m.value, n.value);
      }
    } else if a.Arr? && b.Arr? {
      forall i | 0 <= i < |a.items|
        ensures Agree(Plain, Erase(ItemScope(scope), a.items[i]), Erase(ItemScope(scope), b.items[i]))
      {
        AgreementSurvivesErasing(ItemScope(scope), a.items[i], b.items[i]);
      }
    }
  }

  lemma {:induction false} ErasedAgreementIsAgreement(scope: Scope, a: Json, b: Json)
    requires Agree(Plain, Erase(scope, a), Erase(scope, b))
    ensures Agree(scope, a, b)
    decreases a
  {
    hide EraseMembers, VisibleKeys;
    if a.Obj? && b.Obj? {
      ErasedKeys(scope, a.members);
      ErasedKeys(scope, b.members);
      forall m, n | m in a.members && n in b.members && m.key == n.key && Inside(scope, m.key).Some?
        ensures Agree(Inside(scope, m.key).value, m.value, n.value)
      {
        var inside := Inside(scope, m.key).value;
        ErasedMember(scope, a.members, Member(m.key, Erase(inside, m.value)));
        ErasedMember(scope, b.members, Member(n.key, Erase(inside, n.value)));
        ErasedAgreementIsAgreement(inside, m.value, n.value);
      }
    } else if a.Arr? && b.Arr? {
      assert |Erase(scope, a).items| == |a.items| && |Erase(scope, b).items| == |b.items|;
      forall i | 0 <= i < |a.items|
        ensures Agree(ItemScope(scope), a.items[i], b.items[i])
      {
        assert Erase(scope, a).items[i] == Erase(ItemScope(scope), a.items[i]);
        assert Erase(scope, b).items[i] == Erase(ItemScope(scope), b.items[i]);
        ErasedAgreementIsAgreement(ItemScope(scope), a.items[i], b.items[i]);
      }
    }
  }

  lemma {:induction false} ErasedDistinct(scope: Scope, members: seq<Member>)
    requires DistinctKeys(members)
    ensures DistinctKeys(EraseMembers(scope, members))
  {
    hide Erase, Inside;
    if members != [] {
      ErasedDistinct(scope, members[1..]);
      forall e | e in EraseMembers(scope, members[1..])
        ensures e.key != members[0].key
      {
        ErasedMember(scope, members[1..], e);
        var m :| m in members[1..] && m.key == e.key;
        assert m in members[1..];
      }
    }
  }

  lemma {:induction false} ErasedUnique(scope: Scope, j: Json)
    requires UniqueKeys(j)
    ensures UniqueKeys(Erase(scope, j))
    decreases j
  {
    hide EraseMembers;
    match j
    case Obj(members) =>
      ErasedDistinct(scope, members);
      forall e | e in EraseMembers(scope, members)
        ensures UniqueKeys(e.value)
      {
        ErasedMember(scope, members, e);
        var m :| m in members && Inside(scope, m.key).Some? && e == Member(m.key, Erase(Inside(scope, m.key).value, m.value));
        ErasedUnique(Inside(scope, m.key).value, m.value);
      }
    case Arr(items) =>
      forall i | 0 <= i < |items|
        ensures UniqueKeys(Erase(ItemScope(scope), items[i]))
      {
        ErasedUnique(ItemScope(scope), items[i]);
      }
    case _ =>
  }

  lemma {:induction false} EraseTwice(scope: Scope, j: Json)
    ensures Erase(scope, Erase(scope, j)) == Erase(scope, j)
    decreases j, 0
  {
    match j
    case Obj(members) => EraseMembersTwice(scope, members);
    case Arr(items) =>
      forall i | 0 <= i < |items|
        ensures Erase(ItemScope(scope), Erase(ItemScope(scope), items[i])) == Erase(ItemScope(scope), items[i])
      {
        EraseTwice(ItemScope(scope), items[i]);
      }
    case _ =>
  }

  lemma {:induction false} EraseMembersTwice(scope: Scope, members: seq<Member>)
    ensures EraseMembers(scope, EraseMembers(scope, members)) == EraseMembers(scope, members)
    decreases members, 1
  {
    hide Erase;
    if members != [] {
      var inside := Inside(scope, members[0].key);
      EraseMembersTwice(scope, members[1..]);
      if inside.Some? {
        EraseTwice(inside.value, members[0].value);
        var e := Member(members[0].key, Erase(inside.value, members[0].value));
        assert EraseMembers(scope, members) == [e] + EraseMembers(scope, members[1..]);
        assert ([e] + EraseMembers(scope, members[1..]))[1..] == EraseMembers(scope, members[1..]);
      } else {
        assert EraseMembers(scope, members) == EraseMembers(scope, members[1..]);
      }
    }
  }

  lemma {:induction false} AgreementWeakens(scope: Scope, a: Json, b: Json)
    requires Agree(Plain, a, b)
    ensures Agree(scope, a, b)
    decreases a
  {
    if a.Obj? && b.Obj? {
      assert VisibleKeys(scope, a.members) == set k | k in VisibleKeys(Plain, a.members) && Inside(scope, k).Some?;
      assert VisibleKeys(scope, b.members) == set k | k in VisibleKeys(Plain, b.members) && Inside(scope, k).Some?;
      forall m, n | m in a.members && n in b.members && m.key == n.key && Inside(scope, m.key).Some?
        ensures Agree(Inside(scope, m.key).value, m.value, n.value)
      {
        AgreementWeakens(Inside(scope, m.key).value, m.value, n.value);
      }
    } else if a.Arr? && b.Arr? {
      forall i | 0 <= i < |a.items|
        ensures Agree(ItemScope(scope), a.items[i], b.items[i])
      {
        AgreementWeakens(ItemScope(scope), a.items[i], b.items[i]);
      }
    }
  }

  // ---- Main results ----

  /** Normalised payloads have the same canonical text exactly when the payloads agree up to member order once
      runtime identities are erased at every depth of their values and locations from their artifacts. */
  lemma NormalizedTextDecidesAgreement(a: Json, b: Json)
    requires UniqueKeys(a) && UniqueKeys(b)
    ensures Canonical(NormalizeDagIo(a)) == Canonical(NormalizeDagIo(b)) <==> Agree(Payload, a, b)
  {
    hide NormalizeDagIo, Erase, Canonical, Agree, UniqueKeys;
    PayloadErases(a);
    PayloadErases(b);
    ErasedUnique(Payload, a);
    ErasedUnique(Payload, b);
    CanonicalEqualsAgreement(Erase(Payload, a), Erase(Payload, b));
    if Agree(Payload, a, b) {
      AgreementSurvivesErasing(Payload, a, b);
    }
    if Agree(Plain, Erase(Payload, a), Erase(Payload, b)) {
      ErasedAgreementIsAgreement(Payload, a, b);
    }
  }

  lemma NormalizingTwice(j: Json)
    ensures NormalizeDagIo(NormalizeDagIo(j)) == NormalizeDagIo(j)
  {
    hide NormalizeDagIo, Erase;
    PayloadErases(j);
    PayloadErases(NormalizeDagIo(j));
    EraseTwice(Payload, j);
  }

  /** Payloads with the same raw canonical text have the same normalised one. */
  lemma RawEqualityNormalizes(a: Json, b: Json)
    requires UniqueKeys(a) && UniqueKeys(b) && Canonical(a) == Canonical(b)
    ensures Canonical(NormalizeDagIo(a)) == Canonical(NormalizeDagIo(b))
  {
    hide NormalizeDagIo, Canonical, Agree, UniqueKeys;
    CanonicalEqualsAgreement(a, b);
    AgreementWeakens(Payload, a, b);
    NormalizedTextDecidesAgreement(a, b);
  }

  lemma OneMemberAgrees(scope: Scope, key: string, x: Json, y: Json)
    ensures Agree(scope, Obj([Member(key, x)]), Obj([Member(key, y)])) <==>
      match Inside(scope, key) case None => true case Some(inner) => Agree(inner, x, y)
  {
    var a, b := Obj([Member(key, x)]), Obj([Member(key, y)]);
    assert a.members[0] in a.members && b.members[0] in b.members;
    assert VisibleKeys(scope, a.members) == VisibleKeys(scope, b.members) by {
      assert forall k :: k in VisibleKeys(scope, a.members) <==> k == key && Inside(scope, key).Some?;
      assert forall k :: k in VisibleKeys(scope, b.members) <==> k == key && Inside(scope, key).Some?;
    }
  }

  /** Which keys normalisation ignores: the runtime identities among values, the location of an artifact, and no other. */
  lemma IgnoredKeys(key: string, name: string, x: Json, y: Json)
    ensures Agree(Payload, Obj([Member("values", Obj([Member(key, x)]))]), Obj([Member("values", Obj([Member(key, y)]))])) <==>
      || key == "adapter_idempotency_key" || key == "app_run_id" || key == "app_run_log_path"
      || key == "dag_run_id" || key == "lease_id" || key == "loop_continue"
      || Agree(Values, x, y)
    ensures Agree(Payload, Obj([Member("artifacts", Obj([Member(name, Obj([Member(key, x)]))]))]),
                           Obj([Member("artifacts", Obj([Member(name, Obj([Member(key, y)]))]))])) <==>
      key == "uri" || Agree(Plain, x, y)
    ensures key != "values" && key != "artifacts" ==>
      (Agree(Payload, Obj([Member(key, x)]), Obj([Member(key, y)])) <==> Agree(Plain, x, y))
  {
    hide Agree;
    OneMemberAgrees(Payload, "values", Obj([Member(key, x)]), Obj([Member(key, y)]));
    OneMemberAgrees(Values, key, x, y);
    assert |"values"| == 6 && |"artifacts"| == 9;
    OneMemberAgrees(Payload, "artifacts", Obj([Member(name, Obj([Member(key, x)]))]), Obj([Member(name, Obj([Member(key, y)]))]));
    OneMemberAgrees(Artifacts, name, Obj([Member(key, x)]), Obj([Member(key, y)]));
    OneMemberAgrees(ArtifactRef, key, x, y);
    OneMemberAgrees(Payload, key, x, y);
  }
}
