/** Tool contracts: the JSON-schema subset checked at node boundaries, and what its keywords mean. */
module ContractSchema {
  import opened Results
  import opened Json
  import opened Normalise
  import opened Doubles

  datatype Step = Field(name: string) | Index(i: nat)

  /** Where a value was rejected, and by which keyword of the schema there. */
  datatype Fault = Fault(path: seq<Step>, keyword: string)

  type Verdict = Option<Fault>

  function Get(j: Json, key: string): (r: Option<Json>)
    requires j.Obj?
    ensures r.Some? <==> exists m :: m in j.members && m.key == key
    ensures r.Some? ==> Member(key, r.value) in j.members && r.value < j
  {
    match Find(j.members, key, 0)
    case None => None
    case Some(i) => assert j.members[i] in j.members; Some(j.members[i].value)
  }

  // ---- Keywords that look at the value alone ----

  const TYPES := {"object", "array", "string", "number", "integer", "boolean", "null"}

  /** Integers are those that fit 64 bits, signed or unsigned. */
  predicate TypeMatches(name: string, v: Json) {
    || (name == "object" && v.Obj?) || (name == "array" && v.Arr?) || (name == "string" && v.Str?)
    || (name == "number" && v.Num?)
    || (name == "integer" && v.Num? && -0x8000_0000_0000_0000 <= v.n < 0x1_0000_0000_0000_0000)
    || (name == "boolean" && v.Bool?) || (name == "null" && v.Null?)
  }

  /** The type names a `type` keyword lists, unless it is malformed. */
  function TypeNames(k: Json): Option<seq<string>> {
    match k
    case Str(s) => Some([s])
    case Arr(items) =>
      if forall i :: 0 <= i < |items| ==> items[i].Str? then
        Some(seq(|items|, i requires 0 <= i < |items| && items[i].Str? => items[i].s))
      else None
    case _ => None
  }

  predicate IsCount(k: Json) {
    k.Num? && 0 <= k.n < 0x1_0000_0000_0000_0000
  }

  function SomeMatches(names: seq<string>, v: Json): bool {
    names != [] && (TypeMatches(names[0], v) || SomeMatches(names[1..], v))
  }

  function AllSupported(names: seq<string>): bool {
    names == [] || (names[0] in TYPES && AllSupported(names[1..]))
  }

  /** Equality of JSON values, in which member order does not count. */
  predicate SameJson(a: Json, b: Json) {
    Agree(Plain, a, b)
  }

  predicate OneOf(allowed: seq<Json>, v: Json) {
    allowed != [] && (SameJson(allowed[0], v) || OneOf(allowed[1..], v))
  }

  /** Every required field is a string that names a member; nothing is asked of other values. */
  predicate HasRequired(fields: seq<Json>, v: Json)
    requires v.Obj?
  {
    fields == [] || (fields[0].Str? && Get(v, fields[0].s).Some? && HasRequired(fields[1..], v))
  }

  /** Whether the check of one keyword lets the value pass; bounds are compared as doubles, and a malformed keyword lets nothing pass. */
  predicate Passes(keyword: string, k: Json, v: Json) {
    match keyword
    case "type" => TypeNames(k).Some? && TypeNames(k).value != [] && AllSupported(TypeNames(k).value) && SomeMatches(TypeNames(k).value, v)
    case "enum" => k.Arr? && k.items != [] && OneOf(k.items, v)
    case "minimum" => k.Num? && !(v.Num? && Double(v.n) < Double(k.n))
    case "maximum" => k.Num? && !(v.Num? && Double(v.n) > Double(k.n))
    case "minItems" => IsCount(k) && !(v.Arr? && |v.items| < k.n)
    case "maxItems" => IsCount(k) && !(v.Arr? && |v.items| > k.n)
    case "minLength" => IsCount(k) && !(v.Str? && |v.s| < k.n)
    case "maxLength" => IsCount(k) && !(v.Str? && |v.s| > k.n)
    case "required" => k.Arr? && (v.Obj? ==> HasRequired(k.items, v))
    case _ => true
  }

  const PLAIN_KEYWORDS := ["type", "enum", "minimum", "maximum", "minItems", "maxItems", "minLength", "maxLength", "required"]

  function CheckPlain(keywords: seq<string>, schema: Json, v: Json, path: seq<Step>): Verdict
    requires schema.Obj?
  {
    if keywords == [] then None
    else
      var k := Get(schema, keywords[0]);
      if k.Some? && !Passes(keywords[0], k.value, v) then Some(Fault(path, keywords[0]))
      else CheckPlain(keywords[1..], schema, v, path)
  }

  // ---- Keywords that look inside ----

  function Check(schema: Json, v: Json, path: seq<Step>): Verdict
    decreases schema, 2
  {
    if !schema.Obj? then Some(Fault(path, "schema"))
    else
      var plain := CheckPlain(PLAIN_KEYWORDS, schema, v, path);
      if plain.Some? then plain
      else
        var properties := CheckProperties(schema, v, path);
        if properties.Some? then properties
        else
          var items := CheckItems(schema, v, path);
          if items.Some? then items else CheckAdditional(schema, v, path)
  }

  function CheckProperties(schema: Json, v: Json, path: seq<Step>): Verdict
    requires schema.Obj?
    decreases schema, 1
  {
    var k := Get(schema, "properties");
    if k.None? then None
    else if !k.value.Obj? then Some(Fault(path, "properties"))
    else if !v.Obj? then None
    else CheckFields(k.value.members, v, path)
  }

  function CheckFields(properties: seq<Member>, v: Json, path: seq<Step>): Verdict
    requires v.Obj?
    decreases properties, 0
  {
    if properties == [] then None
    else
      var field := Get(v, properties[0].key);
      var fault := if field.Some? then Check(properties[0].value, field.value, path + [Field(properties[0].key)]) else None;
      if fault.Some? then fault else CheckFields(properties[1..], v, path)
  }

  function CheckItems(schema: Json, v: Json, path: seq<Step>): Verdict
    requires schema.Obj?
    decreases schema, 1
  {
    var k := Get(schema, "items");
    if k.None? then None
    else if !k.value.Obj? then Some(Fault(path, "items"))
    else if !v.Arr? then None
    else CheckFrom(k.value, v.items, 0, path)
  }

  function CheckFrom(schema: Json, items: seq<Json>, i: nat, path: seq<Step>): Verdict
    requires i <= |items|
    decreases schema, 3, |items| - i
  {
    if i == |items| then None
    else
      var fault := Check(schema, items[i], path + [Index(i)]);
      if fault.Some? then fault else CheckFrom(schema, items, i + 1, path)
  }

  function DeclaredFields(schema: Json): (fields: set<string>)
    requires schema.Obj?
    ensures forall f :: f in fields <==>
      var k := Get(schema, "properties");
      k.Some? && k.value.Obj? && exists m :: m in k.value.members && m.key == f
  {
    var k := Get(schema, "properties");
    if k.Some? && k.value.Obj? then set m | m in k.value.members :: m.key else {}
  }

  function CheckAdditional(schema: Json, v: Json, path: seq<Step>): Verdict
    requires schema.Obj?
  {
    var k := Get(schema, "additionalProperties");
    if k.None? then None
    else if !k.value.Bool? then Some(Fault(path, "additionalProperties"))
    else if k.value.b || !v.Obj? then None
    else if exists m :: m in v.members && m.key !in DeclaredFields(schema) then Some(Fault(path, "additionalProperties"))
    else None
  }

  // ---- Meaning ----

  /** How a bound compares numbers: as the integers they are, or as the doubles the check reads them as. */
  datatype Reading = Exactly | AsDoubles

  ghost predicate AtMost(reading: Reading, a: int, b: int) {
    match reading
    case Exactly => a <= b
    case AsDoubles => Double(a) <= Double(b)
  }

  /** What a present keyword of a well-formed schema asks of a value. */
  ghost predicate Means(reading: Reading, keyword: string, k: Json, schema: Json, v: Json)
    requires schema.Obj? && Member(keyword, k) in schema.members
    decreases schema, 0
  {
    match keyword
    case "type" => TypeNames(k).Some? && exists name :: name in TypeNames(k).value && TypeMatches(name, v)
    case "enum" => k.Arr? && exists allowed :: allowed in k.items && Agree(Plain, allowed, v)
    case "minimum" => k.Num? && v.Num? ==> AtMost(reading, k.n, v.n)
    case "maximum" => k.Num? && v.Num? ==> AtMost(reading, v.n, k.n)
    case "minItems" => k.Num? && v.Arr? ==> k.n <= |v.items|
    case "maxItems" => k.Num? && v.Arr? ==> |v.items| <= k.n
    case "minLength" => k.Num? && v.Str? ==> k.n <= |v.s|
    case "maxLength" => k.Num? && v.Str? ==> |v.s| <= k.n
    case "required" => k.Arr? && v.Obj? ==> forall f :: f in k.items && f.Str? ==> exists m :: m in v.members && m.key == f.s
    case "properties" => k.Obj? && v.Obj? ==> forall p, m :: p in k.members && m in v.members && p.key == m.key ==> Meets(reading, p.value, m.value)
    case "items" => k.Obj? && v.Arr? ==> forall i :: 0 <= i < |v.items| ==> Meets(reading, k, v.items[i])
    case "additionalProperties" => k == Bool(false) && v.Obj? ==> forall m :: m in v.members ==> m.key in DeclaredFields(schema)
    case _ => true
  }

  /** The value has everything the schema's keywords ask for, at every depth. */
  ghost predicate Meets(reading: Reading, schema: Json, v: Json)
    decreases schema, 1
  {
    schema.Obj? && forall m :: m in schema.members ==> Means(reading, m.key, m.value, schema, v)
  }

  ghost predicate WellFormedKeyword(keyword: string, k: Json)
    decreases k, 0
  {
    match keyword
    case "type" => TypeNames(k).Some? && TypeNames(k).value != [] && forall name :: name in TypeNames(k).value ==> name in TYPES
    case "enum" => k.Arr? && k.items != []
    case "minimum" => k.Num?
    case "maximum" => k.Num?
    case "minItems" => k.Num? && 0 <= k.n <= 0xFFFF_FFFF_FFFF_FFFF
    case "maxItems" => k.Num? && 0 <= k.n <= 0xFFFF_FFFF_FFFF_FFFF
    case "minLength" => k.Num? && 0 <= k.n <= 0xFFFF_FFFF_FFFF_FFFF
    case "maxLength" => k.Num? && 0 <= k.n <= 0xFFFF_FFFF_FFFF_FFFF
    case "required" => k.Arr? && forall f :: f in k.items ==> f.Str?
    case "properties" => k.Obj? && forall p :: p in k.members ==> WellFormed(p.value)
    case "items" => k.Obj? && forall m :: m in k.members ==> WellFormedKeyword(m.key, m.value)
    case "additionalProperties" => k.Bool?
    case _ => true
  }

  /** A schema whose keywords are well formed at every depth. */
  ghost predicate WellFormed(schema: Json)
    decreases schema, 1
  {
    schema.Obj? && forall m :: m in schema.members ==> WellFormedKeyword(m.key, m.value)
  }

  // ---- The check decides the meaning ----

  lemma {:induction false} SomeMatchesMeans(names: seq<string>, v: Json)
    ensures SomeMatches(names, v) <==> exists name :: name in names && TypeMatches(name, v)
  {
    if names != [] {
      SomeMatchesMeans(names[1..], v);
      assert names == [names[0]] + names[1..];
    }
  }

  lemma {:induction false} AllSupportedMeans(names: seq<string>)
    ensures AllSupported(names) <==> forall name :: name in names ==> name in TYPES
  {
    if names != [] {
      AllSupportedMeans(names[1..]);
      assert names == [names[0]] + names[1..];
    }
  }

  lemma {:induction false} OneOfMeans(allowed: seq<Json>, v: Json)
    ensures OneOf(allowed, v) <==> exists a :: a in allowed && SameJson(a, v)
  {
    hide SameJson;
    if allowed != [] {
      OneOfMeans(allowed[1..], v);
      assert forall a :: a in allowed <==> a == allowed[0] || a in allowed[1..];
    }
  }

  lemma {:induction false} HasRequiredMeans(fields: seq<Json>, v: Json)
    requires v.Obj? && forall f :: f in fields ==> f.Str?
    ensures HasRequired(fields, v) <==> forall f :: f in fields ==> exists m :: m in v.members && m.key == f.s
  {
    if fields != [] {
      assert fields[0] in fields && forall f :: f in fields[1..] ==> f in fields;
      HasRequiredMeans(fields[1..], v);
      assert fields == [fields[0]] + fields[1..];
    }
  }

  predicate Recursive(keyword: string) {
    keyword in {"properties", "items", "additionalProperties"}
  }

  lemma PlainKeywordMeans(keyword: string, k: Json, schema: Json, v: Json)
    requires schema.Obj? && Member(keyword, k) in schema.members && WellFormedKeyword(keyword, k) && !Recursive(keyword)
    ensures Passes(keyword, k, v) <==> Means(AsDoubles, keyword, k, schema, v)
  {
    hide TypeMatches, SomeMatches, AllSupported, OneOf, HasRequired;
    if keyword == "type" {
      SomeMatchesMeans(TypeNames(k).value, v);
      AllSupportedMeans(TypeNames(k).value);
    } else if keyword == "enum" {
      OneOfMeans(k.items, v);
    } else if keyword == "required" && v.Obj? {
      HasRequiredMeans(k.items, v);
    }
  }

  lemma GetUnique(j: Json, key: string, value: Json)
    requires j.Obj? && UniqueKeys(j) && Member(key, value) in j.members
    ensures Get(j, key) == Some(value)
  {
    assert Get(j, key).Some?;
    var m := Member(key, Get(j, key).value);
    var i :| 0 <= i < |j.members| && j.members[i] == m;
    var n :| 0 <= n < |j.members| && j.members[n] == Member(key, value);
    assert i == n;
  }

  lemma {:induction false} CheckPlainMeans(keywords: seq<string>, schema: Json, v: Json, path: seq<Step>)
    requires schema.Obj? && UniqueKeys(schema)
    ensures CheckPlain(keywords, schema, v, path).None? <==>
      forall m :: m in schema.members && m.key in keywords ==> Passes(m.key, m.value, v)
  {
    hide Passes, UniqueKeys;
    if keywords != [] {
      CheckPlainMeans(keywords[1..], schema, v, path);
      assert forall key :: key in keywords <==> key == keywords[0] || key in keywords[1..];
      forall m | m in schema.members
        ensures Get(schema, m.key) == Some(m.value)
      {
        GetUnique(schema, m.key, m.value);
      }
    }
  }

  /** Validation of a value by a well-formed schema accepts exactly the values that meet it, bounds read as doubles. */
  lemma {:induction false} CheckDecidesMeaning(schema: Json, v: Json, path: seq<Step>)
    requires WellFormed(schema) && UniqueKeys(schema) && UniqueKeys(v)
    ensures Check(schema, v, path).None? <==> Meets(AsDoubles, schema, v)
    decreases schema, 2
  {
    hide Means, Passes, UniqueKeys, CheckPlain, CheckProperties, CheckItems, CheckAdditional, WellFormedKeyword;
    PlainDecides(schema, v, path);
    PropertiesDecide(schema, v, path);
    ItemsDecide(schema, v, path);
    AdditionalDecides(schema, v, path);
    KeywordsSplit(schema, v);
  }

  ghost predicate MeansKeyword(keyword: string, schema: Json, v: Json)
    requires schema.Obj?
  {
    forall m :: m in schema.members && m.key == keyword ==> Means(AsDoubles, keyword, m.value, schema, v)
  }

  ghost predicate MeansPlain(schema: Json, v: Json)
    requires schema.Obj?
  {
    forall m :: m in schema.members && !Recursive(m.key) ==> Means(AsDoubles, m.key, m.value, schema, v)
  }

  lemma KeywordsSplit(schema: Json, v: Json)
    requires schema.Obj?
    ensures Meets(AsDoubles, schema, v) <==>
      && MeansPlain(schema, v) && MeansKeyword("properties", schema, v)
      && MeansKeyword("items", schema, v) && MeansKeyword("additionalProperties", schema, v)
  {
    hide Means;
  }

  lemma PlainDecides(schema: Json, v: Json, path: seq<Step>)
    requires WellFormed(schema) && UniqueKeys(schema)
    ensures CheckPlain(PLAIN_KEYWORDS, schema, v, path).None? <==> MeansPlain(schema, v)
  {
    hide Passes, Means, UniqueKeys, WellFormedKeyword, CheckPlain;
    CheckPlainMeans(PLAIN_KEYWORDS, schema, v, path);
    forall m | m in schema.members && !Recursive(m.key)
      ensures Passes(m.key, m.value, v) <==> Means(AsDoubles, m.key, m.value, schema, v)
      ensures m.key !in PLAIN_KEYWORDS ==> Passes(m.key, m.value, v)
    {
      PlainKeywordMeans(m.key, m.value, schema, v);
      OtherKeywordsPass(m.key, m.value, v);
    }
    assert forall key :: key in PLAIN_KEYWORDS ==> !Recursive(key);
  }

  lemma OtherKeywordsPass(keyword: string, k: Json, v: Json)
    ensures keyword !in PLAIN_KEYWORDS ==> Passes(keyword, k, v)
  {
    hide TypeMatches, SomeMatches, AllSupported, OneOf, HasRequired, TypeNames;
    var p := PLAIN_KEYWORDS;
    assert p[0] == "type" && p[1] == "enum" && p[2] == "minimum" && p[3] == "maximum" && p[4] == "minItems";
    assert p[5] == "maxItems" && p[6] == "minLength" && p[7] == "maxLength" && p[8] == "required";
  }

  lemma PropertiesDecide(schema: Json, v: Json, path: seq<Step>)
    requires WellFormed(schema) && UniqueKeys(schema) && UniqueKeys(v)
    ensures CheckProperties(schema, v, path).None? <==> MeansKeyword("properties", schema, v)
    decreases schema, 1
  {
    hide Get, Check, Meets, CheckFields;
    var k := Get(schema, "properties");
    if k.Some? {
      assert WellFormedKeyword("properties", k.value);
      forall m | m in schema.members && m.key == "properties"
        ensures m.value == k.value
      {
        GetUnique(schema, "properties", m.value);
      }
      if v.Obj? {
        MemberUnique(schema, "properties", k.value);
        FieldsDecide(k.value.members, v, path);
      }
    }
  }

  lemma MemberUnique(j: Json, key: string, value: Json)
    requires j.Obj? && UniqueKeys(j) && Member(key, value) in j.members
    ensures UniqueKeys(value)
  {
  }

  lemma {:induction false} FieldsDecide(properties: seq<Member>, v: Json, path: seq<Step>)
    requires v.Obj? && UniqueKeys(v) && forall p :: p in properties ==> WellFormed(p.value) && UniqueKeys(p.value)
    ensures CheckFields(properties, v, path).None? <==>
      forall p, m :: p in properties && m in v.members && p.key == m.key ==> Meets(AsDoubles, p.value, m.value)
    decreases properties, 0
  {
    hide Get, Check, Meets, WellFormed, UniqueKeys;
    if properties != [] {
      var p := properties[0];
      assert forall q :: q in properties <==> q == p || q in properties[1..];
      FieldsDecide(properties[1..], v, path);
      var field := Get(v, p.key);
      forall m | m in v.members && m.key == p.key
        ensures field == Some(m.value)
      {
        GetUnique(v, p.key, m.value);
      }
      if field.Some? {
        MemberUnique(v, p.key, field.value);
        CheckDecidesMeaning(p.value, field.value, path + [Field(p.key)]);
      }
    }
  }

  lemma ItemsDecide(schema: Json, v: Json, path: seq<Step>)
    requires WellFormed(schema) && UniqueKeys(schema) && UniqueKeys(v)
    ensures CheckItems(schema, v, path).None? <==> MeansKeyword("items", schema, v)
    decreases schema, 1
  {
    hide Get, Check, Meets, CheckFrom;
    var k := Get(schema, "items");
    if k.Some? {
      assert WellFormedKeyword("items", k.value);
      forall m | m in schema.members && m.key == "items"
        ensures m.value == k.value
      {
        GetUnique(schema, "items", m.value);
      }
      if v.Arr? {
        MemberUnique(schema, "items", k.value);
        FromDecides(k.value, v.items, 0, path);
      }
    }
  }

  lemma {:induction false} FromDecides(schema: Json, items: seq<Json>, i: nat, path: seq<Step>)
    requires WellFormed(schema) && UniqueKeys(schema) && i <= |items| && forall j :: 0 <= j < |items| ==> UniqueKeys(items[j])
    ensures CheckFrom(schema, items, i, path).None? <==> forall j :: i <= j < |items| ==> Meets(AsDoubles, schema, items[j])
    decreases schema, 3, |items| - i
  {
    hide Check, Meets, WellFormed, UniqueKeys;
    if i < |items| {
      CheckDecidesMeaning(schema, items[i], path + [Index(i)]);
      FromDecides(schema, items, i + 1, path);
    }
  }

  lemma AdditionalDecides(schema: Json, v: Json, path: seq<Step>)
    requires WellFormed(schema) && UniqueKeys(schema)
    ensures CheckAdditional(schema, v, path).None? <==> MeansKeyword("additionalProperties", schema, v)
  {
    hide Get, DeclaredFields;
    var k := Get(schema, "additionalProperties");
    if k.Some? {
      assert WellFormedKeyword("additionalProperties", k.value);
      forall m | m in schema.members && m.key == "additionalProperties"
        ensures m.value == k.value
      {
        GetUnique(schema, "additionalProperties", m.value);
      }
    }
  }

  lemma TypeMeans(name: string, v: Json)
    ensures Meets(AsDoubles, Obj([Member("type", Str(name))]), v) <==> TypeMatches(name, v)
    ensures name in TYPES ==> WellFormed(Obj([Member("type", Str(name))]))
    ensures UniqueKeys(Obj([Member("type", Str(name))]))
  {
    hide TypeMatches;
    var schema := Obj([Member("type", Str(name))]);
    assert schema.members[0] in schema.members;
    assert TypeNames(Str(name)) == Some([name]);
    assert name in [name];
    assert Means(AsDoubles, "type", Str(name), schema, v) <==> TypeMatches(name, v);
    assert name in TYPES ==> WellFormedKeyword("type", Str(name));
  }

  /** Which values a schema of one type accepts; an integer is one of 64 bits, signed or unsigned. */
  lemma OneTypeAccepts(name: string, v: Json, path: seq<Step>)
    requires name in {"object", "array", "string", "number", "integer", "boolean", "null"} && UniqueKeys(v)
    ensures Check(Obj([Member("type", Str(name))]), v, path).None? <==>
      || (name == "object" && v.Obj?) || (name == "array" && v.Arr?) || (name == "string" && v.Str?) || (name == "number" && v.Num?)
      || (name == "boolean" && v.Bool?) || (name == "null" && v.Null?)
      || (name == "integer" && v.Num? && -0x8000_0000_0000_0000 <= v.n <= 0xFFFF_FFFF_FFFF_FFFF)
  {
    hide Check, Meets, UniqueKeys, WellFormed;
    TypeMeans(name, v);
    CheckDecidesMeaning(Obj([Member("type", Str(name))]), v, path);
  }

  // ---- Malformed schemas ----

  lemma {:induction false} FailingKeywordRejects(keywords: seq<string>, schema: Json, v: Json, path: seq<Step>, keyword: string)
    requires schema.Obj? && keyword in keywords && Get(schema, keyword).Some? && !Passes(keyword, Get(schema, keyword).value, v)
    ensures CheckPlain(keywords, schema, v, path).Some?
  {
    hide Passes, Get;
    if keywords[0] != keyword {
      FailingKeywordRejects(keywords[1..], schema, v, path, keyword);
    }
  }

  /** The keyword is malformed where the check looks: of a list of required fields only an object's are looked at. */
  ghost predicate Malformed(keyword: string, k: Json, v: Json) {
    !WellFormedKeyword(keyword, k) && (keyword == "required" && k.Arr? ==> v.Obj?)
  }

  lemma MalformedNeverPasses(keyword: string, k: Json, v: Json)
    requires keyword in PLAIN_KEYWORDS && Malformed(keyword, k, v)
    ensures !Passes(keyword, k, v)
  {
    hide SomeMatches, OneOf;
    if keyword == "type" && TypeNames(k).Some? {
      AllSupportedMeans(TypeNames(k).value);
    } else if keyword == "required" && k.Arr? && HasRequired(k.items, v) {
      RequiredAreStrings(k.items, v);
    }
  }

  lemma {:induction false} RequiredAreStrings(fields: seq<Json>, v: Json)
    requires v.Obj? && HasRequired(fields, v)
    ensures forall f :: f in fields ==> f.Str?
  {
    if fields != [] {
      RequiredAreStrings(fields[1..], v);
      assert fields == [fields[0]] + fields[1..];
    }
  }

  /** A schema whose own keywords are malformed accepts nothing, whatever the value: a schema that is no object, a
      malformed keyword (of a list of required fields only the fields of an object are looked at), properties or items
      that are no object, or an additional-properties flag that is no boolean. */
  lemma MalformedAcceptsNothing(schema: Json, v: Json, path: seq<Step>)
    ensures !schema.Obj? ==> Check(schema, v, path).Some?
    ensures forall keyword ::
      (schema.Obj? && keyword in PLAIN_KEYWORDS && Get(schema, keyword).Some? && Malformed(keyword, Get(schema, keyword).value, v)) ==>
        Check(schema, v, path).Some?
    ensures schema.Obj? && Get(schema, "properties").Some? && !Get(schema, "properties").value.Obj? ==> Check(schema, v, path).Some?
    ensures schema.Obj? && Get(schema, "items").Some? && !Get(schema, "items").value.Obj? ==> Check(schema, v, path).Some?
    ensures schema.Obj? && Get(schema, "additionalProperties").Some? && !Get(schema, "additionalProperties").value.Bool? ==>
      Check(schema, v, path).Some?
  {
    hide Passes, Get, CheckPlain, CheckFields, CheckFrom, Malformed;
    if schema.Obj? {
      forall keyword | keyword in PLAIN_KEYWORDS && Get(schema, keyword).Some?
        && Malformed(keyword, Get(schema, keyword).value, v)
        ensures CheckPlain(PLAIN_KEYWORDS, schema, v, path).Some?
      {
        MalformedNeverPasses(keyword, Get(schema, keyword).value, v);
        FailingKeywordRejects(PLAIN_KEYWORDS, schema, v, path, keyword);
      }
    }
  }

  /** The keywords whose malformed use is told by the value alone, and what well formed means for each. */
  lemma WellFormedMeans(k: Json)
    ensures WellFormedKeyword("type", k) <==>
      || (k.Str? && k.s in TYPES)
      || (k.Arr? && k.items != [] && forall i :: 0 <= i < |k.items| ==> k.items[i].Str? && k.items[i].s in TYPES)
    ensures TYPES == {"object", "array", "string", "number", "integer", "boolean", "null"}
  {
    if k.Arr? && forall i :: 0 <= i < |k.items| ==> k.items[i].Str? {
      var names := TypeNames(k).value;
      assert forall i :: 0 <= i < |names| ==> names[i] == k.items[i].s && names[i] in names;
    }
  }

  // ---- Bounds read as doubles ----

  ghost predicate SharpKeyword(keyword: string, k: Json)
    decreases k, 0
  {
    match keyword
    case "minimum" => k.Num? ==> SharpFromBelow(k.n)
    case "maximum" => k.Num? ==> SharpFromAbove(k.n)
    case "properties" => k.Obj? ==> forall p :: p in k.members ==> Sharp(p.value)
    case "items" => k.Obj? ==> forall m :: m in k.members ==> SharpKeyword(m.key, m.value)
    case _ => true
  }

  /** Every bound of the schema, at every depth, reads unlike the integer beyond it. */
  ghost predicate Sharp(schema: Json)
    decreases schema, 1
  {
    schema.Obj? ==> forall m :: m in schema.members ==> SharpKeyword(m.key, m.value)
  }

  lemma BoundReadings(k: int, v: int)
    ensures k <= v ==> Double(k) <= Double(v)
    ensures SharpFromBelow(k) && Double(k) <= Double(v) ==> k <= v
    ensures SharpFromAbove(v) && Double(k) <= Double(v) ==> k <= v
  {
    hide Double;
    LowerBoundExactly(k);
    UpperBoundExactly(v);
    if k <= v { DoubleOrder(k, v); }
  }

  lemma KeywordReadings(keyword: string, k: Json, schema: Json, v: Json)
    requires schema.Obj? && Member(keyword, k) in schema.members
    ensures Means(Exactly, keyword, k, schema, v) ==> Means(AsDoubles, keyword, k, schema, v)
    ensures SharpKeyword(keyword, k) && Means(AsDoubles, keyword, k, schema, v) ==> Means(Exactly, keyword, k, schema, v)
    decreases schema, 0
  {
    hide Double, SharpFromBelow, SharpFromAbove, Meets;
    if keyword in {"minimum", "maximum"} && k.Num? && v.Num? {
      BoundReadings(k.n, v.n);
      BoundReadings(v.n, k.n);
    } else if keyword == "properties" && k.Obj? && v.Obj? {
      forall p, m | p in k.members && m in v.members
        ensures Meets(Exactly, p.value, m.value) ==> Meets(AsDoubles, p.value, m.value)
        ensures Sharp(p.value) && Meets(AsDoubles, p.value, m.value) ==> Meets(Exactly, p.value, m.value)
      {
        ReadingsAgree(p.value, m.value);
      }
    } else if keyword == "items" && k.Obj? && v.Arr? {
      forall i | 0 <= i < |v.items|
        ensures Meets(Exactly, k, v.items[i]) ==> Meets(AsDoubles, k, v.items[i])
        ensures Sharp(k) && Meets(AsDoubles, k, v.items[i]) ==> Meets(Exactly, k, v.items[i])
      {
        ReadingsAgree(k, v.items[i]);
      }
    }
  }

  lemma {:induction false} ReadingsAgree(schema: Json, v: Json)
    ensures Meets(Exactly, schema, v) ==> Meets(AsDoubles, schema, v)
    ensures Sharp(schema) && Meets(AsDoubles, schema, v) ==> Meets(Exactly, schema, v)
    decreases schema, 1
  {
    hide Means, SharpKeyword;
    if schema.Obj? {
      forall m | m in schema.members
        ensures Means(Exactly, m.key, m.value, schema, v) ==> Means(AsDoubles, m.key, m.value, schema, v)
        ensures SharpKeyword(m.key, m.value) && Means(AsDoubles, m.key, m.value, schema, v) ==> Means(Exactly, m.key, m.value, schema, v)
      {
        KeywordReadings(m.key, m.value, schema, v);
      }
    }
  }

  /** A value that meets a schema exactly is never rejected, and with sharp bounds no other value is accepted. */
  lemma CheckDecidesExactly(schema: Json, v: Json, path: seq<Step>)
    requires WellFormed(schema) && UniqueKeys(schema) && UniqueKeys(v)
    ensures Meets(Exactly, schema, v) ==> Check(schema, v, path).None?
    ensures Sharp(schema) ==> (Check(schema, v, path).None? <==> Meets(Exactly, schema, v))
  {
    hide Meets, Check, Sharp, WellFormed, UniqueKeys;
    CheckDecidesMeaning(schema, v, path);
    ReadingsAgree(schema, v);
  }

  lemma MinimumMeans(reading: Reading, n: int, v: Json)
    ensures Meets(reading, Obj([Member("minimum", Num(n))]), v) <==> v.Num? ==> AtMost(reading, n, v.n)
    ensures WellFormed(Obj([Member("minimum", Num(n))])) && UniqueKeys(Obj([Member("minimum", Num(n))]))
  {
    var schema := Obj([Member("minimum", Num(n))]);
    assert schema.members[0] in schema.members;
    assert Means(reading, "minimum", Num(n), schema, v) <==> v.Num? ==> AtMost(reading, n, v.n);
    assert WellFormedKeyword("minimum", Num(n));
  }

  /** A minimum is enforced on every integer exactly when it is sharp: else its predecessor is accepted too. */
  lemma MinimumExactly(n: int, path: seq<Step>)
    ensures (forall v: int :: Check(Obj([Member("minimum", Num(n))]), Num(v), path).None? <==> n <= v) <==> SharpFromBelow(n)
  {
    hide Check, Double, SharpFromBelow, Meets, WellFormed, UniqueKeys;
    var schema := Obj([Member("minimum", Num(n))]);
    forall v: int
      ensures Check(schema, Num(v), path).None? <==> Double(n) <= Double(v)
    {
      MinimumMeans(AsDoubles, n, Num(v));
      NumberUnique(v);
      CheckDecidesMeaning(schema, Num(v), path);
    }
    LowerBoundExactly(n);
  }

  lemma NumberUnique(n: int)
    ensures UniqueKeys(Num(n))
  {
  }

  // ---- Rejections name a real fault ----

  ghost predicate BrokenHere(schema: Json, v: Json, keyword: string) {
    schema.Obj? && exists m :: m in schema.members && m.key == keyword && !Means(Exactly, keyword, m.value, schema, v)
  }

  ghost predicate PropertyAt(schema: Json, v: Json, name: string, sub: Json, child: Json) {
    && schema.Obj? && v.Obj? && Member(name, child) in v.members
    && exists k :: Member("properties", k) in schema.members && k.Obj? && Member(name, sub) in k.members
  }

  /** Following `steps` into the schema and the value together leads to a keyword the value there breaks. */
  ghost predicate Broken(schema: Json, v: Json, steps: seq<Step>, keyword: string)
    decreases |steps|
  {
    if steps == [] then BrokenHere(schema, v, keyword)
    else match steps[0]
      case Field(name) => exists sub, child :: PropertyAt(schema, v, name, sub, child) && Broken(sub, child, steps[1..], keyword)
      case Index(i) =>
        && schema.Obj? && v.Arr? && i < |v.items|
        && exists sub :: Member("items", sub) in schema.members && Broken(sub, v.items[i], steps[1..], keyword)
  }

  ghost predicate Blames(schema: Json, v: Json, path: seq<Step>, fault: Verdict) {
    fault.Some? ==> path <= fault.value.path && Broken(schema, v, fault.value.path[|path|..], fault.value.keyword)
  }

  lemma {:induction false} PlainBlames(keywords: seq<string>, schema: Json, v: Json, path: seq<Step>)
    requires WellFormed(schema) && forall key :: key in keywords ==> !Recursive(key)
    ensures Blames(schema, v, path, CheckPlain(keywords, schema, v, path))
  {
    hide Passes, Means, WellFormedKeyword;
    if keywords != [] {
      assert keywords[0] in keywords && forall key :: key in keywords[1..] ==> key in keywords;
      PlainBlames(keywords[1..], schema, v, path);
      var k := Get(schema, keywords[0]);
      if k.Some? {
        assert WellFormedKeyword(Member(keywords[0], k.value).key, k.value);
        PlainKeywordMeans(keywords[0], k.value, schema, v);
        KeywordReadings(keywords[0], k.value, schema, v);
        if !Passes(keywords[0], k.value, v) {
          assert Member(keywords[0], k.value).key == keywords[0];
          assert BrokenHere(schema, v, keywords[0]);
        }
      }
    }
  }

  lemma AdditionalBlames(schema: Json, v: Json, path: seq<Step>)
    requires WellFormed(schema) && UniqueKeys(schema)
    ensures Blames(schema, v, path, CheckAdditional(schema, v, path))
  {
    hide UniqueKeys, Get, DeclaredFields;
    var k := Get(schema, "additionalProperties");
    if k.Some? {
      assert WellFormedKeyword(Member("additionalProperties", k.value).key, k.value);
      assert CheckAdditional(schema, v, path).Some? ==> BrokenHere(schema, v, "additionalProperties");
    }
  }

  lemma BlamesDeeper(schema: Json, v: Json, path: seq<Step>, step: Step, sub: Json, child: Json, fault: Verdict)
    requires Blames(sub, child, path + [step], fault)
    requires match step
      case Field(name) => PropertyAt(schema, v, name, sub, child)
      case Index(i) => schema.Obj? && Member("items", sub) in schema.members && v.Arr? && i < |v.items| && child == v.items[i]
    ensures Blames(schema, v, path, fault)
  {
    hide PropertyAt;
    if fault.Some? {
      var steps := fault.value.path[|path|..];
      assert fault.value.path[..|path| + 1] == path + [step];
      assert fault.value.path[|path|] == step && path <= fault.value.path;
      assert steps[0] == step && steps[1..] == fault.value.path[|path| + 1..];
      assert |path + [step]| == |path| + 1;
      assert Broken(sub, child, steps[1..], fault.value.keyword);
    }
  }

  /** A rejection by a well-formed schema names a place in the value and a keyword that the value breaks there. */
  lemma {:induction false} RejectionIsReal(schema: Json, v: Json, path: seq<Step>)
    requires WellFormed(schema) && UniqueKeys(schema) && UniqueKeys(v)
    ensures Blames(schema, v, path, Check(schema, v, path))
    decreases schema, 2
  {
    hide Blames, UniqueKeys, CheckPlain, CheckAdditional, CheckFields, CheckFrom, WellFormedKeyword, Get;
    PlainBlames(PLAIN_KEYWORDS, schema, v, path);
    AdditionalBlames(schema, v, path);
    NothingBlamed(schema, v, path);
    var properties, items := Get(schema, "properties"), Get(schema, "items");
    if properties.Some? {
      SubschemasFit(schema, "properties", properties.value);
      if v.Obj? {
        FieldsBlame(schema, properties.value, properties.value.members, v, path);
      }
    }
    if items.Some? {
      SubschemasFit(schema, "items", items.value);
      if v.Arr? {
        FromBlames(schema, items.value, v, 0, path);
      }
    }
  }

  lemma NothingBlamed(schema: Json, v: Json, path: seq<Step>)
    ensures Blames(schema, v, path, None)
  {
  }

  lemma SubschemasFit(schema: Json, keyword: string, k: Json)
    requires WellFormed(schema) && UniqueKeys(schema) && Member(keyword, k) in schema.members
    ensures UniqueKeys(k)
    ensures keyword == "properties" ==> k.Obj? && forall p :: p in k.members ==> WellFormed(p.value) && UniqueKeys(p.value)
    ensures keyword == "items" ==> k.Obj? && WellFormed(k)
  {
    assert WellFormedKeyword(Member(keyword, k).key, k);
  }

  lemma {:induction false} FieldsBlame(schema: Json, k: Json, properties: seq<Member>, v: Json, path: seq<Step>)
    requires schema.Obj? && Member("properties", k) in schema.members && k.Obj? && v.Obj? && UniqueKeys(v)
    requires forall p :: p in properties ==> p in k.members && WellFormed(p.value) && UniqueKeys(p.value)
    ensures Blames(schema, v, path, CheckFields(properties, v, path))
    decreases properties, 0
  {
    hide Get, Check, WellFormed, UniqueKeys, Blames;
    NothingBlamed(schema, v, path);
    if properties != [] {
      var p := properties[0];
      assert p in properties && forall q :: q in properties[1..] ==> q in properties;
      FieldsBlame(schema, k, properties[1..], v, path);
      var field := Get(v, p.key);
      if field.Some? {
        MemberUnique(v, p.key, field.value);
        RejectionIsReal(p.value, field.value, path + [Field(p.key)]);
        assert Member(p.key, p.value) == p;
        assert PropertyAt(schema, v, p.key, p.value, field.value);
        BlamesDeeper(schema, v, path, Field(p.key), p.value, field.value, Check(p.value, field.value, path + [Field(p.key)]));
      }
    }
  }

  lemma {:induction false} FromBlames(schema: Json, k: Json, v: Json, i: nat, path: seq<Step>)
    requires schema.Obj? && Member("items", k) in schema.members && WellFormed(k) && UniqueKeys(k)
    requires v.Arr? && UniqueKeys(v) && i <= |v.items|
    ensures Blames(schema, v, path, CheckFrom(k, v.items, i, path))
    decreases k, 3, |v.items| - i
  {
    hide Check, WellFormed, Blames;
    NothingBlamed(schema, v, path);
    if i < |v.items| {
      RejectionIsReal(k, v.items[i], path + [Index(i)]);
      BlamesDeeper(schema, v, path, Index(i), k, v.items[i], Check(k, v.items[i], path + [Index(i)]));
      FromBlames(schema, k, v, i + 1, path);
    }
  }
}
