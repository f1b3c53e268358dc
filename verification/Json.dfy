/** JSON values. Object members form a list, so that member order is part of a value. */
module Json {
  import opened Results

  datatype Json =
    | Null
    | Bool(b: bool)
    | Num(n: int)
    | Str(s: string)
    | Arr(items: seq<Json>)
    | Obj(members: seq<Member>)

  datatype Member = Member(key: string, value: Json)

  /** Position of the first member named `key` at or after `i`. */
  function Find(members: seq<Member>, key: string, i: nat): (r: Option<nat>)
    requires i <= |members|
    ensures r.Some? ==> r.value < |members| && members[r.value].key == key
    ensures r.None? ==> forall j :: i <= j < |members| ==> members[j].key != key
    decreases |members| - i
  {
    if i == |members| then None
    else if members[i].key == key then Some(i)
    else Find(members, key, i + 1)
  }

  function DigitChar(d: nat): char
    requires d < 10
  {
    "0123456789"[d]
  }

  function NatText(n: nat): string {
    if n < 10 then [DigitChar(n)] else NatText(n / 10) + [DigitChar(n % 10)]
  }
}
