/** The canonical JSON text that run comparison hashes: members sorted by key, strings escaped. */
module CanonicalJson {
  import opened Results
  import opened Json

  // ---- Key order ----

  /** Strict order of strings by code points, which is also the order of their UTF-8 bytes. */
  predicate Before(a: string, b: string) {
    |b| > 0 && (|a| == 0 || a[0] < b[0] || (a[0] == b[0] && Before(a[1..], b[1..])))
  }

  lemma {:induction false} BeforeTotal(a: string, b: string)
    ensures a == b || Before(a, b) || Before(b, a)
  {
    if |a| > 0 && |b| > 0 && a[0] == b[0] {
      BeforeTotal(a[1..], b[1..]);
      assert a == [a[0]] + a[1..] && b == [b[0]] + b[1..];
    }
  }

  lemma {:induction false} BeforeStrict(a: string, b: string)
    requires Before(a, b)
    ensures !Before(b, a) && a != b
  {
    if |a| > 0 && a[0] == b[0] {
      BeforeStrict(a[1..], b[1..]);
    }
  }

  lemma {:induction false} BeforeTransitive(a: string, b: string, c: string)
    requires Before(a, b) && Before(b, c)
    ensures Before(a, c)
  {
    if |a| > 0 && a[0] == b[0] == c[0] {
      BeforeTransitive(a[1..], b[1..], c[1..]);
    }
  }

  /** Up to `i` both strings are alike; there `a` ends or has the smaller character. */
  ghost predicate PartAt(a: string, b: string, i: nat) {
    i <= |a| && i < |b| && (forall j :: 0 <= j < i ==> a[j] == b[j]) && (i == |a| || a[i] < b[i])
  }

  lemma {:induction false} WhereBefore(a: string, b: string) returns (i: nat)
    requires Before(a, b)
    ensures PartAt(a, b, i)
  {
    if |a| == 0 || a[0] < b[0] {
      i := 0;
    } else {
      var k := WhereBefore(a[1..], b[1..]);
      i := k + 1;
      assert forall j :: 1 <= j < i ==> a[j] == a[1..][j - 1] && b[j] == b[1..][j - 1];
    }
  }

  lemma {:induction false} PartedBefore(a: string, b: string, i: nat)
    requires PartAt(a, b, i)
    ensures Before(a, b)
  {
    if i > 0 {
      PartedBefore(a[1..], b[1..], i - 1);
    }
  }

  /** The order is lexicographic by code points: after a common start the smaller string ends or has the smaller one. */
  lemma BeforeMeans(a: string, b: string)
    ensures Before(a, b) <==> exists i: nat :: PartAt(a, b, i)
  {
    if Before(a, b) {
      var i := WhereBefore(a, b);
    }
    if i: nat :| PartAt(a, b, i) {
      PartedBefore(a, b, i);
    }
  }

  /** Insert before the first member whose key is not smaller. */
  function InsertMember(x: Member, sorted: seq<Member>): (r: seq<Member>)
    ensures multiset(r) == multiset(sorted) + multiset{x}
  {
    if sorted == [] || !Before(sorted[0].key, x.key) then [x] + sorted
    else
      assert sorted == [sorted[0]] + sorted[1..];
      [sorted[0]] + InsertMember(x, sorted[1..])
  }

  /** Stable sort of members by key. */
  function SortMembers(members: seq<Member>): (r: seq<Member>)
    ensures multiset(r) == multiset(members)
    ensures |r| == |members| && forall m :: m in r <==> m in members
  {
    if members == [] then []
    else
      assert members == [members[0]] + members[1..];
      var r := InsertMember(members[0], SortMembers(members[1..]));
      assert forall m :: m in r <==> m in multiset(r);
      assert forall m :: m in members <==> m in multiset(members);
      assert |multiset(r)| == |r| && |multiset(members)| == |members|;
      r
  }

  predicate StrictlySorted(members: seq<Member>) {
    forall i, j :: 0 <= i < j < |members| ==> Before(members[i].key, members[j].key)
  }

  predicate DistinctKeys(members: seq<Member>) {
    forall i, j :: 0 <= i < j < |members| ==> members[i].key != members[j].key
  }

  lemma {:induction false} InsertSorted(x: Member, sorted: seq<Member>)
    requires StrictlySorted(sorted) && forall m :: m in sorted ==> m.key != x.key
    ensures StrictlySorted(InsertMember(x, sorted))
  {
    if sorted == [] {
    } else if !Before(sorted[0].key, x.key) {
      assert sorted[0] in sorted;
      BeforeTotal(sorted[0].key, x.key);
      forall j | 0 <= j < |sorted|
        ensures Before(x.key, sorted[j].key)
      {
        if j > 0 {
          BeforeTransitive(x.key, sorted[0].key, sorted[j].key);
        }
      }
    } else {
      var rest := InsertMember(x, sorted[1..]);
      InsertSorted(x, sorted[1..]);
      assert forall m :: m in rest <==> m in multiset(rest);
      forall j | 0 <= j < |rest|
        ensures Before(sorted[0].key, rest[j].key)
      {
        assert rest[j] in multiset(sorted[1..]) + multiset{x};
      }
    }
  }

  lemma {:induction false} SortSorts(members: seq<Member>)
    requires DistinctKeys(members)
    ensures StrictlySorted(SortMembers(members))
  {
    if members != [] {
      SortSorts(members[1..]);
      forall m | m in SortMembers(members[1..])
        ensures m.key != members[0].key
      {
        assert m in members[1..];
      }
      InsertSorted(members[0], SortMembers(members[1..]));
    }
  }

  // ---- Text ----

  function IntText(n: int): string {
    if n < 0 then "-" + NatText(-n) else NatText(n)
  }

  function HexChar(d: nat): char
    requires d < 16
  {
    "0123456789abcdef"[d]
  }

  /** One character of a string literal, escaped as section 7 of RFC 8259 asks. */
  function EscapeChar(c: char): string {
    if c == '\"' then "\\\""
    else if c == '\\' then "\\\\"
    else if c == 8 as char then "\\b"
    else if c == 9 as char then "\\t"
    else if c == 10 as char then "\\n"
    else if c == 12 as char then "\\f"
    else if c == 13 as char then "\\r"
    else if c < ' ' then "\\u00" + [HexChar(c as int / 16), HexChar(c as int % 16)]
    else [c]
  }

  /** Which characters are escaped, and how: quote, backslash and five control characters by a letter, the other
      control characters by four lower-case hexadecimal digits, and no other character. */
  lemma EscapesExactly(c: char)
    ensures var n := c as int;
      EscapeChar(c) ==
        if n == 34 then ['\\', '\"'] else if n == 92 then ['\\', '\\'] else if n == 8 then ['\\', 'b'] else if n == 9 then ['\\', 't']
        else if n == 10 then ['\\', 'n'] else if n == 12 then ['\\', 'f'] else if n == 13 then ['\\', 'r']
        else if n < 16 then ['\\', 'u', '0', '0', '0', if n < 10 then (n + 48) as char else (n + 87) as char]
        else if n < 32 then ['\\', 'u', '0', '0', '1', if n < 26 then (n + 32) as char else (n + 71) as char]
        else [c]
  {
    var n := c as int;
    if n < 32 {
      assert HexChar(n / 16) == "0123456789abcdef"[n / 16] && HexChar(n % 16) == "0123456789abcdef"[n % 16];
      assert forall d :: 0 <= d < 16 ==> "0123456789abcdef"[d] == if d < 10 then (d + 48) as char else (d + 87) as char;
    }
  }

  function Escape(s: string): string {
    if s == "" then "" else EscapeChar(s[0]) + Escape(s[1..])
  }

  function Quote(s: string): string {
    "\"" + Escape(s) + "\""
  }

  /** Text of a value, its members in the order they have. */
  function Text(j: Json): string
    decreases j
  {
    match j
    case Null => "null"
    case Bool(b) => if b then "true" else "false"
    case Num(n) => IntText(n)
    case Str(s) => Quote(s)
    case Arr(items) => if items == [] then "[]" else "[" + Text(items[0]) + ItemsText(items[1..])
    case Obj(members) => if members == [] then "{}" else "{" + MemberText(members[0]) + MembersText(members[1..])
  }

  function ItemsText(items: seq<Json>): string
    decreases items
  {
    if items == [] then "]" else "," + Text(items[0]) + ItemsText(items[1..])
  }

  function MemberText(m: Member): string
    decreases m
  {
    Quote(m.key) + ":" + Text(m.value)
  }

  function MembersText(members: seq<Member>): string
    decreases members
  {
    if members == [] then "}" else "," + MemberText(members[0]) + MembersText(members[1..])
  }

  /** The value with the members of every object sorted by key. */
  function Ordered(j: Json): (r: Json)
    decreases j
  {
    match j
    case Arr(items) => Arr(seq(|items|, i requires 0 <= i < |items| => Ordered(items[i])))
    case Obj(members) =>
      var sorted := SortMembers(members);
      Obj(seq(|sorted|, i requires 0 <= i < |sorted| =>
        assert sorted[i] in members;
        Member(sorted[i].key, Ordered(sorted[i].value))))
    case other => other
  }

  function Canonical(j: Json): string {
    Text(Ordered(j))
  }
}
