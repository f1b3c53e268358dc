/** The text of a JSON value determines the value: no two values print alike, even with text following. */
module JsonText {
  import opened Results
  import opened Json
  import opened CanonicalJson

  /** Text that may follow a value: nothing, or a separator or closing bracket. */
  predicate Follows(s: string) {
    s == "" || s[0] == ',' || s[0] == ']' || s[0] == '}'
  }

  // ---- Concatenation ----

  lemma Regroup(a: string, b: string, s: string)
    ensures a + b + s == a + (b + s)
  {
  }

  /** Equal texts start with the same character and go on alike. */
  lemma Peel(c: char, a: string, s: string, d: char, b: string, t: string)
    requires [c] + a + s == [d] + b + t
    ensures c == d && a + s == b + t
  {
    assert ([c] + a + s)[0] == c && ([d] + b + t)[0] == d;
    assert a + s == ([c] + a + s)[1..] && b + t == ([d] + b + t)[1..];
  }

  // ---- Numbers ----

  predicate IsDigit(c: char) {
    '0' <= c <= '9'
  }

  lemma DigitOf(d: nat)
    requires d < 10
    ensures IsDigit(DigitChar(d)) && DigitChar(d) as int == '0' as int + d
  {
  }

  lemma {:induction false} NatDigits(n: nat)
    ensures |NatText(n)| > 0 && forall i :: 0 <= i < |NatText(n)| ==> IsDigit(NatText(n)[i])
  {
    DigitOf(n % 10);
    if n >= 10 {
      NatDigits(n / 10);
    }
  }

  /** The value of a decimal numeral. */
  function DecimalValue(s: string): nat
    requires forall i :: 0 <= i < |s| ==> IsDigit(s[i])
  {
    if s == "" then 0
    else
      assert IsDigit(s[|s| - 1]);
      10 * DecimalValue(s[..|s| - 1]) + (s[|s| - 1] as int - '0' as int)
  }

  /** A number is written as its decimal numeral, without leading zeros. */
  lemma {:induction false} NumeralOf(n: nat)
    ensures |NatText(n)| > 0 && forall i :: 0 <= i < |NatText(n)| ==> IsDigit(NatText(n)[i])
    ensures DecimalValue(NatText(n)) == n
    ensures NatText(n)[0] == '0' ==> n == 0
  {
    NatDigits(n);
    DigitOf(n % 10);
    var s := NatText(n);
    assert s[|s| - 1] == DigitChar(n % 10);
    if n >= 10 {
      NumeralOf(n / 10);
      assert s[..|s| - 1] == NatText(n / 10) && s[0] == NatText(n / 10)[0];
    } else {
      assert s[..|s| - 1] == "";
    }
  }

  lemma NatTextInjective(n: nat, m: nat)
    requires NatText(n) == NatText(m)
    ensures n == m
  {
    hide NatText;
    NumeralOf(n);
    NumeralOf(m);
  }

  /** How many digits a text starts with. */
  function DigitRun(s: string): nat {
    if s != "" && IsDigit(s[0]) then 1 + DigitRun(s[1..]) else 0
  }

  lemma {:induction false} DigitRunOf(a: string, s: string)
    requires (forall i :: 0 <= i < |a| ==> IsDigit(a[i])) && (s == "" || !IsDigit(s[0]))
    ensures DigitRun(a + s) == |a|
  {
    if a == "" {
      assert a + s == s;
    } else {
      DigitRunOf(a[1..], s);
      assert (a + s)[1..] == a[1..] + s;
    }
  }

  /** A natural number ends where a non-digit follows. */
  lemma NatTextEnds(n: nat, s: string, m: nat, t: string)
    requires NatText(n) + s == NatText(m) + t && Follows(s) && Follows(t)
    ensures n == m && s == t
  {
    hide NatText;
    var a, b := NatText(n), NatText(m);
    NatDigits(n);
    NatDigits(m);
    DigitRunOf(a, s);
    DigitRunOf(b, t);
    assert a == (a + s)[..|a|] && b == (b + t)[..|b|];
    assert s == (a + s)[|a|..] && t == (b + t)[|b|..];
    NatTextInjective(n, m);
  }

  lemma SignShown(n: int)
    ensures IntText(n) != "" && (IntText(n)[0] == '-' <==> n < 0)
  {
    hide NatText;
    NatDigits(if n < 0 then -n else n);
  }

  lemma IntTextEnds(n: int, s: string, m: int, t: string)
    requires IntText(n) + s == IntText(m) + t && Follows(s) && Follows(t)
    ensures n == m && s == t
  {
    hide NatText;
    SignsAgree(n, s, m, t);
    if n < 0 {
      Peel('-', NatText(-n), s, '-', NatText(-m), t);
      NatTextEnds(-n, s, -m, t);
    } else {
      NatTextEnds(n, s, m, t);
    }
  }

  lemma SignsAgree(n: int, s: string, m: int, t: string)
    requires IntText(n) + s == IntText(m) + t
    ensures n < 0 <==> m < 0
  {
    hide IntText;
    SignShown(n);
    SignShown(m);
    assert (IntText(n) + s)[0] == IntText(n)[0] && (IntText(m) + t)[0] == IntText(m)[0];
  }

  // ---- Strings ----

  lemma HexCharInjective(d: nat, e: nat)
    requires d < 16 && e < 16 && HexChar(d) == HexChar(e)
    ensures d == e
  {
  }

  /** An escape starts with a backslash, and its second character tells its length. */
  lemma EscapeShape(c: char)
    ensures var x := EscapeChar(c);
      && |x| in {1, 2, 6}
      && (|x| == 1 <==> x[0] != '\\')
      && (|x| == 2 ==> x[1] != 'u') && (|x| == 6 ==> x[1] == 'u')
  {
    hide HexChar;
  }

  lemma EscapeInjective(c: char, d: char)
    requires EscapeChar(c) == EscapeChar(d)
    ensures c == d
  {
    hide HexChar;
    var x, y := EscapeChar(c), EscapeChar(d);
    EscapeShape(c);
    EscapeShape(d);
    assert x[0] == y[0] && (|x| > 1 ==> x[1] == y[1]);
    if |x| == 6 {
      assert x[4] == HexChar(c as int / 16) && y[4] == HexChar(d as int / 16);
      assert x[5] == HexChar(c as int % 16) && y[5] == HexChar(d as int % 16);
      HexCharInjective(c as int / 16, d as int / 16);
      HexCharInjective(c as int % 16, d as int % 16);
    }
  }

  lemma EscapeCharEnds(c: char, s: string, d: char, t: string)
    requires EscapeChar(c) + s == EscapeChar(d) + t
    ensures c == d && s == t
  {
    hide EscapeChar;
    var x, y := EscapeChar(c), EscapeChar(d);
    EscapeShape(c);
    EscapeShape(d);
    assert (x + s)[0] == x[0] && (y + t)[0] == y[0];
    assert |x| > 1 ==> (x + s)[1] == x[1];
    assert |y| > 1 ==> (y + t)[1] == y[1];
    assert x == (x + s)[..|x|] && y == (y + t)[..|y|];
    assert s == (x + s)[|x|..] && t == (y + t)[|y|..];
    EscapeInjective(c, d);
  }

  lemma {:induction false} EscapeEnds(a: string, s: string, b: string, t: string)
    requires Escape(a) + "\"" + s == Escape(b) + "\"" + t
    ensures a == b && s == t
    decreases |a|
  {
    hide EscapeChar;
    EscapeStart(a, "\"" + s);
    EscapeStart(b, "\"" + t);
    assert Escape(a) + "\"" + s == Escape(a) + ("\"" + s) && Escape(b) + "\"" + t == Escape(b) + ("\"" + t);
    if a == "" || b == "" {
      assert s == (Escape(a) + ("\"" + s))[1..];
      assert t == (Escape(b) + ("\"" + t))[1..];
    } else {
      var u, v := Escape(a[1..]) + "\"" + s, Escape(b[1..]) + "\"" + t;
      assert Escape(a) + "\"" + s == EscapeChar(a[0]) + u;
      assert Escape(b) + "\"" + t == EscapeChar(b[0]) + v;
      EscapeCharEnds(a[0], u, b[0], v);
      EscapeEnds(a[1..], s, b[1..], t);
      assert a == [a[0]] + a[1..] && b == [b[0]] + b[1..];
    }
  }

  lemma EscapeStart(a: string, s: string)
    requires s != "" && s[0] == '\"'
    ensures (Escape(a) + s)[0] == '\"' <==> a == ""
  {
    if a != "" {
      assert (Escape(a) + s)[0] == EscapeChar(a[0])[0];
    }
  }

  lemma QuoteEnds(a: string, s: string, b: string, t: string)
    requires Quote(a) + s == Quote(b) + t
    ensures a == b && s == t
  {
    hide Escape;
    assert (Quote(a) + s)[1..] == Escape(a) + "\"" + s;
    assert (Quote(b) + t)[1..] == Escape(b) + "\"" + t;
    EscapeEnds(a, s, b, t);
  }

  // ---- Values ----

  /** Every value starts with a character that tells its kind, and none of these may follow a value. */
  function Kind(c: char): nat {
    if c == 'n' then 1
    else if c == 't' then 2
    else if c == 'f' then 3
    else if c == '-' || IsDigit(c) then 4
    else if c == '\"' then 5
    else if c == '[' then 6
    else if c == '{' then 7
    else 0
  }

  function KindOf(j: Json): (k: nat)
    ensures k > 0
  {
    match j
    case Null => 1
    case Bool(b) => if b then 2 else 3
    case Num(_) => 4
    case Str(_) => 5
    case Arr(_) => 6
    case Obj(_) => 7
  }

  lemma TextKind(j: Json)
    ensures Text(j) != "" && Kind(Text(j)[0]) == KindOf(j)
  {
    hide NatText, Escape;
    if j.Num? {
      NatDigits(if j.n < 0 then -j.n else j.n);
    }
  }

  lemma KindsAgree(a: Json, s: string, b: Json, t: string)
    requires Text(a) + s == Text(b) + t
    ensures KindOf(a) == KindOf(b)
  {
    hide Text;
    TextKind(a);
    TextKind(b);
    assert (Text(a) + s)[0] == Text(a)[0] && (Text(b) + t)[0] == Text(b)[0];
  }

  /** A value's text, whatever may follow it, determines the value and what follows. */
  lemma {:induction false} TextEnds(a: Json, s: string, b: Json, t: string)
    requires Text(a) + s == Text(b) + t && Follows(s) && Follows(t)
    ensures a == b && s == t
    decreases a, 1
  {
    KindsAgree(a, s, b, t);
    match a {
      case Null =>
        assert s == (Text(a) + s)[4..] && t == (Text(b) + t)[4..];
      case Bool(v) =>
        var k := if v then 4 else 5;
        assert s == (Text(a) + s)[k..] && t == (Text(b) + t)[k..];
      case Num(n) =>
        IntTextEnds(n, s, b.n, t);
      case Str(x) =>
        QuoteEnds(x, s, b.s, t);
      case Arr(items) =>
        ArrTextEnds(items, s, b.items, t);
      case Obj(members) =>
        ObjTextEnds(members, s, b.members, t);
    }
  }

  /** What follows an opening bracket: the items and the closing bracket. */
  function ArrBody(items: seq<Json>): string {
    if items == [] then "]" else Text(items[0]) + ItemsText(items[1..])
  }

  lemma ArrTextBody(items: seq<Json>)
    ensures Text(Arr(items)) == ['['] + ArrBody(items)
    ensures ItemsText(items) == if items == [] then ArrBody(items) else [','] + ArrBody(items)
  {
    if items != [] {
      Regroup("[", Text(items[0]), ItemsText(items[1..]));
      Regroup(",", Text(items[0]), ItemsText(items[1..]));
    }
  }

  lemma ArrBodyStart(items: seq<Json>, s: string)
    ensures (ArrBody(items) + s)[0] == ']' <==> items == []
  {
    if items != [] {
      TextKind(items[0]);
      assert (ArrBody(items) + s)[0] == Text(items[0])[0];
    }
  }

  lemma ArrTextEnds(xs: seq<Json>, s: string, ys: seq<Json>, t: string)
    requires Text(Arr(xs)) + s == Text(Arr(ys)) + t
    ensures Arr(xs) == Arr(ys) && s == t
    decreases xs, 2
  {
    hide Text, ArrBody;
    ArrTextBody(xs);
    ArrTextBody(ys);
    Peel('[', ArrBody(xs), s, '[', ArrBody(ys), t);
    ArrBodyEnds(xs, s, ys, t);
  }

  lemma {:induction false} ArrBodyEnds(xs: seq<Json>, s: string, ys: seq<Json>, t: string)
    requires ArrBody(xs) + s == ArrBody(ys) + t
    ensures xs == ys && s == t
    decreases xs, 1
  {
    hide Text, ItemsText;
    ArrBodyStart(xs, s);
    ArrBodyStart(ys, t);
    if xs == [] {
      assert [']'] + "" + s == "]" + s && [']'] + "" + t == "]" + t && "" + s == s && "" + t == t;
      Peel(']', "", s, ']', "", t);
    } else {
      Regroup(Text(xs[0]), ItemsText(xs[1..]), s);
      Regroup(Text(ys[0]), ItemsText(ys[1..]), t);
      ItemsFollow(xs[1..], s);
      ItemsFollow(ys[1..], t);
      TextEnds(xs[0], ItemsText(xs[1..]) + s, ys[0], ItemsText(ys[1..]) + t);
      ItemsEnd(xs[1..], s, ys[1..], t);
      assert xs == [xs[0]] + xs[1..] && ys == [ys[0]] + ys[1..];
    }
  }

  lemma ItemsFollow(xs: seq<Json>, s: string)
    ensures Follows(ItemsText(xs) + s)
    ensures (ItemsText(xs) + s)[0] == if xs == [] then ']' else ','
  {
    hide Text;
    ArrTextBody(xs);
  }

  lemma {:induction false} ItemsEnd(xs: seq<Json>, s: string, ys: seq<Json>, t: string)
    requires ItemsText(xs) + s == ItemsText(ys) + t
    ensures xs == ys && s == t
    decreases xs, 2
  {
    hide Text, ItemsText, ArrBody;
    ItemsFollow(xs, s);
    ItemsFollow(ys, t);
    ArrTextBody(xs);
    ArrTextBody(ys);
    if xs != [] {
      Peel(',', ArrBody(xs), s, ',', ArrBody(ys), t);
    }
    ArrBodyEnds(xs, s, ys, t);
  }

  lemma MemberEnds(m: Member, s: string, n: Member, t: string)
    requires MemberText(m) + s == MemberText(n) + t && Follows(s) && Follows(t)
    ensures m == n && s == t
    decreases m
  {
    hide Quote, Text;
    var u, v := Text(m.value) + s, Text(n.value) + t;
    assert MemberText(m) + s == Quote(m.key) + (":" + u) && MemberText(n) + t == Quote(n.key) + (":" + v);
    QuoteEnds(m.key, ":" + u, n.key, ":" + v);
    assert u == (":" + u)[1..] && v == (":" + v)[1..];
    TextEnds(m.value, s, n.value, t);
  }

  function ObjBody(members: seq<Member>): string {
    if members == [] then "}" else MemberText(members[0]) + MembersText(members[1..])
  }

  lemma ObjTextBody(members: seq<Member>)
    ensures Text(Obj(members)) == ['{'] + ObjBody(members)
    ensures MembersText(members) == if members == [] then ObjBody(members) else [','] + ObjBody(members)
  {
    hide MemberText;
    if members != [] {
      Regroup("{", MemberText(members[0]), MembersText(members[1..]));
      Regroup(",", MemberText(members[0]), MembersText(members[1..]));
    }
  }

  lemma ObjBodyStart(members: seq<Member>, s: string)
    ensures (ObjBody(members) + s)[0] == '}' <==> members == []
  {
    hide Escape, MembersText;
    if members != [] {
      assert (ObjBody(members) + s)[0] == MemberText(members[0])[0];
    }
  }

  lemma ObjTextEnds(ms: seq<Member>, s: string, ns: seq<Member>, t: string)
    requires Text(Obj(ms)) + s == Text(Obj(ns)) + t
    ensures Obj(ms) == Obj(ns) && s == t
    decreases ms, 2
  {
    hide Text, ObjBody;
    ObjTextBody(ms);
    ObjTextBody(ns);
    Peel('{', ObjBody(ms), s, '{', ObjBody(ns), t);
    ObjBodyEnds(ms, s, ns, t);
  }

  lemma {:induction false} ObjBodyEnds(ms: seq<Member>, s: string, ns: seq<Member>, t: string)
    requires ObjBody(ms) + s == ObjBody(ns) + t
    ensures ms == ns && s == t
    decreases ms, 1
  {
    hide MemberText, MembersText;
    ObjBodyStart(ms, s);
    ObjBodyStart(ns, t);
    if ms == [] {
      assert ['}'] + "" + s == "}" + s && ['}'] + "" + t == "}" + t && "" + s == s && "" + t == t;
      Peel('}', "", s, '}', "", t);
    } else {
      Regroup(MemberText(ms[0]), MembersText(ms[1..]), s);
      Regroup(MemberText(ns[0]), MembersText(ns[1..]), t);
      MembersFollow(ms[1..], s);
      MembersFollow(ns[1..], t);
      MemberEnds(ms[0], MembersText(ms[1..]) + s, ns[0], MembersText(ns[1..]) + t);
      MembersEnd(ms[1..], s, ns[1..], t);
      assert ms == [ms[0]] + ms[1..] && ns == [ns[0]] + ns[1..];
    }
  }

  lemma MembersFollow(ms: seq<Member>, s: string)
    ensures Follows(MembersText(ms) + s)
    ensures (MembersText(ms) + s)[0] == if ms == [] then '}' else ','
  {
    hide MemberText;
    ObjTextBody(ms);
  }

  lemma {:induction false} MembersEnd(ms: seq<Member>, s: string, ns: seq<Member>, t: string)
    requires MembersText(ms) + s == MembersText(ns) + t
    ensures ms == ns && s == t
    decreases ms, 2
  {
    hide MembersText, ObjBody;
    MembersFollow(ms, s);
    MembersFollow(ns, t);
    ObjTextBody(ms);
    ObjTextBody(ns);
    if ms != [] {
      Peel(',', ObjBody(ms), s, ',', ObjBody(ns), t);
    }
    ObjBodyEnds(ms, s, ns, t);
  }

  /** Printing is injective. */
  lemma TextInjective(a: Json, b: Json)
    requires Text(a) == Text(b)
    ensures a == b
  {
    assert Text(a) + "" == Text(a) && Text(b) + "" == Text(b);
    TextEnds(a, "", b, "");
  }

  // ---- The text says what it should ----

  function HexValue(c: char): Option<nat> {
    if '0' <= c <= '9' then Some(c as int - '0' as int)
    else if 'a' <= c <= 'f' then Some(c as int - 'a' as int + 10)
    else if 'A' <= c <= 'F' then Some(c as int - 'A' as int + 10)
    else None
  }

  /** The character a four-digit escape names, surrogates excepted. */
  function CodePoint(s: string): Option<char>
    requires |s| == 4
  {
    var a, b, c, d := HexValue(s[0]), HexValue(s[1]), HexValue(s[2]), HexValue(s[3]);
    if a.None? || b.None? || c.None? || d.None? then None
    else
      var n := a.value * 4096 + b.value * 256 + c.value * 16 + d.value;
      if 0 <= n < 0xD800 || 0xE000 <= n < 0x1_0000 then Some(n as char) else None
  }

  /** Decoding of a string literal's contents by section 7 of RFC 8259. */
  function Unescape(s: string): Option<string> {
    if s == "" then Some("")
    else if s[0] == '\"' || s[0] < ' ' then None
    else if s[0] != '\\' then Prepend(Some(s[0]), Unescape(s[1..]))
    else if |s| < 2 then None
    else match s[1]
      case '\"' => Prepend(Some('\"'), Unescape(s[2..]))
      case '\\' => Prepend(Some('\\'), Unescape(s[2..]))
      case '/' => Prepend(Some('/'), Unescape(s[2..]))
      case 'b' => Prepend(Some(8 as char), Unescape(s[2..]))
      case 'f' => Prepend(Some(12 as char), Unescape(s[2..]))
      case 'n' => Prepend(Some(10 as char), Unescape(s[2..]))
      case 'r' => Prepend(Some(13 as char), Unescape(s[2..]))
      case 't' => Prepend(Some(9 as char), Unescape(s[2..]))
      case 'u' => if |s| < 6 then None else Prepend(CodePoint(s[2..6]), Unescape(s[6..]))
      case _ => None
  }

  function Prepend(c: Option<char>, rest: Option<string>): Option<string> {
    if c.Some? && rest.Some? then Some([c.value] + rest.value) else None
  }

  lemma HexDigits(d: nat)
    requires d < 16
    ensures HexValue(HexChar(d)) == Some(d)
  {
  }

  lemma UnescapeChar(c: char, rest: string)
    ensures Unescape(EscapeChar(c) + rest) == Prepend(Some(c), Unescape(rest))
  {
    hide HexChar;
    var x := EscapeChar(c);
    var s := x + rest;
    assert s[0] == x[0] && s[|x|..] == rest;
    if |x| == 6 {
      var hi, lo := HexChar(c as int / 16), HexChar(c as int % 16);
      HexDigits(c as int / 16);
      HexDigits(c as int % 16);
      assert s[2..6] == ['0', '0', hi, lo] && s[1] == 'u';
      assert CodePoint(['0', '0', hi, lo]) == Some(c);
    } else if |x| == 2 {
      assert s[1] == x[1];
    }
  }

  /** Decoding an escaped string gives the string back. */
  lemma {:induction false} UnescapeEscape(s: string)
    ensures Unescape(Escape(s)) == Some(s)
  {
    hide EscapeChar;
    if s != "" {
      UnescapeEscape(s[1..]);
      UnescapeChar(s[0], Escape(s[1..]));
      assert s == [s[0]] + s[1..];
    }
  }
}
