/** Writing canonical JSON into a text buffer. */
module CanonicalWriter {
  import opened Json
  import opened CanonicalJson

  class TextBuffer {
    var text: string

    constructor ()
      ensures text == ""
    {
      text := "";
    }

    method Push(s: string)
      modifies this
      ensures text == old(text) + s
    {
      text := text + s;
    }
  }

  // ---- Separated lists ----

  /** The parts with a comma between any two. */
  function Join(parts: seq<string>): string {
    if parts == [] then ""
    else if |parts| == 1 then parts[0]
    else Join(parts[..|parts| - 1]) + "," + parts[|parts| - 1]
  }

  lemma {:induction false} JoinHead(parts: seq<string>)
    requires |parts| >= 2
    ensures Join(parts) == parts[0] + "," + Join(parts[1..])
  {
    var front, last := parts[..|parts| - 1], parts[|parts| - 1];
    if |parts| > 2 {
      JoinHead(front);
      assert parts[1..][..|parts| - 2] == front[1..];
      assert parts[0] + "," + Join(front[1..]) + "," + last == parts[0] + "," + (Join(front[1..]) + "," + last);
    } else {
      assert front == [parts[0]] && parts[1..] == [last];
    }
  }

  function Texts(items: seq<Json>): (r: seq<string>)
    ensures |r| == |items| && forall i :: 0 <= i < |r| ==> r[i] == Text(items[i])
  {
    seq(|items|, i requires 0 <= i < |items| => Text(items[i]))
  }

  function MemberTexts(members: seq<Member>): (r: seq<string>)
    ensures |r| == |members| && forall i :: 0 <= i < |r| ==> r[i] == MemberText(members[i])
  {
    seq(|members|, i requires 0 <= i < |members| => MemberText(members[i]))
  }

  lemma {:induction false} ItemsJoined(items: seq<Json>)
    ensures ItemsText(items) == (if items == [] then "" else "," + Join(Texts(items))) + "]"
  {
    hide Text, Join;
    if items != [] {
      var x, rest := Text(items[0]), Join(Texts(items[1..]));
      ItemsJoined(items[1..]);
      assert Texts(items)[1..] == Texts(items[1..]);
      if |items| > 1 {
        JoinHead(Texts(items));
        assert "," + x + ("," + rest + "]") == "," + (x + "," + rest) + "]";
      } else {
        assert items[1..] == [];
        JoinOne(Texts(items));
      }
    }
  }

  lemma ArrayJoined(items: seq<Json>)
    ensures Text(Arr(items)) == "[" + Join(Texts(items)) + "]"
  {
    if items != [] {
      ItemsJoined(items[1..]);
      assert Texts(items)[1..] == Texts(items[1..]);
      if |items| > 1 {
        JoinHead(Texts(items));
      } else {
        assert items[1..] == [];
      }
    }
  }

  lemma {:induction false} MembersJoined(members: seq<Member>)
    ensures MembersText(members) == (if members == [] then "" else "," + Join(MemberTexts(members))) + "}"
  {
    hide MemberText, Join;
    if members != [] {
      var m, rest := MemberText(members[0]), Join(MemberTexts(members[1..]));
      MembersJoined(members[1..]);
      assert MemberTexts(members)[1..] == MemberTexts(members[1..]);
      if |members| > 1 {
        JoinHead(MemberTexts(members));
        assert "," + m + ("," + rest + "}") == "," + (m + "," + rest) + "}";
      } else {
        assert members[1..] == [];
        JoinOne(MemberTexts(members));
      }
    }
  }

  lemma JoinOne(parts: seq<string>)
    requires |parts| == 1
    ensures Join(parts) == parts[0]
  {
  }

  lemma ObjectJoined(members: seq<Member>)
    ensures Text(Obj(members)) == "{" + Join(MemberTexts(members)) + "}"
  {
    hide MemberText;
    if members != [] {
      MembersJoined(members[1..]);
      assert MemberTexts(members)[1..] == MemberTexts(members[1..]);
      if |members| > 1 {
        JoinHead(MemberTexts(members));
      } else {
        assert members[1..] == [];
      }
    }
  }

  /** The text written to a buffer that held `base`, once the first `i` parts follow the opening bracket. */
  ghost predicate Written(text: string, base: string, bracket: string, parts: seq<string>, i: nat)
    requires i <= |parts|
  {
    text == base + bracket + Join(parts[..i])
  }

  lemma WrittenStep(text: string, base: string, bracket: string, parts: seq<string>, i: nat)
    requires i < |parts| && Written(text, base, bracket, parts, i)
    ensures Written((if i > 0 then text + "," else text) + parts[i], base, bracket, parts, i + 1)
  {
    assert parts[..i + 1][..i] == parts[..i];
  }

  lemma NothingWritten(base: string, bracket: string, parts: seq<string>)
    ensures Written(base + bracket, base, bracket, parts, 0)
  {
  }

  lemma AllWritten(base: string, bracket: string, parts: seq<string>)
    ensures forall text :: Written(text, base, bracket, parts, |parts|) ==> text == base + bracket + Join(parts)
  {
    assert parts[..|parts|] == parts;
  }

  /** The canonical texts of array items. */
  function CanonicalItems(items: seq<Json>): (r: seq<string>)
    ensures |r| == |items| && forall i :: 0 <= i < |r| ==> r[i] == Canonical(items[i])
  {
    seq(|items|, i requires 0 <= i < |items| => Canonical(items[i]))
  }

  /** The canonical texts of object members already sorted by key. */
  function CanonicalMembers(sorted: seq<Member>): (r: seq<string>)
    ensures |r| == |sorted| && forall i :: 0 <= i < |r| ==> r[i] == Quote(sorted[i].key) + ":" + Canonical(sorted[i].value)
  {
    seq(|sorted|, i requires 0 <= i < |sorted| => Quote(sorted[i].key) + ":" + Canonical(sorted[i].value))
  }

  lemma CanonicalArray(items: seq<Json>)
    ensures Canonical(Arr(items)) == "[" + Join(CanonicalItems(items)) + "]"
  {
    hide Text, Join;
    ArrayJoined(Ordered(Arr(items)).items);
    assert Texts(Ordered(Arr(items)).items) == CanonicalItems(items);
  }

  lemma CanonicalObject(members: seq<Member>)
    ensures Canonical(Obj(members)) == "{" + Join(CanonicalMembers(SortMembers(members))) + "}"
  {
    hide Text, Join, Quote, SortMembers;
    ObjectJoined(Ordered(Obj(members)).members);
    assert MemberTexts(Ordered(Obj(members)).members) == CanonicalMembers(SortMembers(members));
  }

  /** Append the canonical text of `value`. */
  method WriteCanonicalJson(value: Json, out: TextBuffer)
    modifies out
    ensures out.text == old(out.text) + Canonical(value)
    decreases value
  {
    hide SortMembers, Join, Escape, Before;
    match value {
      case Null => out.Push("null");
      case Bool(b) => out.Push(if b then "true" else "false");
      case Num(n) => out.Push(IntText(n));
      case Str(s) => out.Push(Quote(s));
      case Arr(items) => WriteArray(items, out);
      case Obj(members) => WriteObject(members, out);
    }
  }

  method WriteArray(items: seq<Json>, out: TextBuffer)
    modifies out
    ensures out.text == old(out.text) + Canonical(Arr(items))
    decreases items
  {
    hide Canonical, Written;
    ghost var parts := CanonicalItems(items);
    out.Push("[");
    NothingWritten(old(out.text), "[", parts);
    var i := 0;
    while i < |items|
      invariant 0 <= i <= |items|
      invariant Written(out.text, old(out.text), "[", parts, i)
    {
      WrittenStep(out.text, old(out.text), "[", parts, i);
      if i > 0 {
        out.Push(",");
      }
      WriteCanonicalJson(items[i], out);
      i := i + 1;
    }
    out.Push("]");
    AllWritten(old(out.text), "[", parts);
    CanonicalArray(items);
  }

  method WriteMember(m: Member, out: TextBuffer)
    modifies out
    ensures out.text == old(out.text) + (Quote(m.key) + ":" + Canonical(m.value))
    decreases m
  {
    hide Canonical, Quote;
    out.Push(Quote(m.key));
    out.Push(":");
    WriteCanonicalJson(m.value, out);
  }

  method WriteObject(members: seq<Member>, out: TextBuffer)
    modifies out
    ensures out.text == old(out.text) + Canonical(Obj(members))
    decreases members
  {
    hide Canonical, Written, Quote;
    var entries := SortMembers(members);
    ghost var parts := CanonicalMembers(entries);
    out.Push("{");
    NothingWritten(old(out.text), "{", parts);
    var i := 0;
    while i < |entries|
      invariant 0 <= i <= |entries|
      invariant Written(out.text, old(out.text), "{", parts, i)
    {
      WrittenStep(out.text, old(out.text), "{", parts, i);
      if i > 0 {
        out.Push(",");
      }
      assert entries[i] in members;
      WriteMember(entries[i], out);
      i := i + 1;
    }
    out.Push("}");
    AllWritten(old(out.text), "{", parts);
    CanonicalObject(members);
  }
}
