/** Searching a string. */
module Infixes {
  import opened Results

  /** Position of the first occurrence of `infix` at or after `i`. */
  function FindInfix(s: string, infix: string, i: nat): (r: Option<nat>)
    ensures r.Some? ==> r.value + |infix| <= |s| && s[r.value..r.value + |infix|] == infix
    decreases |s| - i
  {
    if i + |infix| > |s| then None
    else if s[i..i + |infix|] == infix then Some(i)
    else FindInfix(s, infix, i + 1)
  }

  lemma {:induction false} NoInfix(s: string, infix: string, i: nat)
    requires |infix| > 0 && infix[0] !in s
    ensures FindInfix(s, infix, i) == None
    decreases |s| - i
  {
    if i + |infix| <= |s| {
      assert s[i..i + |infix|][0] == s[i] && s[i] in s;
      NoInfix(s, infix, i + 1);
    }
  }

  ghost predicate OccursAt(s: string, infix: string, i: int) {
    0 <= i && i + |infix| <= |s| && s[i..i + |infix|] == infix
  }

  /** The search finds the first occurrence, if there is one. */
  lemma {:induction false} FindsFirst(s: string, infix: string, from: nat)
    ensures var r := FindInfix(s, infix, from);
      && (r.Some? ==> from <= r.value && OccursAt(s, infix, r.value) && forall i :: from <= i < r.value ==> !OccursAt(s, infix, i))
      && (r.None? ==> forall i :: from <= i ==> !OccursAt(s, infix, i))
    decreases |s| - from
  {
    if from + |infix| <= |s| {
      FindsFirst(s, infix, from + 1);
    }
  }
}
