/** Integers read as double-precision numbers: rounding to 53 significant bits, ties to even. */
module Doubles {

  const EXACT_LIMIT := 0x20_0000_0000_0000

  /** How the bits dropped so far compare to half a unit of the last bit kept. */
  datatype Tail = Zero | BelowHalf | Half | AboveHalf

  function TailRank(f: Tail): nat {
    match f case Zero => 0 case BelowHalf => 1 case Half => 2 case AboveHalf => 3
  }

  /** Drop one more bit in front of the tail. */
  function DropBit(odd: bool, f: Tail): Tail {
    if odd then if f == Zero then Half else AboveHalf
    else if f == Zero then Zero else BelowHalf
  }

  /** The double nearest to `n` and its dropped tail, the even one if two are equally near. */
  function Round(n: nat, f: Tail): nat {
    if n < EXACT_LIMIT then if f == AboveHalf || (f == Half && n % 2 == 1) then n + 1 else n
    else 2 * Round(n / 2, DropBit(n % 2 == 1, f))
  }

  function Double(n: int): int {
    if n < 0 then 0 - Round(-n, Zero) else Round(n, Zero)
  }

  // ---- Rounding keeps order ----

  lemma {:induction false} RoundIsLarge(n: nat, f: Tail)
    requires n >= EXACT_LIMIT
    ensures Round(n, f) >= EXACT_LIMIT
  {
    if n / 2 >= EXACT_LIMIT {
      RoundIsLarge(n / 2, DropBit(n % 2 == 1, f));
    }
  }

  lemma {:induction false} RoundOrder(a: nat, f: Tail, b: nat, g: Tail)
    requires a < b || (a == b && TailRank(f) <= TailRank(g))
    ensures Round(a, f) <= Round(b, g)
    decreases a
  {
    if a >= EXACT_LIMIT {
      RoundOrder(a / 2, DropBit(a % 2 == 1, f), b / 2, DropBit(b % 2 == 1, g));
    } else if b >= EXACT_LIMIT {
      RoundIsLarge(b, g);
    }
  }

  /** Reading integers as doubles never reverses their order, though it may make different ones equal. */
  lemma DoubleOrder(a: int, b: int)
    requires a <= b
    ensures Double(a) <= Double(b)
  {
    if a >= 0 {
      RoundOrder(a, Zero, b, Zero);
    } else if b < 0 {
      RoundOrder(-b, Zero, -a, Zero);
    }
  }

  /** Integers of at most 53 bits are read exactly, and so are the powers of two after them. */
  lemma SmallExact(n: int)
    requires -EXACT_LIMIT <= n <= EXACT_LIMIT
    ensures Double(n) == n
  {
    assert Round(EXACT_LIMIT / 2, Zero) == EXACT_LIMIT / 2;
  }

  // ---- Rounding goes to the nearest ----

  function Pow2(k: nat): (p: nat)
    ensures p > 0
  {
    if k == 0 then 1 else 2 * Pow2(k - 1)
  }

  /** The tail tells how `t` compares to half of the unit `u`. */
  predicate IsTail(f: Tail, t: nat, u: nat) {
    match f
    case Zero => t == 0 && u > 0
    case BelowHalf => 0 < t && 2 * t < u
    case Half => 0 < t && 2 * t == u
    case AboveHalf => u < 2 * t && t < u
  }

  function Distance(a: int, b: int): int {
    if a < b then b - a else a - b
  }

  /** `m` units are nearest to `n`, and an even number of them if another number is as near. */
  predicate Nearest(n: int, m: int, unit: int) {
    2 * Distance(n, m * unit) <= unit && (2 * Distance(n, m * unit) == unit ==> m % 2 == 0)
  }

  lemma UnitsHere(n: nat, f: Tail, t: nat, u: nat)
    requires IsTail(f, t, u)
    ensures Nearest(n * u + t, if f == AboveHalf || (f == Half && n % 2 == 1) then n + 1 else n, u)
  {
    assert (n + 1) * u == n * u + u;
  }

  lemma SplitUnit(n: nat, t: nat, u: nat)
    ensures n * u + t == (n / 2) * (2 * u) + (if n % 2 == 1 then u + t else t)
  {
    assert n * u == (2 * (n / 2) + n % 2) * u;
  }

  lemma Halves(m: nat, q: nat, u: nat)
    ensures m * (2 * q) == 2 * (m * q) && q * (2 * u) == (2 * q) * u
  {
  }

  lemma DropBitIsTail(odd: bool, f: Tail, t: nat, u: nat)
    requires IsTail(f, t, u)
    ensures IsTail(DropBit(odd, f), if odd then u + t else t, 2 * u)
  {
  }

  lemma {:induction false} RoundIsNearest(n: nat, f: Tail, t: nat, u: nat, k: nat) returns (m: nat)
    requires IsTail(f, t, u) && n < EXACT_LIMIT * Pow2(k) && (k > 0 ==> EXACT_LIMIT / 2 * Pow2(k) <= n)
    ensures Round(n, f) == m * Pow2(k) && Nearest(n * u + t, m, Pow2(k) * u)
    decreases k
  {
    hide Nearest, IsTail, DropBit;
    if k == 0 {
      m := Round(n, f);
      UnitsHere(n, f, t, u);
    } else {
      var odd := n % 2 == 1;
      DropBitIsTail(odd, f, t, u);
      SplitUnit(n, t, u);
      var q := Pow2(k - 1);
      assert Pow2(k) == 2 * q;
      m := RoundIsNearest(n / 2, DropBit(odd, f), if odd then u + t else t, 2 * u, k - 1);
      Halves(m, q, u);
    }
  }

  /** An integer of 53 bits and `k` more is read as the nearest multiple of 2 to the `k`, the even one if two are
      equally near; a negative one as its opposite. */
  lemma DoubleIsNearest(n: nat, k: nat)
    requires EXACT_LIMIT / 2 * Pow2(k) <= n < EXACT_LIMIT * Pow2(k)
    ensures exists m: nat :: Double(n) == m * Pow2(k) && Nearest(n, m, Pow2(k))
    ensures Double(0 - n) == 0 - Double(n)
  {
    var m := RoundIsNearest(n, Zero, 0, 1, k);
    assert n * 1 + 0 == n && Pow2(k) * 1 == Pow2(k);
  }

  // ---- Bounds ----

  /** No smaller integer reads like `n`. */
  predicate SharpFromBelow(n: int) {
    Double(n - 1) < Double(n)
  }

  /** No larger integer reads like `n`. */
  predicate SharpFromAbove(n: int) {
    Double(n) < Double(n + 1)
  }

  /** Comparing doubles decides a lower bound, for every integer, exactly when the bound is sharp. */
  lemma LowerBoundExactly(n: int)
    ensures (forall v: int :: Double(v) < Double(n) <==> v < n) <==> SharpFromBelow(n)
  {
    hide Double;
    assert n - 1 < n;
    forall v: int
      ensures v < n ==> Double(v) <= Double(n - 1)
      ensures v >= n ==> Double(v) >= Double(n)
    {
      if v < n { DoubleOrder(v, n - 1); } else { DoubleOrder(n, v); }
    }
  }

  /** Comparing doubles decides an upper bound, for every integer, exactly when the bound is sharp. */
  lemma UpperBoundExactly(n: int)
    ensures (forall v: int :: Double(v) > Double(n) <==> v > n) <==> SharpFromAbove(n)
  {
    hide Double;
    assert n + 1 > n;
    forall v: int
      ensures v > n ==> Double(v) >= Double(n + 1)
      ensures v <= n ==> Double(v) <= Double(n)
    {
      if v > n { DoubleOrder(n + 1, v); } else { DoubleOrder(v, n); }
    }
  }

  /** Bounds within 53 bits are sharp. */
  lemma SmallBoundsSharp(n: int)
    ensures -EXACT_LIMIT < n <= EXACT_LIMIT ==> SharpFromBelow(n)
    ensures -EXACT_LIMIT <= n < EXACT_LIMIT ==> SharpFromAbove(n)
  {
    hide Double;
    if -EXACT_LIMIT <= n - 1 && n <= EXACT_LIMIT {
      SmallExact(n - 1);
      SmallExact(n);
    }
    if -EXACT_LIMIT <= n && n + 1 <= EXACT_LIMIT {
      SmallExact(n);
      SmallExact(n + 1);
    }
  }

  /** The first bound that is not sharp: one more than the limit reads like the limit. */
  lemma FirstBlurredBound()
    ensures Double(EXACT_LIMIT + 1) == Double(EXACT_LIMIT) == EXACT_LIMIT
    ensures !SharpFromBelow(EXACT_LIMIT + 1) && !SharpFromAbove(EXACT_LIMIT)
  {
    SmallExact(EXACT_LIMIT);
    assert Round(EXACT_LIMIT / 2, Half) == EXACT_LIMIT / 2;
  }
}
