/** Paths, cycles and heights of a finite directed graph on node ids. */
module Graph {
  type Edges = set<(string, string)>

  ghost predicate IsEdge(edges: Edges, a: string, b: string) {
    (a, b) in edges
  }

  /** A non-empty walk along edges; its length is `|p| - 1`. */
  ghost predicate IsPath(edges: Edges, p: seq<string>) {
    && |p| >= 1
    && (|p| == 1 || (IsEdge(edges, p[|p| - 2], p[|p| - 1]) && IsPath(edges, p[..|p| - 1])))
  }

  ghost predicate PathBetween(edges: Edges, p: seq<string>, a: string, b: string) {
    |p| >= 2 && IsPath(edges, p) && p[0] == a && p[|p| - 1] == b
  }

  /** `a` is a strict ancestor of `b`. */
  ghost predicate Reaches(edges: Edges, a: string, b: string) {
    exists p :: PathBetween(edges, p, a, b)
  }

  ghost predicate HasCycle(edges: Edges) {
    exists n :: Reaches(edges, n, n)
  }

  ghost predicate PathTo(edges: Edges, p: seq<string>, n: string) {
    IsPath(edges, p) && p[|p| - 1] == n
  }

  /** The longest path that ends at `n` has exactly `h` edges. */
  ghost predicate HasHeight(edges: Edges, n: string, h: nat) {
    && (exists p :: PathTo(edges, p, n) && |p| == h + 1)
    && (forall p :: PathTo(edges, p, n) ==> |p| <= h + 1)
  }

  lemma EdgeReaches(edges: Edges, a: string, b: string)
    requires IsEdge(edges, a, b)
    ensures IsPath(edges, [a, b])
    ensures Reaches(edges, a, b)
  {
    var p := [a, b];
    assert p[..1] == [a];
    assert IsPath(edges, p[..|p| - 1]);
    assert PathBetween(edges, p, a, b);
  }

  lemma {:induction false} JoinPaths(edges: Edges, p: seq<string>, q: seq<string>)
    requires IsPath(edges, p) && IsPath(edges, q) && p[|p| - 1] == q[0]
    ensures IsPath(edges, p + q[1..])
    ensures (p + q[1..])[|p| + |q| - 2] == q[|q| - 1]
  {
    if |q| == 1 {
      assert p + q[1..] == p;
    } else {
      var q' := q[..|q| - 1];
      JoinPaths(edges, p, q');
      var r := p + q[1..];
      assert r[..|r| - 1] == p + q'[1..];
    }
  }

  lemma {:induction false} PathPrefix(edges: Edges, p: seq<string>, k: nat)
    requires IsPath(edges, p) && 0 < k <= |p|
    ensures IsPath(edges, p[..k])
  {
    if k == |p| {
      assert p[..k] == p;
    } else {
      var q := p[..|p| - 1];
      PathPrefix(edges, q, k);
      assert q[..k] == p[..k];
    }
  }

  lemma {:induction false} PathSuffix(edges: Edges, p: seq<string>, k: nat)
    requires IsPath(edges, p) && k < |p|
    ensures IsPath(edges, p[k..])
  {
    if k < |p| - 1 {
      var q := p[..|p| - 1];
      PathSuffix(edges, q, k);
      var r := p[k..];
      assert r[..|r| - 1] == q[k..];
    }
  }

  lemma ReachesTransitive(edges: Edges, a: string, b: string, c: string)
    requires Reaches(edges, a, b) && Reaches(edges, b, c)
    ensures Reaches(edges, a, c)
  {
    var p :| PathBetween(edges, p, a, b);
    var q :| PathBetween(edges, q, b, c);
    JoinPaths(edges, p, q);
    assert PathBetween(edges, p + q[1..], a, c);
  }

  /** A reaching path ends with an edge from a direct predecessor that is `a` or reached from `a`. */
  lemma ReachesLastEdge(edges: Edges, a: string, b: string) returns (pred: string)
    requires Reaches(edges, a, b)
    ensures IsEdge(edges, pred, b)
    ensures pred == a || Reaches(edges, a, pred)
  {
    var p :| PathBetween(edges, p, a, b);
    pred := p[|p| - 2];
    if |p| > 2 {
      assert PathBetween(edges, p[..|p| - 1], a, pred);
    }
  }

  /** Pigeonhole: a sequence longer than the set it is drawn from repeats an element. */
  lemma {:induction false} Pigeonhole(p: seq<string>, s: set<string>) returns (i: nat, j: nat)
    requires forall k :: 0 <= k < |p| ==> p[k] in s
    requires |p| > |s|
    ensures i < j < |p| && p[i] == p[j]
    decreases |s|
  {
    var last := |p| - 1;
    if k :| 0 <= k < last && p[k] == p[last] {
      return k, last;
    }
    i, j := Pigeonhole(p[..last], s - {p[last]});
  }

  ghost predicate HasPredIn(edges: Edges, s: set<string>, n: string) {
    exists d :: d in s && IsEdge(edges, d, n)
  }

  lemma {:induction false} BackwardWalk(edges: Edges, s: set<string>, k: nat) returns (p: seq<string>)
    requires s != {}
    requires forall n {:trigger HasPredIn(edges, s, n)} :: n in s ==> HasPredIn(edges, s, n)
    ensures IsPath(edges, p) && |p| == k + 1
    ensures forall i :: 0 <= i < |p| ==> p[i] in s
  {
    if k == 0 {
      var n :| n in s;
      p := [n];
    } else {
      var q := BackwardWalk(edges, s, k - 1);
      assert q[0] in s && HasPredIn(edges, s, q[0]);
      var d :| d in s && IsEdge(edges, d, q[0]);
      EdgeReaches(edges, d, q[0]);
      JoinPaths(edges, [d, q[0]], q);
      p := [d, q[0]] + q[1..];
    }
  }

  /** A non-empty finite set in which every node keeps a predecessor contains a cycle. */
  lemma StuckSetHasCycle(edges: Edges, s: set<string>)
    requires s != {}
    requires forall n {:trigger HasPredIn(edges, s, n)} :: n in s ==> HasPredIn(edges, s, n)
    ensures HasCycle(edges)
  {
    var p := BackwardWalk(edges, s, |s|);
    var i, j := Pigeonhole(p, s);
    PathPrefix(edges, p, j + 1);
    PathSuffix(edges, p[..j + 1], i);
    var c := p[..j + 1][i..];
    assert PathBetween(edges, c, p[i], p[i]);
    assert Reaches(edges, p[i], p[i]);
  }

  /** A rank of nodes that grows along every edge into them. */
  ghost predicate Rises(edges: Edges, rank: map<string, nat>) {
    forall d, n :: n in rank && IsEdge(edges, d, n) ==> d in rank && rank[d] < rank[n]
  }

  ghost predicate HasPredOneBelow(edges: Edges, rank: map<string, nat>, n: string)
    requires n in rank
  {
    exists d :: IsEdge(edges, d, n) && d in rank && rank[d] + 1 == rank[n]
  }

  /** Every node of positive rank has a predecessor exactly one below. */
  ghost predicate StepsByOne(edges: Edges, rank: map<string, nat>) {
    forall n :: n in rank && rank[n] > 0 ==> HasPredOneBelow(edges, rank, n)
  }

  /** A rank that grows along every edge bounds path lengths. */
  lemma {:induction false} RankBoundsPath(edges: Edges, rank: map<string, nat>, p: seq<string>)
    requires IsPath(edges, p) && Rises(edges, rank) && p[|p| - 1] in rank
    ensures p[0] in rank
    ensures rank[p[0]] + |p| - 1 <= rank[p[|p| - 1]]
  {
    if |p| > 1 {
      RankBoundsPath(edges, rank, p[..|p| - 1]);
    }
  }

  lemma RankExcludesCycle(edges: Edges, rank: map<string, nat>)
    requires Rises(edges, rank) && forall d, n :: IsEdge(edges, d, n) ==> n in rank
    ensures !HasCycle(edges)
  {
    hide Rises;
    if n :| Reaches(edges, n, n) {
      var p :| PathBetween(edges, p, n, n);
      RankBoundsPath(edges, rank, p);
    }
  }

  /** Some path to a node is as long as its rank. */
  lemma {:induction false} PathOfRank(edges: Edges, rank: map<string, nat>, n: string) returns (p: seq<string>)
    requires StepsByOne(edges, rank) && n in rank
    ensures PathTo(edges, p, n) && |p| == rank[n] + 1
    decreases rank[n]
  {
    if rank[n] == 0 {
      p := [n];
    } else {
      assert HasPredOneBelow(edges, rank, n);
      var d :| IsEdge(edges, d, n) && d in rank && rank[d] + 1 == rank[n];
      var q := PathOfRank(edges, rank, d);
      p := q + [n];
      ExtendPath(edges, q, d, n);
    }
  }

  lemma ExtendPath(edges: Edges, q: seq<string>, d: string, n: string)
    requires PathTo(edges, q, d) && IsEdge(edges, d, n)
    ensures PathTo(edges, q + [n], n)
  {
    assert (q + [n])[..|q|] == q;
  }

  /** A rank that rises along every edge and steps by one is the height. */
  lemma RankIsHeight(edges: Edges, rank: map<string, nat>, n: string)
    requires Rises(edges, rank) && StepsByOne(edges, rank) && n in rank
    ensures HasHeight(edges, n, rank[n])
  {
    hide Rises, StepsByOne, IsPath;
    var p := PathOfRank(edges, rank, n);
    forall q | PathTo(edges, q, n)
      ensures |q| <= rank[n] + 1
    {
      PathNonEmpty(edges, q);
      RankBoundsPath(edges, rank, q);
    }
  }

  lemma PathNonEmpty(edges: Edges, p: seq<string>)
    requires IsPath(edges, p)
    ensures |p| >= 1
  {
  }

  lemma HeightUnique(edges: Edges, n: string, g: nat, h: nat)
    requires HasHeight(edges, n, g) && HasHeight(edges, n, h)
    ensures g == h
  {
    var p :| PathTo(edges, p, n) && |p| == g + 1;
    var q :| PathTo(edges, q, n) && |q| == h + 1;
  }

  /** Heights grow strictly along an edge. */
  lemma EdgeRaisesHeight(edges: Edges, d: string, n: string, g: nat, h: nat)
    requires IsEdge(edges, d, n) && HasHeight(edges, d, g) && HasHeight(edges, n, h)
    ensures g < h
  {
    var q :| PathTo(edges, q, d) && |q| == g + 1;
    ExtendPath(edges, q, d, n);
  }
}
