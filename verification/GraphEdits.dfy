/** How adding one fresh node, or taking nodes away, changes cycles and heights. */
module GraphEdits {
  import opened Graph

  /** `edges` with an edge into `n` from each of `after` and from `n` to each of `before`. */
  ghost function Attach(edges: Edges, n: string, after: set<string>, before: set<string>): Edges {
    edges + (set a | a in after :: (a, n)) + (set b | b in before :: (n, b))
  }

  ghost predicate Untouched(edges: Edges, n: string) {
    forall a, b :: IsEdge(edges, a, b) ==> a != n && b != n
  }

  /** `before` leads back to `after`, directly or along old edges. */
  ghost predicate LeadsBack(edges: Edges, after: set<string>, before: set<string>) {
    exists a, b :: a in after && b in before && (a == b || Reaches(edges, b, a))
  }

  lemma {:induction false} PathMonotone(small: Edges, big: Edges, p: seq<string>)
    requires small <= big && IsPath(small, p)
    ensures IsPath(big, p)
  {
    if |p| > 1 {
      PathMonotone(small, big, p[..|p| - 1]);
    }
  }

  lemma ReachesMonotone(small: Edges, big: Edges, a: string, b: string)
    requires small <= big && Reaches(small, a, b)
    ensures Reaches(big, a, b)
  {
    var p :| PathBetween(small, p, a, b);
    PathMonotone(small, big, p);
    assert PathBetween(big, p, a, b);
  }

  lemma {:induction false} AvoidingPath(edges: Edges, n: string, after: set<string>, before: set<string>, p: seq<string>)
    requires IsPath(Attach(edges, n, after, before), p) && n !in p
    ensures IsPath(edges, p)
  {
    if |p| > 1 {
      assert p[|p| - 2] != n && p[|p| - 1] != n;
      AvoidingPath(edges, n, after, before, p[..|p| - 1]);
    }
  }

  /** The first return to `n` along a path that starts and ends there. */
  lemma {:induction false} FirstReturn(edges: Edges, n: string, p: seq<string>) returns (q: seq<string>)
    requires PathBetween(edges, p, n, n)
    ensures PathBetween(edges, q, n, n)
    ensures forall i :: 0 < i < |q| - 1 ==> q[i] != n
    decreases |p|
  {
    if k :| 0 < k < |p| - 1 && p[k] == n {
      PathPrefix(edges, p, k + 1);
      q := FirstReturn(edges, n, p[..k + 1]);
    } else {
      q := p;
    }
  }

  lemma LoopThroughFreshNode(edges: Edges, n: string, after: set<string>, before: set<string>)
    requires Untouched(edges, n) && Reaches(Attach(edges, n, after, before), n, n)
    ensures n in after || n in before || LeadsBack(edges, after, before)
  {
    var big := Attach(edges, n, after, before);
    var p :| PathBetween(big, p, n, n);
    var q := FirstReturn(big, n, p);
    var last := |q| - 1;
    if last > 1 {
      var inner := q[..last][1..];
      PathPrefix(big, q, last);
      PathSuffix(big, q[..last], 1);
      PathPrefix(big, q, 2);
      assert q[..2][|q[..2]| - 2] == n && q[..2][|q[..2]| - 1] == q[1];
      assert IsEdge(big, n, q[1]) && IsEdge(big, q[last - 1], n);
      assert !IsEdge(edges, n, q[1]) && !IsEdge(edges, q[last - 1], n);
      if n !in after && n !in before {
        assert q[1] in before && q[last - 1] in after;
        AvoidingPath(edges, n, after, before, inner);
        if last > 2 {
          assert PathBetween(edges, inner, q[1], q[last - 1]);
        }
      }
    } else {
      assert IsEdge(big, n, n) && !IsEdge(edges, n, n);
    }
  }

  lemma {:induction false} CycleThrough(edges: Edges, p: seq<string>, k: nat)
    requires k < |p| && PathBetween(edges, p, p[0], p[0])
    ensures Reaches(edges, p[k], p[k])
  {
    var last := |p| - 1;
    if k == 0 || k == last {
      assert PathBetween(edges, p, p[k], p[k]);
    } else {
      PathPrefix(edges, p, k + 1);
      PathSuffix(edges, p, k);
      assert PathBetween(edges, p[..k + 1], p[0], p[k]);
      assert PathBetween(edges, p[k..], p[k], p[0]);
      ReachesTransitive(edges, p[k], p[0], p[k]);
    }
  }

  /** Adding a fresh node closes a cycle exactly when it is its own neighbour or `before` leads back to `after`. */
  lemma AttachCycle(edges: Edges, n: string, after: set<string>, before: set<string>)
    requires Untouched(edges, n)
    ensures HasCycle(Attach(edges, n, after, before))
            <==> HasCycle(edges) || n in after || n in before || LeadsBack(edges, after, before)
  {
    var big := Attach(edges, n, after, before);
    if HasCycle(big) {
      var x :| Reaches(big, x, x);
      var p :| PathBetween(big, p, x, x);
      if k :| 0 <= k < |p| && p[k] == n {
        CycleThrough(big, p, k);
        LoopThroughFreshNode(edges, n, after, before);
      } else {
        AvoidingPath(edges, n, after, before, p);
        assert PathBetween(edges, p, x, x);
        assert Reaches(edges, x, x);
      }
    }
    if HasCycle(edges) {
      var x :| Reaches(edges, x, x);
      ReachesMonotone(edges, big, x, x);
    }
    if n in after || n in before {
      assert IsEdge(big, n, n);
      EdgeReaches(big, n, n);
    }
    if LeadsBack(edges, after, before) {
      var a, b :| a in after && b in before && (a == b || Reaches(edges, b, a));
      assert IsEdge(big, a, n) && IsEdge(big, n, b);
      EdgeReaches(big, a, n);
      EdgeReaches(big, n, b);
      if a != b {
        ReachesMonotone(edges, big, b, a);
        ReachesTransitive(big, n, b, a);
      }
      ReachesTransitive(big, n, a, n);
    }
  }

  lemma SubgraphKeepsAcyclic(small: Edges, big: Edges)
    requires small <= big && !HasCycle(big)
    ensures !HasCycle(small)
  {
    if x :| Reaches(small, x, x) {
      ReachesMonotone(small, big, x, x);
    }
  }

  lemma SubgraphLowersHeight(small: Edges, big: Edges, n: string, g: nat, h: nat)
    requires small <= big && HasHeight(small, n, g) && HasHeight(big, n, h)
    ensures g <= h
  {
    var p :| PathTo(small, p, n) && |p| == g + 1;
    PathMonotone(small, big, p);
    assert PathTo(big, p, n);
  }
}
