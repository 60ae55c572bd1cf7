/** Exhaustive tour enumeration (`enumerateAllRoutes` in
    backend/src/services/routeFinderAlgorithm.js).

    The source walks a depth-first search over a JavaScript `Set` of
    unvisited indices, deleting each candidate before the recursive call and
    adding it back afterwards.  Re-adding puts the element at the END of the
    set's insertion order, so the k-th child of a node sees the unvisited
    indices `u[k+1..] + u[..k]` (a rotation), and after the whole loop the set
    is back in its original order.  `Dfs`/`DfsLoop` follow that order, which
    decides the order of the output and so the tie order of the leaderboard.

    The search is O(N!) and only meant for the five-location reference graph. */
module RouteEnumeration {
  import opened RouteCost
  import opened Seqs

  datatype Route = Route(path: seq<nat>, total: int)

  /** The unvisited set as the k-th child of a search node sees it. */
  function Rotation(u: seq<nat>, k: nat): (r: seq<nat>)
    requires k < |u|
    ensures |r| == |u| - 1
  {
    u[k + 1..] + u[..k]
  }

  /** `dfs(path, unvisited)` */
  function Dfs(dist: seq<seq<int>>, includeReturn: bool, path: seq<nat>, unvisited: seq<nat>): seq<Route>
    requires IsSquare(dist) && |path| > 0
    requires IndicesBelow(path, |dist|) && IndicesBelow(unvisited, |dist|)
    decreases |unvisited|, 1, 0
  {
    if |path| == |dist| then [Route(path, TourCost(path, dist, includeReturn))]
    else DfsLoop(dist, includeReturn, path, unvisited, 0)
  }

  /** The `for (const nxt of Array.from(unvisited))` loop of `dfs`, from the k-th candidate on. */
  function DfsLoop(dist: seq<seq<int>>, includeReturn: bool, path: seq<nat>, unvisited: seq<nat>, k: nat): seq<Route>
    requires IsSquare(dist) && |path| > 0
    requires IndicesBelow(path, |dist|) && IndicesBelow(unvisited, |dist|)
    requires k <= |unvisited|
    decreases |unvisited|, 0, |unvisited| - k
  {
    if k == |unvisited| then []
    else
      Dfs(dist, includeReturn, path + [unvisited[k]], Rotation(unvisited, k))
      + DfsLoop(dist, includeReturn, path, unvisited, k + 1)
  }

  /** `[...Array(N).keys()].filter(i => i !== startIdx)` */
  function Others(n: nat, start: nat): (r: seq<nat>)
    requires start < n
    ensures |r| == n - 1
    ensures IndicesBelow(r, n)
  {
    Range(0, start) + Range(start + 1, n)
  }

  /** `enumerateAllRoutes({ startIdx, dist, includeReturn })` */
  function EnumerateAllRoutes(startIdx: nat, dist: seq<seq<int>>, includeReturn: bool): seq<Route>
    requires IsSquare(dist) && startIdx < |dist|
  {
    Dfs(dist, includeReturn, [startIdx], Others(|dist|, startIdx))
  }

  /** A tour of an N-location graph from `start`: N stops, the first one
      `start`, every index 0..N-1 exactly once. */
  predicate IsTour(p: seq<nat>, n: nat, start: nat) {
    |p| == n && n > 0 && p[0] == start && multiset(p) == multiset(Range(0, n))
  }

  function Paths(rs: seq<Route>): (ps: seq<seq<nat>>)
    ensures |ps| == |rs|
    ensures forall i :: 0 <= i < |rs| ==> ps[i] == rs[i].path
  {
    seq(|rs|, i requires 0 <= i < |rs| => rs[i].path)
  }

  // ---------------------------------------------------------------------------
  // Multiset facts
  // ---------------------------------------------------------------------------

  lemma RangeNoDuplicates(lo: nat, hi: nat)
    ensures NoDuplicates(Range(lo, hi))
  {
  }

  /** Start index plus the others is every index. */
  lemma OthersWithStart(n: nat, start: nat)
    requires start < n
    ensures multiset([start]) + multiset(Others(n, start)) == multiset(Range(0, n))
  {
    RangeSplit(0, start, n);
  }

  lemma OthersNoDuplicates(n: nat, start: nat)
    requires start < n
    ensures NoDuplicates(Others(n, start))
  {
    var u := Others(n, start);
    OthersWithStart(n, start);
    RangeNoDuplicates(0, n);
    NoDuplicatesMultiset(Range(0, n));
    assert forall x :: multiset(u)[x] <= multiset(Range(0, n))[x];
    NoDuplicatesMultiset(u);
  }

  lemma {:induction false} RangeSplit(lo: nat, mid: nat, hi: nat)
    requires lo <= mid < hi
    ensures Range(lo, hi) == Range(lo, mid) + [mid] + Range(mid + 1, hi)
  {
    var a, b := Range(lo, hi), Range(lo, mid) + [mid] + Range(mid + 1, hi);
    assert |a| == |b|;
    forall i | 0 <= i < |a|
      ensures a[i] == b[i]
    {
      if i < mid - lo {
      } else if i == mid - lo {
      } else {
        assert b[i] == Range(mid + 1, hi)[i - (mid - lo) - 1];
      }
    }
  }

  lemma RotationMultiset(u: seq<nat>, k: nat)
    requires k < |u|
    ensures multiset{u[k]} + multiset(Rotation(u, k)) == multiset(u)
  {
    assert u == u[..k] + [u[k]] + u[k + 1..];
  }

  lemma RotationNoDuplicates(u: seq<nat>, k: nat)
    requires k < |u| && NoDuplicates(u)
    ensures NoDuplicates(Rotation(u, k))
    ensures u[k] !in Rotation(u, k)
  {
    var r := Rotation(u, k);
    var m := |u| - k - 1;
    assert forall i :: 0 <= i < |r| ==> r[i] == if i < m then u[k + 1 + i] else u[i - m];
  }

  // ---------------------------------------------------------------------------
  // Soundness: every route is a tour of the right cost
  // ---------------------------------------------------------------------------

  /** Every route found below `path` extends `path` by a reordering of the unvisited indices. */
  lemma {:induction false} DfsSound(dist: seq<seq<int>>, includeReturn: bool, path: seq<nat>, u: seq<nat>)
    requires IsSquare(dist) && |path| > 0
    requires IndicesBelow(path, |dist|) && IndicesBelow(u, |dist|)
    requires |path| + |u| == |dist|
    ensures forall r :: r in Dfs(dist, includeReturn, path, u) ==>
              && |r.path| == |dist|
              && r.path[..|path|] == path
              && multiset(r.path[|path|..]) == multiset(u)
              && IndicesBelow(r.path, |dist|)
              && r.total == TourCost(r.path, dist, includeReturn)
    decreases |u|, 1, 0
  {
    if |path| < |dist| {
      DfsLoopSound(dist, includeReturn, path, u, 0);
    } else {
      assert path[|path|..] == [];
    }
  }

  lemma {:induction false} DfsLoopSound(dist: seq<seq<int>>, includeReturn: bool, path: seq<nat>, u: seq<nat>, k: nat)
    requires IsSquare(dist) && |path| > 0
    requires IndicesBelow(path, |dist|) && IndicesBelow(u, |dist|)
    requires |path| + |u| == |dist| && k <= |u|
    ensures forall r :: r in DfsLoop(dist, includeReturn, path, u, k) ==>
              && |r.path| == |dist|
              && r.path[..|path|] == path
              && multiset(r.path[|path|..]) == multiset(u)
              && r.path[|path|] in u[k..]
              && IndicesBelow(r.path, |dist|)
              && r.total == TourCost(r.path, dist, includeReturn)
    decreases |u|, 0, |u| - k
  {
    if k < |u| {
      var child := path + [u[k]];
      var rot := Rotation(u, k);
      DfsSound(dist, includeReturn, child, rot);
      DfsLoopSound(dist, includeReturn, path, u, k + 1);
      RotationMultiset(u, k);
      forall r | r in Dfs(dist, includeReturn, child, rot)
        ensures r.path[..|path|] == path
        ensures multiset(r.path[|path|..]) == multiset(u)
        ensures r.path[|path|] in u[k..]
      {
        assert r.path[..|path|] == r.path[..|child|][..|path|];
        assert r.path[|path|..] == [u[k]] + r.path[|child|..];
        assert r.path[|path|] == r.path[..|child|][|path|];
      }
      forall r | r in DfsLoop(dist, includeReturn, path, u, k + 1)
        ensures r.path[|path|] in u[k..]
      {
        assert u[k + 1..] == u[k..][1..];
      }
    }
  }

  // ---------------------------------------------------------------------------
  // Count: (number of unvisited)! routes
  // ---------------------------------------------------------------------------

  lemma {:induction false} DfsCount(dist: seq<seq<int>>, includeReturn: bool, path: seq<nat>, u: seq<nat>)
    requires IsSquare(dist) && |path| > 0
    requires IndicesBelow(path, |dist|) && IndicesBelow(u, |dist|)
    requires |path| + |u| == |dist|
    ensures |Dfs(dist, includeReturn, path, u)| == Factorial(|u|)
    decreases |u|, 1, 0
  {
    if |path| < |dist| {
      DfsLoopCount(dist, includeReturn, path, u, 0);
    }
  }

  lemma {:induction false} DfsLoopCount(dist: seq<seq<int>>, includeReturn: bool, path: seq<nat>, u: seq<nat>, k: nat)
    requires IsSquare(dist) && |path| > 0
    requires IndicesBelow(path, |dist|) && IndicesBelow(u, |dist|)
    requires |path| + |u| == |dist| && k <= |u| && |u| > 0
    ensures |DfsLoop(dist, includeReturn, path, u, k)| == (|u| - k) * Factorial(|u| - 1)
    decreases |u|, 0, |u| - k
  {
    if k < |u| {
      var f := Factorial(|u| - 1);
      DfsCount(dist, includeReturn, path + [u[k]], Rotation(u, k));
      DfsLoopCount(dist, includeReturn, path, u, k + 1);
      assert (|u| - k) * f == f + (|u| - (k + 1)) * f;
    }
  }

  // ---------------------------------------------------------------------------
  // Distinctness: no tour is produced twice
  // ---------------------------------------------------------------------------

  lemma {:induction false} DfsDistinct(dist: seq<seq<int>>, includeReturn: bool, path: seq<nat>, u: seq<nat>)
    requires IsSquare(dist) && |path| > 0
    requires IndicesBelow(path, |dist|) && IndicesBelow(u, |dist|)
    requires |path| + |u| == |dist| && NoDuplicates(u)
    ensures NoDuplicates(Paths(Dfs(dist, includeReturn, path, u)))
    decreases |u|, 1, 0
  {
    if |path| < |dist| {
      DfsLoopDistinct(dist, includeReturn, path, u, 0);
    }
  }

  lemma {:induction false} DfsLoopDistinct(dist: seq<seq<int>>, includeReturn: bool, path: seq<nat>, u: seq<nat>, k: nat)
    requires IsSquare(dist) && |path| > 0
    requires IndicesBelow(path, |dist|) && IndicesBelow(u, |dist|)
    requires |path| + |u| == |dist| && k <= |u| && NoDuplicates(u)
    ensures NoDuplicates(Paths(DfsLoop(dist, includeReturn, path, u, k)))
    decreases |u|, 0, |u| - k
  {
    if k < |u| {
      var child := path + [u[k]];
      var rot := Rotation(u, k);
      var first := Dfs(dist, includeReturn, child, rot);
      var rest := DfsLoop(dist, includeReturn, path, u, k + 1);
      RotationNoDuplicates(u, k);
      DfsDistinct(dist, includeReturn, child, rot);
      DfsLoopDistinct(dist, includeReturn, path, u, k + 1);
      FirstStopSeparates(dist, includeReturn, path, u, k);
      PathsAppendDistinct(first, rest);
    }
  }

  /** Routes below the k-th child and routes from the later children differ in their next stop. */
  lemma FirstStopSeparates(dist: seq<seq<int>>, includeReturn: bool, path: seq<nat>, u: seq<nat>, k: nat)
    requires IsSquare(dist) && |path| > 0
    requires IndicesBelow(path, |dist|) && IndicesBelow(u, |dist|)
    requires |path| + |u| == |dist| && k < |u| && NoDuplicates(u)
    ensures forall x, y ::
              (x in Dfs(dist, includeReturn, path + [u[k]], Rotation(u, k))
               && y in DfsLoop(dist, includeReturn, path, u, k + 1)) ==> x.path != y.path
  {
    var child := path + [u[k]];
    RotationNoDuplicates(u, k);
    DfsSound(dist, includeReturn, child, Rotation(u, k));
    DfsLoopSound(dist, includeReturn, path, u, k + 1);
    forall x, y | x in Dfs(dist, includeReturn, child, Rotation(u, k))
                  && y in DfsLoop(dist, includeReturn, path, u, k + 1)
      ensures x.path != y.path
    {
      assert x.path[..|child|][|path|] == u[k];
      var m :| k + 1 <= m < |u| && y.path[|path|] == u[m];
    }
  }

  /** Two duplicate-free route lists with no path in common concatenate without duplicates. */
  lemma PathsAppendDistinct(a: seq<Route>, b: seq<Route>)
    requires NoDuplicates(Paths(a)) && NoDuplicates(Paths(b))
    requires forall x, y :: x in a && y in b ==> x.path != y.path
    ensures NoDuplicates(Paths(a + b))
  {
    var all := a + b;
    forall i, j | 0 <= i < j < |all|
      ensures Paths(all)[i] != Paths(all)[j]
    {
      if j < |a| {
        assert Paths(a)[i] == all[i].path && Paths(a)[j] == all[j].path;
      } else if i >= |a| {
        assert Paths(b)[i - |a|] == all[i].path && Paths(b)[j - |a|] == all[j].path;
      } else {
        assert all[i] in a && all[j] in b;
      }
    }
  }

  // ---------------------------------------------------------------------------
  // Completeness: every tour is produced
  // ---------------------------------------------------------------------------

  lemma {:induction false} DfsComplete(dist: seq<seq<int>>, includeReturn: bool, path: seq<nat>, u: seq<nat>, q: seq<nat>)
    requires IsSquare(dist) && |path| > 0
    requires IndicesBelow(path, |dist|) && IndicesBelow(u, |dist|)
    requires |path| + |u| == |dist|
    requires multiset(q) == multiset(u)
    ensures path + q in Paths(Dfs(dist, includeReturn, path, u))
    decreases |u|, 1, 0
  {
    assert |q| == |multiset(q)| == |u|;
    if |u| == 0 {
      assert path + q == path;
      assert Paths(Dfs(dist, includeReturn, path, u))[0] == path;
    } else {
      assert q[0] in multiset(u);
      var k :| 0 <= k < |u| && u[k] == q[0];
      var child := path + [u[k]];
      var rot := Rotation(u, k);
      RotationMultiset(u, k);
      assert q == [q[0]] + q[1..];
      assert multiset(q) == multiset{q[0]} + multiset(q[1..]);
      AddCancel(u[k], multiset(q[1..]), multiset(rot));
      assert IndicesBelow(child, |dist|);
      DfsComplete(dist, includeReturn, child, rot, q[1..]);
      assert child + q[1..] == path + q;
      DfsLoopContains(dist, includeReturn, path, u, 0, k, path + q);
    }
  }

  /** The loop from candidate j on contains what the k-th child produces, for j <= k. */
  lemma {:induction false} DfsLoopContains(dist: seq<seq<int>>, includeReturn: bool, path: seq<nat>, u: seq<nat>, j: nat, k: nat, p: seq<nat>)
    requires IsSquare(dist) && |path| > 0
    requires IndicesBelow(path, |dist|) && IndicesBelow(u, |dist|)
    requires j <= k < |u|
    requires p in Paths(Dfs(dist, includeReturn, path + [u[k]], Rotation(u, k)))
    ensures p in Paths(DfsLoop(dist, includeReturn, path, u, j))
    decreases k - j
  {
    var first := Dfs(dist, includeReturn, path + [u[j]], Rotation(u, j));
    var rest := DfsLoop(dist, includeReturn, path, u, j + 1);
    assert Paths(first + rest) == Paths(first) + Paths(rest);
    if j < k {
      DfsLoopContains(dist, includeReturn, path, u, j + 1, k, p);
    }
  }

  // ---------------------------------------------------------------------------
  // The enumeration as a whole
  // ---------------------------------------------------------------------------

  /** Every enumerated route is a tour from `startIdx` priced by `pathCost`. */
  lemma EnumerationSound(startIdx: nat, dist: seq<seq<int>>, includeReturn: bool)
    requires IsSquare(dist) && startIdx < |dist|
    ensures forall r :: r in EnumerateAllRoutes(startIdx, dist, includeReturn) ==>
              && IsTour(r.path, |dist|, startIdx)
              && IndicesBelow(r.path, |dist|)
              && r.total == TourCost(r.path, dist, includeReturn)
  {
    var u := Others(|dist|, startIdx);
    OthersWithStart(|dist|, startIdx);
    DfsSound(dist, includeReturn, [startIdx], u);
    forall r | r in EnumerateAllRoutes(startIdx, dist, includeReturn)
      ensures IsTour(r.path, |dist|, startIdx)
    {
      assert r.path == r.path[..1] + r.path[1..];
      assert r.path[0] == r.path[..1][0];
    }
  }

  /** There are (N-1)! enumerated routes. */
  lemma EnumerationCount(startIdx: nat, dist: seq<seq<int>>, includeReturn: bool)
    requires IsSquare(dist) && startIdx < |dist|
    ensures |EnumerateAllRoutes(startIdx, dist, includeReturn)| == Factorial(|dist| - 1)
  {
    DfsCount(dist, includeReturn, [startIdx], Others(|dist|, startIdx));
  }

  /** The (N-1)! enumerated routes have pairwise distinct paths. */
  lemma EnumerationCountAndDistinct(startIdx: nat, dist: seq<seq<int>>, includeReturn: bool)
    requires IsSquare(dist) && startIdx < |dist|
    ensures |EnumerateAllRoutes(startIdx, dist, includeReturn)| == Factorial(|dist| - 1)
    ensures NoDuplicates(Paths(EnumerateAllRoutes(startIdx, dist, includeReturn)))
  {
    var u := Others(|dist|, startIdx);
    DfsCount(dist, includeReturn, [startIdx], u);
    OthersNoDuplicates(|dist|, startIdx);
    DfsDistinct(dist, includeReturn, [startIdx], u);
  }

  /** Every tour from `startIdx` is among the enumerated routes. */
  lemma EnumerationComplete(startIdx: nat, dist: seq<seq<int>>, includeReturn: bool, p: seq<nat>)
    requires IsSquare(dist) && startIdx < |dist|
    requires IsTour(p, |dist|, startIdx)
    ensures p in Paths(EnumerateAllRoutes(startIdx, dist, includeReturn))
  {
    var u := Others(|dist|, startIdx);
    OthersWithStart(|dist|, startIdx);
    assert p == [startIdx] + p[1..];
    assert multiset(p) == multiset{startIdx} + multiset(p[1..]);
    assert multiset([startIdx]) == multiset{startIdx};
    AddCancel(startIdx, multiset(p[1..]), multiset(u));
    DfsComplete(dist, includeReturn, [startIdx], u, p[1..]);
  }
}
