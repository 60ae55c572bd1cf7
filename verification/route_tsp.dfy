/** Exact TSP by brute force (`tspBrute` in
    backend/src/services/routeFinderAlgorithm.js): Heap's algorithm lists the
    orders of the non-start locations, and a scan keeps the first cheapest
    tour.  Because the comparison is a strict `<`, a later tour of equal cost
    never replaces an earlier one.

    The source calls `heap(rest)` with `k = rest.length`; with one location
    `rest` is empty, `k` starts at 0 and the recursion `heap(a, k - 1)` never
    reaches `k === 1`, so at least two locations are required here. */
module RouteTsp {
  import opened Js
  import opened Seqs
  import opened RouteCost
  import opened RouteEnumeration
  import opened HeapPermutations

  /** Every candidate order only names locations of the graph. */
  predicate AllBelow(perms: seq<seq<nat>>, n: nat) {
    forall p :: p in perms ==> IndicesBelow(p, n)
  }

  /** `pathCost([startIdx, ...p], dist, includeReturn)` */
  function Cost(startIdx: nat, dist: seq<seq<int>>, includeReturn: bool, p: seq<nat>): int
    requires IsSquare(dist) && startIdx < |dist| && IndicesBelow(p, |dist|)
  {
    TourCost([startIdx] + p, dist, includeReturn)
  }

  /** The tour `[startIdx, ...p]` and its cost. */
  function Candidate(startIdx: nat, dist: seq<seq<int>>, includeReturn: bool, p: seq<nat>): (r: Route)
    requires IsSquare(dist) && startIdx < |dist| && IndicesBelow(p, |dist|)
  {
    Route([startIdx] + p, Cost(startIdx, dist, includeReturn, p))
  }

  /** `perms[j]` is the first candidate of least cost. */
  predicate FirstLeast(startIdx: nat, dist: seq<seq<int>>, includeReturn: bool, perms: seq<seq<nat>>, j: nat)
    requires IsSquare(dist) && startIdx < |dist| && AllBelow(perms, |dist|)
  {
    && j < |perms|
    && (forall m :: 0 <= m < |perms| ==>
          Cost(startIdx, dist, includeReturn, perms[j]) <= Cost(startIdx, dist, includeReturn, perms[m]))
    && (forall m :: 0 <= m < j ==>
          Cost(startIdx, dist, includeReturn, perms[m]) > Cost(startIdx, dist, includeReturn, perms[j]))
  }

  /** The `for (const p of perms)` scan with `if (cost < bestCost)`; `None`
      stands for the initial `bestPath = null, bestCost = Infinity`. */
  function ScanBest(startIdx: nat, dist: seq<seq<int>>, includeReturn: bool,
                    perms: seq<seq<nat>>, best: Option<Route>): (r: Option<Route>)
    requires IsSquare(dist) && startIdx < |dist| && AllBelow(perms, |dist|)
    ensures r.None? <==> best.None? && |perms| == 0
    decreases |perms|
  {
    if |perms| == 0 then best
    else
      var cand := Candidate(startIdx, dist, includeReturn, perms[0]);
      var next := if best.None? || cand.total < best.value.total then Some(cand) else best;
      ScanBest(startIdx, dist, includeReturn, perms[1..], next)
  }

  /** From nothing, the scan ends on the first candidate of least cost. From
      `best`, it keeps `best` when no candidate is cheaper, and otherwise ends
      on the first candidate of least cost, which is then cheaper than `best`. */
  lemma {:induction false} ScanBestFirstLeast(startIdx: nat, dist: seq<seq<int>>, includeReturn: bool,
                                              perms: seq<seq<nat>>, best: Option<Route>)
    requires IsSquare(dist) && startIdx < |dist| && AllBelow(perms, |dist|)
    ensures best.None? && |perms| > 0 ==>
              exists j: nat :: FirstLeast(startIdx, dist, includeReturn, perms, j)
                && ScanBest(startIdx, dist, includeReturn, perms, best) == Some(Candidate(startIdx, dist, includeReturn, perms[j]))
    ensures best.Some? ==>
              || (&& ScanBest(startIdx, dist, includeReturn, perms, best) == best
                  && forall m :: 0 <= m < |perms| ==> best.value.total <= Cost(startIdx, dist, includeReturn, perms[m]))
              || exists j: nat :: FirstLeast(startIdx, dist, includeReturn, perms, j)
                   && Cost(startIdx, dist, includeReturn, perms[j]) < best.value.total
                   && ScanBest(startIdx, dist, includeReturn, perms, best) == Some(Candidate(startIdx, dist, includeReturn, perms[j]))
    decreases |perms|
  {
    if |perms| > 0 {
      var tail := perms[1..];
      var cand := Candidate(startIdx, dist, includeReturn, perms[0]);
      var next := if best.None? || cand.total < best.value.total then Some(cand) else best;
      assert AllBelow(tail, |dist|) by {
        forall p | p in tail
          ensures p in perms
        {
          var i :| 0 <= i < |tail| && tail[i] == p;
          assert perms[i + 1] == p;
        }
      }
      ScanBestFirstLeast(startIdx, dist, includeReturn, tail, next);
      var r := ScanBest(startIdx, dist, includeReturn, tail, next);
      assert ScanBest(startIdx, dist, includeReturn, perms, best) == r;
      if r == next && forall m :: 0 <= m < |tail| ==> next.value.total <= Cost(startIdx, dist, includeReturn, tail[m]) {
        if next == Some(cand) {
          HeadIsFirstLeast(startIdx, dist, includeReturn, perms);
        }
      } else {
        var j: nat :| FirstLeast(startIdx, dist, includeReturn, tail, j)
                 && Cost(startIdx, dist, includeReturn, tail[j]) < next.value.total
                 && r == Some(Candidate(startIdx, dist, includeReturn, tail[j]));
        ShiftFirstLeast(startIdx, dist, includeReturn, perms, j);
        assert tail[j] == perms[j + 1];
      }
    }
  }

  lemma HeadIsFirstLeast(startIdx: nat, dist: seq<seq<int>>, includeReturn: bool, perms: seq<seq<nat>>)
    requires IsSquare(dist) && startIdx < |dist| && AllBelow(perms, |dist|) && |perms| > 0
    requires AllBelow(perms[1..], |dist|)
    requires forall m :: 0 <= m < |perms| - 1 ==>
               Cost(startIdx, dist, includeReturn, perms[0]) <= Cost(startIdx, dist, includeReturn, perms[1..][m])
    ensures FirstLeast(startIdx, dist, includeReturn, perms, 0)
  {
    forall m | 0 < m < |perms|
      ensures Cost(startIdx, dist, includeReturn, perms[0]) <= Cost(startIdx, dist, includeReturn, perms[m])
    {
      assert perms[m] == perms[1..][m - 1];
    }
  }

  lemma ShiftFirstLeast(startIdx: nat, dist: seq<seq<int>>, includeReturn: bool, perms: seq<seq<nat>>, j: nat)
    requires IsSquare(dist) && startIdx < |dist| && AllBelow(perms, |dist|) && |perms| > 0
    requires AllBelow(perms[1..], |dist|)
    requires FirstLeast(startIdx, dist, includeReturn, perms[1..], j)
    requires Cost(startIdx, dist, includeReturn, perms[1..][j]) < Cost(startIdx, dist, includeReturn, perms[0])
    ensures FirstLeast(startIdx, dist, includeReturn, perms, j + 1)
  {
    var tail := perms[1..];
    assert perms[j + 1] == tail[j];
    forall m | 0 < m < |perms|
      ensures Cost(startIdx, dist, includeReturn, perms[j + 1]) <= Cost(startIdx, dist, includeReturn, perms[m])
    {
      assert perms[m] == tail[m - 1];
    }
    forall m | 0 < m < j + 1
      ensures Cost(startIdx, dist, includeReturn, perms[m]) > Cost(startIdx, dist, includeReturn, perms[j + 1])
    {
      assert perms[m] == tail[m - 1];
    }
  }

  /** The orders `heap(rest)` pushes, `rest` being every index but `startIdx`. */
  function Candidates(startIdx: nat, n: nat): (perms: seq<seq<nat>>)
    requires startIdx < n && n >= 2
  {
    var rest := Others(n, startIdx);
    Heap(rest, |rest|).perms
  }

  /** Each candidate is an order of all the non-start locations. */
  lemma CandidatesArrange(startIdx: nat, n: nat)
    requires startIdx < n && n >= 2
    ensures |Candidates(startIdx, n)| == Factorial(n - 1)
    ensures forall p: seq<nat> :: p in Candidates(startIdx, n) ==>
              |p| == n - 1 && multiset(p) == multiset(Others(n, startIdx)) && IndicesBelow(p, n)
  {
    var rest := Others(n, startIdx);
    HeapCount(rest, |rest|);
    HeapArranges(rest, |rest|);
    forall p: seq<nat> | p in Candidates(startIdx, n)
      ensures |p| == n - 1 && multiset(p) == multiset(rest) && IndicesBelow(p, n)
    {
      FullArrangement(p, rest, n);
    }
  }

  /** A reordering of all of `a` names the same locations as `a`. */
  lemma FullArrangement(p: seq<nat>, a: seq<nat>, n: nat)
    requires IsArrangement(p, a, |a|) && IndicesBelow(a, n)
    ensures |p| == |a| && multiset(p) == multiset(a) && IndicesBelow(p, n)
  {
    assert p[..|a|] == p && a[..|a|] == a;
    forall i | 0 <= i < |p|
      ensures p[i] < n
    {
      assert p[i] in multiset(a);
    }
  }

  /** `tspBrute({ startIdx, dist, includeReturn })`: the first candidate of
      least cost among those `heap(rest)` pushes. */
  function TspBrute(startIdx: nat, dist: seq<seq<int>>, includeReturn: bool): (r: Route)
    requires IsSquare(dist) && startIdx < |dist| && |dist| >= 2
    ensures var perms := Candidates(startIdx, |dist|);
            && AllBelow(perms, |dist|)
            && exists j: nat :: FirstLeast(startIdx, dist, includeReturn, perms, j)
                 && r == Candidate(startIdx, dist, includeReturn, perms[j])
  {
    var perms := Candidates(startIdx, |dist|);
    CandidatesArrange(startIdx, |dist|);
    ScanBestFirstLeast(startIdx, dist, includeReturn, perms, None);
    ScanBest(startIdx, dist, includeReturn, perms, None).value
  }

  /** The tour `tspBrute` returns visits every location once, from `startIdx`,
      and its total is `pathCost` of its path. */
  lemma TspIsTour(startIdx: nat, dist: seq<seq<int>>, includeReturn: bool)
    requires IsSquare(dist) && startIdx < |dist| && |dist| >= 2
    ensures var r := TspBrute(startIdx, dist, includeReturn);
            && IsTour(r.path, |dist|, startIdx)
            && IndicesBelow(r.path, |dist|)
            && r.total == TourCost(r.path, dist, includeReturn)
  {
    var r := TspBrute(startIdx, dist, includeReturn);
    var perms := Candidates(startIdx, |dist|);
    CandidatesArrange(startIdx, |dist|);
    var j: nat :| FirstLeast(startIdx, dist, includeReturn, perms, j)
             && r == Candidate(startIdx, dist, includeReturn, perms[j]);
    assert perms[j] in perms;
    CandidateIsTour(startIdx, dist, includeReturn, perms[j]);
  }

  /** `[startIdx, ...p]` for an order `p` of the other locations is a tour. */
  lemma CandidateIsTour(startIdx: nat, dist: seq<seq<int>>, includeReturn: bool, p: seq<nat>)
    requires IsSquare(dist) && startIdx < |dist|
    requires |p| == |dist| - 1 && multiset(p) == multiset(Others(|dist|, startIdx)) && IndicesBelow(p, |dist|)
    ensures var r := Candidate(startIdx, dist, includeReturn, p);
            && IsTour(r.path, |dist|, startIdx)
            && IndicesBelow(r.path, |dist|)
            && r.total == TourCost(r.path, dist, includeReturn)
  {
    OthersWithStart(|dist|, startIdx);
    assert multiset([startIdx] + p) == multiset([startIdx]) + multiset(p);
  }

  /** With at most five locations `heap(rest)` pushes every order, so the
      tour `tspBrute` returns costs no more than any tour from `startIdx`. */
  lemma TspIsOptimal(startIdx: nat, dist: seq<seq<int>>, includeReturn: bool, q: seq<nat>)
    requires IsSquare(dist) && startIdx < |dist| && 2 <= |dist| <= 5
    requires IsTour(q, |dist|, startIdx) && IndicesBelow(q, |dist|)
    ensures TspBrute(startIdx, dist, includeReturn).total <= TourCost(q, dist, includeReturn)
  {
    var n := |dist|;
    var rest := Others(n, startIdx);
    var perms := Candidates(startIdx, n);
    TourTail(q, n, startIdx);
    OthersNoDuplicates(n, startIdx);
    assert rest[..|rest|] == rest;
    HeapExact(rest, |rest|);
    assert q[1..] in perms;
    var m :| 0 <= m < |perms| && perms[m] == q[1..];
    var r := TspBrute(startIdx, dist, includeReturn);
    var j: nat :| FirstLeast(startIdx, dist, includeReturn, perms, j)
             && r == Candidate(startIdx, dist, includeReturn, perms[j]);
    assert Cost(startIdx, dist, includeReturn, perms[m]) == TourCost(q, dist, includeReturn);
  }

  /** After its start, a tour is an order of the other locations. */
  lemma TourTail(q: seq<nat>, n: nat, startIdx: nat)
    requires startIdx < n && IsTour(q, n, startIdx)
    ensures q == [startIdx] + q[1..]
    ensures IsArrangement(q[1..], Others(n, startIdx), n - 1)
  {
    var rest := Others(n, startIdx);
    var tail := q[1..];
    OthersWithStart(n, startIdx);
    assert q == [startIdx] + tail;
    assert multiset(q) == multiset{startIdx} + multiset(tail);
    assert multiset([startIdx]) == multiset{startIdx};
    AddCancel(startIdx, multiset(tail), multiset(rest));
    assert tail[..|rest|] == tail && rest[..|rest|] == rest;
  }
}
