/** The ranked leaderboard (`buildLeaderboard` in
    backend/src/services/routeFinderAlgorithm.js): every tour from the start,
    sorted by total with `Array.prototype.sort`, which is stable, so tours of
    equal total keep the order the search found them in; ranks count from 1;
    paths are shown as location labels. */
module RouteLeaderboard {
  import opened Js
  import opened Seqs
  import opened RouteCost
  import opened RouteEnumeration
  import opened RouteTsp

  datatype Entry = Entry(rank: nat, total: int, route: seq<JsValue>)
  datatype Optimum = Optimum(total: int, route: seq<JsValue>)
  datatype Board = Board(
    start: JsValue,
    includeReturn: bool,
    best: Option<Entry>,
    leaderboard: seq<Entry>,
    routeCount: nat,
    tspOptimal: Option<Optimum>)

  /** What a stack overflow throws in JavaScript. */
  const StackOverflow := "RangeError: Maximum call stack size exceeded"

  // ---------------------------------------------------------------------------
  // Stable sort by total
  // ---------------------------------------------------------------------------

  predicate SortedByTotal(rs: seq<Route>) {
    forall i, j :: 0 <= i < j < |rs| ==> rs[i].total <= rs[j].total
  }

  function HasTotal(t: int): Route -> bool {
    (r: Route) => r.total == t
  }

  /** Puts `x` after every route of total at most its own. */
  function Insert(x: Route, s: seq<Route>): (r: seq<Route>)
    ensures multiset(r) == multiset(s) + multiset{x}
    ensures |r| == |s| + 1
  {
    if |s| == 0 then [x]
    else if x.total < s[0].total then [x] + s
    else
      assert s == [s[0]] + s[1..];
      [s[0]] + Insert(x, s[1..])
  }

  /** `all.sort((a, b) => a.total - b.total)` */
  function SortByTotal(rs: seq<Route>): (r: seq<Route>)
    ensures |r| == |rs|
    ensures SortedByTotal(r)
    ensures multiset(r) == multiset(rs)
    decreases |rs|
  {
    if |rs| == 0 then []
    else
      var init := rs[..|rs| - 1];
      var sorted := SortByTotal(init);
      InsertSorted(rs[|rs| - 1], sorted);
      SplitLast(rs);
      Insert(rs[|rs| - 1], sorted)
  }

  /** The sort is stable: the routes of any one total come out in the order they went in. */
  lemma SortByTotalStable(rs: seq<Route>)
    ensures forall t :: Filter(SortByTotal(rs), HasTotal(t)) == Filter(rs, HasTotal(t))
  {
    forall t
      ensures Filter(SortByTotal(rs), HasTotal(t)) == Filter(rs, HasTotal(t))
    {
      SortByTotalStableAt(rs, t);
    }
  }

  lemma {:induction false} SortByTotalStableAt(rs: seq<Route>, t: int)
    ensures Filter(SortByTotal(rs), HasTotal(t)) == Filter(rs, HasTotal(t))
    decreases |rs|
  {
    if |rs| > 0 {
      var init := rs[..|rs| - 1];
      var last := rs[|rs| - 1];
      SortByTotalStableAt(init, t);
      InsertStableAt(last, SortByTotal(init), t);
      SplitLast(rs);
      FilterSnoc(init, last, HasTotal(t));
    }
  }

  lemma {:induction false} InsertSorted(x: Route, s: seq<Route>)
    requires SortedByTotal(s)
    ensures SortedByTotal(Insert(x, s))
  {
    if |s| > 0 && x.total >= s[0].total {
      InsertSorted(x, s[1..]);
      var r := Insert(x, s);
      var tail := Insert(x, s[1..]);
      assert r == [s[0]] + tail;
      forall k | 0 <= k < |tail|
        ensures s[0].total <= tail[k].total
      {
        assert tail[k] in multiset(s[1..]) + multiset{x};
        if tail[k] != x {
          assert tail[k] in s[1..];
        }
      }
    }
  }

  /** Every route of `s` is at least `t`, so none has a total below `t`. */
  lemma {:induction false} FilterBelowEmpty(s: seq<Route>, t: int)
    requires forall k :: 0 <= k < |s| ==> s[k].total > t
    ensures Filter(s, HasTotal(t)) == []
  {
    if |s| > 0 {
      FilterBelowEmpty(s[1..], t);
    }
  }

  /** Inserting `x` appends it to the routes of its own total and leaves
      every other total's routes alone. */
  lemma InsertStable(x: Route, s: seq<Route>)
    requires SortedByTotal(s)
    ensures forall t :: Filter(Insert(x, s), HasTotal(t))
                     == Filter(s, HasTotal(t)) + (if x.total == t then [x] else [])
  {
    forall t
      ensures Filter(Insert(x, s), HasTotal(t)) == Filter(s, HasTotal(t)) + (if x.total == t then [x] else [])
    {
      InsertStableAt(x, s, t);
    }
  }

  lemma {:induction false} InsertStableAt(x: Route, s: seq<Route>, t: int)
    requires SortedByTotal(s)
    ensures Filter(Insert(x, s), HasTotal(t)) == Filter(s, HasTotal(t)) + (if x.total == t then [x] else [])
  {
    if |s| == 0 {
      assert Insert(x, s) == [x];
    } else if x.total < s[0].total {
      InsertInFront(x, s, t);
    } else {
      InsertStableAt(x, s[1..], t);
      FilterConsPreserved(s[0], s[1..], Insert(x, s[1..]), if x.total == t then [x] else [], HasTotal(t));
      assert Insert(x, s) == [s[0]] + Insert(x, s[1..]);
      assert s == [s[0]] + s[1..];
    }
  }

  lemma InsertInFront(x: Route, s: seq<Route>, t: int)
    requires SortedByTotal(s) && |s| > 0 && x.total < s[0].total
    ensures Filter(Insert(x, s), HasTotal(t)) == Filter(s, HasTotal(t)) + (if x.total == t then [x] else [])
  {
    assert Insert(x, s) == [x] + s;
    FilterAppend([x], s, HasTotal(t));
    if x.total == t {
      FilterBelowEmpty(s, t);
    }
  }

  /** A route of least total comes first in a sorted, non-empty list. */
  lemma SortedFirstIsLeast(rs: seq<Route>)
    requires |rs| > 0
    ensures forall x :: x in rs ==> SortByTotal(rs)[0].total <= x.total
  {
    var s := SortByTotal(rs);
    forall x | x in rs
      ensures s[0].total <= x.total
    {
      assert x in multiset(s);
      var k :| 0 <= k < |s| && s[k] == x;
    }
  }

  // ---------------------------------------------------------------------------
  // The board
  // ---------------------------------------------------------------------------

  /** `centers[i]`, which is `undefined` past the end of `centers`. */
  function Label(centers: seq<string>, i: nat): JsValue {
    if i < |centers| then Str(centers[i]) else Undefined
  }

  /** `idxPath.map(i => centers[i])` */
  function Labels(centers: seq<string>, path: seq<nat>): (r: seq<JsValue>)
    ensures |r| == |path|
    ensures forall i :: 0 <= i < |path| && path[i] < |centers| ==> r[i] == Str(centers[path[i]])
    ensures forall i :: 0 <= i < |path| && path[i] >= |centers| ==> r[i] == Undefined
  {
    seq(|path|, i requires 0 <= i < |path| => Label(centers, path[i]))
  }

  /** `all.map((r, i) => ({ rank: i + 1, total: r.total, route: label(r.path) }))` */
  function Rank(sorted: seq<Route>, centers: seq<string>): (lb: seq<Entry>)
    ensures |lb| == |sorted|
    ensures forall i :: 0 <= i < |lb| ==> lb[i].rank == i + 1
  {
    seq(|sorted|, i requires 0 <= i < |sorted| => Entry(i + 1, sorted[i].total, Labels(centers, sorted[i].path)))
  }

  /** `computeTsp ? tspBrute(...) : null`, labelled. */
  function Optimal(centers: seq<string>, dist: seq<seq<int>>, startIdx: nat,
                   includeReturn: bool, computeTsp: bool): (r: Option<Optimum>)
    requires IsSquare(dist) && startIdx < |dist| && !(computeTsp && |dist| == 1)
    ensures r.Some? <==> computeTsp
  {
    if computeTsp then
      var best := TspBrute(startIdx, dist, includeReturn);
      Some(Optimum(best.total, Labels(centers, best.path)))
    else None
  }

  /** `buildLeaderboard({ centers, dist, startIdx, includeReturn, computeTsp })`.
      With a single location `tspBrute` recurses without end, which JavaScript
      ends with a stack overflow. */
  function BuildLeaderboard(centers: seq<string>, dist: seq<seq<int>>, startIdx: nat,
                            includeReturn: bool, computeTsp: bool): (r: Outcome<Board>)
    requires IsSquare(dist) && startIdx < |dist|
    ensures r.Threw? <==> computeTsp && |dist| == 1
    ensures r.Returned? ==>
              var b := r.value;
              && b.start == Label(centers, startIdx)
              && b.includeReturn == includeReturn
              && b.routeCount == |b.leaderboard| == Factorial(|dist| - 1)
              && b.best == Some(b.leaderboard[0])
              && (b.tspOptimal.Some? <==> computeTsp)
              && forall i :: 0 <= i < |b.leaderboard| ==> b.leaderboard[i].rank == i + 1
  {
    var all := EnumerateAllRoutes(startIdx, dist, includeReturn);
    EnumerationCount(startIdx, dist, includeReturn);
    var lb := Rank(SortByTotal(all), centers);
    if computeTsp && |dist| == 1 then Threw(StackOverflow)
    else
      Returned(Board(Label(centers, startIdx), includeReturn,
                     if |lb| == 0 then None else Some(lb[0]),
                     lb, |all|, Optimal(centers, dist, startIdx, includeReturn, computeTsp)))
  }

  /** The leaderboard is the enumeration sorted stably by total: entry `i`
      shows the `i`-th route of a reordering of the enumerated routes whose
      totals never decrease and whose routes of equal total keep their order. */
  lemma LeaderboardIsSortedEnumeration(centers: seq<string>, dist: seq<seq<int>>, startIdx: nat,
                                       includeReturn: bool, computeTsp: bool)
    requires IsSquare(dist) && startIdx < |dist| && !(computeTsp && |dist| == 1)
    ensures var all := EnumerateAllRoutes(startIdx, dist, includeReturn);
            var lb := BuildLeaderboard(centers, dist, startIdx, includeReturn, computeTsp).value.leaderboard;
            exists sorted: seq<Route> ::
              && multiset(sorted) == multiset(all)
              && SortedByTotal(sorted)
              && (forall t :: Filter(sorted, HasTotal(t)) == Filter(all, HasTotal(t)))
              && |lb| == |sorted|
              && forall i :: 0 <= i < |lb| ==>
                   lb[i] == Entry(i + 1, sorted[i].total, Labels(centers, sorted[i].path))
  {
    var all := EnumerateAllRoutes(startIdx, dist, includeReturn);
    var sorted := SortByTotal(all);
    SortByTotalStable(all);
  }

  /** `best` is a tour from the start, and no tour from the start is cheaper. */
  lemma BestIsCheapestTour(centers: seq<string>, dist: seq<seq<int>>, startIdx: nat,
                           includeReturn: bool, computeTsp: bool, q: seq<nat>)
    requires IsSquare(dist) && startIdx < |dist| && !(computeTsp && |dist| == 1)
    requires IsTour(q, |dist|, startIdx) && IndicesBelow(q, |dist|)
    ensures var best := BuildLeaderboard(centers, dist, startIdx, includeReturn, computeTsp).value.best;
            best.Some? && best.value.total <= TourCost(q, dist, includeReturn)
  {
    var all := EnumerateAllRoutes(startIdx, dist, includeReturn);
    var sorted := SortByTotal(all);
    EnumerationCount(startIdx, dist, includeReturn);
    EnumerationComplete(startIdx, dist, includeReturn, q);
    EnumerationSound(startIdx, dist, includeReturn);
    var k :| 0 <= k < |all| && Paths(all)[k] == q;
    assert all[k] in all;
    SortedFirstIsLeast(all);
  }

  /** The least total over all tours from the start is what the leaderboard's
      first entry shows. */
  lemma BestTotalIsAttained(centers: seq<string>, dist: seq<seq<int>>, startIdx: nat,
                            includeReturn: bool, computeTsp: bool)
    requires IsSquare(dist) && startIdx < |dist| && !(computeTsp && |dist| == 1)
    ensures var best := BuildLeaderboard(centers, dist, startIdx, includeReturn, computeTsp).value.best;
            exists q :: IsTour(q, |dist|, startIdx) && IndicesBelow(q, |dist|)
                     && best == Some(Entry(1, TourCost(q, dist, includeReturn), Labels(centers, q)))
  {
    var all := EnumerateAllRoutes(startIdx, dist, includeReturn);
    var sorted := SortByTotal(all);
    EnumerationCount(startIdx, dist, includeReturn);
    EnumerationSound(startIdx, dist, includeReturn);
    assert sorted[0] in multiset(all);
    var r := sorted[0];
    assert r in all;
  }

  /** `tspOptimal` never beats `best`; with at most five locations, where
      Heap's algorithm provably lists every order, the two totals agree. */
  lemma TspAgreesWithBest(centers: seq<string>, dist: seq<seq<int>>, startIdx: nat, includeReturn: bool)
    requires IsSquare(dist) && startIdx < |dist| && |dist| >= 2
    ensures var b := BuildLeaderboard(centers, dist, startIdx, includeReturn, true).value;
            && b.tspOptimal.Some? && b.best.Some?
            && b.tspOptimal.value.total >= b.best.value.total
            && (|dist| <= 5 ==> b.tspOptimal.value.total == b.best.value.total)
  {
    var b := BuildLeaderboard(centers, dist, startIdx, includeReturn, true).value;
    var tsp := TspBrute(startIdx, dist, includeReturn);
    TspIsTour(startIdx, dist, includeReturn);
    BestIsCheapestTour(centers, dist, startIdx, includeReturn, true, tsp.path);
    if |dist| <= 5 {
      BestTotalIsAttained(centers, dist, startIdx, includeReturn, true);
      var q :| IsTour(q, |dist|, startIdx) && IndicesBelow(q, |dist|)
               && b.best == Some(Entry(1, TourCost(q, dist, includeReturn), Labels(centers, q)));
      TspIsOptimal(startIdx, dist, includeReturn, q);
    }
  }
}
