/** Tour costs over a distance matrix (`pathCost` in
    backend/src/services/routeFinderAlgorithm.js). */
module RouteCost {

  /** `dist` is an N×N matrix. */
  predicate IsSquare(dist: seq<seq<int>>) {
    forall i :: 0 <= i < |dist| ==> |dist[i]| == |dist|
  }

  /** Every entry of `path` indexes a row of an N×N matrix. */
  predicate IndicesBelow(path: seq<nat>, n: nat) {
    forall i :: 0 <= i < |path| ==> path[i] < n
  }

  /** Sum of `dist[p[i]][p[i + 1]]` over consecutive pairs of `path`. */
  function EdgeSum(path: seq<nat>, dist: seq<seq<int>>): int
    requires IsSquare(dist) && IndicesBelow(path, |dist|)
    decreases |path|
  {
    if |path| < 2 then 0
    else EdgeSum(path[..|path| - 1], dist) + dist[path[|path| - 2]][path[|path| - 1]]
  }

  /** The cost of walking `path`, plus the leg from its last stop back to
      its first when `includeReturn` holds. */
  function TourCost(path: seq<nat>, dist: seq<seq<int>>, includeReturn: bool): int
    requires IsSquare(dist) && IndicesBelow(path, |dist|)
    requires includeReturn ==> |path| > 0
  {
    EdgeSum(path, dist) + (if includeReturn then dist[path[|path| - 1]][path[0]] else 0)
  }

  /** `pathCost(path, dist, includeReturn)`: the accumulating loop of the source. */
  method PathCost(path: seq<nat>, dist: seq<seq<int>>, includeReturn: bool) returns (total: int)
    requires IsSquare(dist) && IndicesBelow(path, |dist|)
    requires includeReturn ==> |path| > 0
    ensures total == TourCost(path, dist, includeReturn)
  {
    total := 0;
    var i := 0;
    while i < |path| - 1
      invariant |path| == 0 ==> i == 0
      invariant |path| > 0 ==> i < |path|
      invariant total == EdgeSum(path[..if |path| == 0 then 0 else i + 1], dist)
    {
      assert path[..i + 2][..i + 1] == path[..i + 1];
      total := total + dist[path[i]][path[i + 1]];
      i := i + 1;
    }
    assert |path| > 0 ==> path[..i + 1] == path;
    if includeReturn {
      total := total + dist[path[|path| - 1]][path[0]];
    }
  }
}
