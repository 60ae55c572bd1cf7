/** The leaderboard endpoint (`getLeaderboard` in
    backend/src/controllers/routeFinder.js): the five distribution centers and
    their distance matrix, the query-string boolean parser, and the
    resolution of the `start` parameter.  The HTTP response is the `Response`
    value the handler would send; query parameters arrive as a map from name
    to value, a missing name reading as `undefined`. */
module RouteController {
  import opened Js
  import opened Seqs
  import opened RouteCost
  import opened RouteEnumeration
  import opened RouteLeaderboard

  const Centers: seq<string> := ["G", "SL", "W", "ST", "M"]

  const Dist: seq<seq<int>> := [
    [0, 2, 1, 4, 3],
    [2, 0, 1, 4, 4],
    [1, 1, 0, 4, 4],
    [4, 4, 4, 0, 2],
    [3, 4, 4, 2, 0]
  ]

  /** `start must be one of: ${centers.join(', ')}` */
  const UnknownStart := "start must be one of: " + Join(Centers, ", ")

  /** What the handler sends: `{ ok: true, ...result }`, a 400 with
      `{ ok: false, error }`, or the error passed on to `next(err)`. */
  datatype Response = Ok(board: Board) | BadRequest(error: string) | Forwarded(error: string)

  /** `parseBool(val, def)` */
  function ParseBool(val: JsValue, def: bool): (r: bool)
    ensures val.Undefined? ==> r == def
    ensures val.Bool? ==> r == val.b
  {
    if val.Undefined? then def
    else if val.Bool? then val.b
    else
      var v := ToLowerAscii(ToString(val));
      v == "true" || v == "1"
  }

  /** `s` spells "true" in any mix of upper and lower case. */
  predicate IsTrueAnyCase(s: string) {
    |s| == 4 && forall i :: 0 <= i < 4 ==> LowerChar(s[i]) == "true"[i]
  }

  /** A string parameter is true exactly when it reads "true" in any case, or "1". */
  lemma ParseBoolString(s: string, def: bool)
    ensures ParseBool(Str(s), def) <==> IsTrueAnyCase(s) || s == "1"
  {
    var v := ToLowerAscii(s);
    if v == "1" {
      assert LowerChar(s[0]) == '1';
      assert s == "1";
    }
    if IsTrueAnyCase(s) {
      assert v == "true";
    }
  }

  lemma ParseBoolExamples()
    ensures ParseBool(Str("TRUE"), false)
    ensures ParseBool(Str("True"), false)
    ensures ParseBool(Str("1"), false)
    ensures !ParseBool(Str("yes"), true)
    ensures !ParseBool(Str("0"), true)
    ensures !ParseBool(Str(""), true)
    ensures ParseBool(Num(1), false) && !ParseBool(Num(0), true)
    ensures ParseBool(Undefined, true) && !ParseBool(Undefined, false)
  {
    ParseBoolString("TRUE", false);
    ParseBoolString("True", false);
    ParseBoolString("yes", true);
    ParseBoolString("0", true);
    ParseBoolString("", true);
    assert ToString(Num(1)) == "1";
    assert ToString(Num(0)) == "0";
  }

  /** `centers.indexOf(start)`: the first index holding the same string, or -1. */
  function IndexOf(names: seq<string>, v: JsValue): (r: int)
    ensures -1 <= r < |names|
    ensures r >= 0 ==> v == Str(names[r]) && forall i :: 0 <= i < r ==> v != Str(names[i])
    ensures r == -1 <==> forall i :: 0 <= i < |names| ==> v != Str(names[i])
  {
    if |names| == 0 then -1
    else if v == Str(names[0]) then 0
    else
      var k := IndexOf(names[1..], v);
      assert forall i :: 1 <= i < |names| ==> names[i] == names[1..][i - 1];
      if k == -1 then -1 else k + 1
  }

  /** `start ? centers.indexOf(start) : 0`, and the 400 answer for an unknown name. */
  function ResolveStart(start: JsValue): (r: Outcome<nat>)
    ensures r.Returned? ==> r.value < |Centers|
    ensures r.Threw? <==> Truthy(start) && forall i :: 0 <= i < |Centers| ==> start != Str(Centers[i])
    ensures r.Threw? ==> r.error == UnknownStart
    ensures !Truthy(start) ==> r == Returned(0)
    ensures r.Returned? && Truthy(start) ==> start == Str(Centers[r.value])
  {
    if !Truthy(start) then Returned(0)
    else
      var k := IndexOf(Centers, start);
      if k == -1 then Threw(UnknownStart) else Returned(k)
  }

  /** `buildLeaderboard` over any five-location matrix returns a board of 4! routes. */
  lemma FiveLocations(centers: seq<string>, dist: seq<seq<int>>, startIdx: nat,
                      includeReturn: bool, computeTsp: bool)
    requires IsSquare(dist) && |dist| == 5 && startIdx < 5
    ensures var out := BuildLeaderboard(centers, dist, startIdx, includeReturn, computeTsp);
            && out.Returned?
            && out.value.start == Label(centers, startIdx)
            && out.value.includeReturn == includeReturn
            && (out.value.tspOptimal.Some? <==> computeTsp)
            && out.value.routeCount == |out.value.leaderboard| == 24
  {
    assert Factorial(4) == 24 by {
      assert Factorial(1) == 1;
    }
  }

  /** The leaderboard for a resolved start over the reference data; with five
      centers `buildLeaderboard` never throws. */
  function Answer(startIdx: nat, includeReturn: bool, computeTsp: bool): (r: Response)
    requires startIdx < |Centers|
    ensures r.Ok?
    ensures r.board.start == Str(Centers[startIdx])
    ensures r.board.includeReturn == includeReturn
    ensures r.board.tspOptimal.Some? <==> computeTsp
    ensures r.board.routeCount == |r.board.leaderboard| == 24
  {
    ReferenceMatrix();
    FiveLocations(Centers, Dist, startIdx, includeReturn, computeTsp);
    Ok(BuildLeaderboard(Centers, Dist, startIdx, includeReturn, computeTsp).value)
  }

  /** `getLeaderboard(req, res, next)` */
  function GetLeaderboard(query: map<string, JsValue>): (r: Response)
    ensures r.BadRequest? <==> ResolveStart(Field(query, "start")).Threw?
    ensures r.BadRequest? ==> r.error == UnknownStart
    ensures !r.Forwarded?
    ensures r.Ok? ==>
              && r.board.includeReturn == ParseBool(Field(query, "includeReturn"), false)
              && (r.board.tspOptimal.Some? <==> ParseBool(Field(query, "computeTsp"), true))
              && r.board.routeCount == 24
              && r.board.start == Str(Centers[ResolveStart(Field(query, "start")).value])
  {
    var includeReturn := ParseBool(Field(query, "includeReturn"), false);
    var computeTsp := ParseBool(Field(query, "computeTsp"), true);
    match ResolveStart(Field(query, "start"))
    case Threw(e) => BadRequest(e)
    case Returned(startIdx) => Answer(startIdx, includeReturn, computeTsp)
  }

  /** The reference matrix is 5×5, zero on the diagonal and symmetric. */
  lemma ReferenceMatrix()
    ensures IsSquare(Dist) && |Dist| == |Centers| == 5
    ensures forall i :: 0 <= i < 5 ==> Dist[i][i] == 0
    ensures forall i, j :: 0 <= i < 5 && 0 <= j < 5 ==> Dist[i][j] == Dist[j][i]
  {
  }

  /** With no query parameters: start "G", no return leg, and the TSP optimum included. */
  lemma DefaultQuery()
    ensures var r := GetLeaderboard(map[]);
            && r.Ok?
            && r.board.start == Str("G")
            && !r.board.includeReturn
            && r.board.tspOptimal.Some?
  {
    assert Field(map[], "start") == Undefined;
  }

  /** Every named start gives 24 ranked routes, and the TSP optimum, when
      asked for, has the same total as the top-ranked route. */
  lemma EveryStartRanksAllTours(query: map<string, JsValue>)
    requires ResolveStart(Field(query, "start")).Returned?
    ensures GetLeaderboard(query).Ok?
    ensures var b := GetLeaderboard(query).board;
            && b.routeCount == |b.leaderboard| == 24
            && b.best.Some?
            && (b.tspOptimal.Some? ==> b.tspOptimal.value.total == b.best.value.total)
  {
    ReferenceMatrix();
    var startIdx := ResolveStart(Field(query, "start")).value;
    var includeReturn := ParseBool(Field(query, "includeReturn"), false);
    var computeTsp := ParseBool(Field(query, "computeTsp"), true);
    assert GetLeaderboard(query) == Answer(startIdx, includeReturn, computeTsp);
    if computeTsp {
      TspAgreesWithBest(Centers, Dist, startIdx, includeReturn);
    }
  }
}
