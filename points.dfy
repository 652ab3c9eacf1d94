/** The prediction-scoring engine of lib/points.ts.

    A user's season prediction is a list of (driver, predicted position)
    entries. Each race is scored separately: every predicted driver that has
    a result row in the race earns points by how far the actual finishing
    position is from the predicted one. Races are found by grouping the
    result rows on their session key; the per-race totals form a breakdown
    sorted by round, and the season total is the sum of that breakdown.

    The loops of the source are methods proved against specification
    functions (PointsMap, SessionOrder, Group, Breakdown, TotalPoints); the
    properties the source promises are lemmas about those functions. */
module Points {
  import opened Common
  import opened Sorting

  datatype DriverPrediction = DriverPrediction(driverId: int, predictedPosition: int)

  /** A stored race result row. The scorer reads sessionKey through an untyped
      cast, so a row may lack it (None); 0 is as falsy as a missing key. */
  datatype RaceResult = RaceResult(
    raceName: string, round: int, year: int, sessionKey: Option<int>,
    driverId: int, position: int, points: int)

  /** One race of a user's breakdown. */
  datatype RaceBreakdown = RaceBreakdown(sessionKey: int, raceName: string, round: int, points: int)

  /** Points for a position difference of 0, 1, ..., 8. */
  const DifferenceTable: seq<int> := [25, 18, 15, 12, 10, 8, 6, 4, 2]

  /** The points rule of calculatePointsForRace. */
  function PointsForDifference(diff: nat): (p: int)
    ensures diff < |DifferenceTable| ==> p == DifferenceTable[diff]
    ensures diff >= |DifferenceTable| ==> p == 0
    ensures 0 <= p <= 25
  {
    if diff == 0 then 25
    else if diff == 1 then 18
    else if diff == 2 then 15
    else if diff == 3 then 12
    else if diff == 4 then 10
    else if diff == 5 then 8
    else if diff == 6 then 6
    else if diff == 7 then 4
    else if diff == 8 then 2
    else 0
  }

  /** A larger miss never earns more points. */
  lemma PointsNonIncreasing(d1: nat, d2: nat)
    requires d1 <= d2
    ensures PointsForDifference(d1) >= PointsForDifference(d2)
  {
  }

  function Abs(x: int): nat
  {
    if x < 0 then -x else x
  }

  /** Index i holds the first row of results for the driver. */
  ghost predicate IsFirstRowFor(results: seq<RaceResult>, i: int, driverId: int)
  {
    0 <= i < |results| && results[i].driverId == driverId
    && forall j :: 0 <= j < i ==> results[j].driverId != driverId
  }

  /** The first result row of the driver, if any. */
  function FindResult(results: seq<RaceResult>, driverId: int): Option<RaceResult>
    decreases |results|
  {
    if results == [] then None
    else if results[0].driverId == driverId then Some(results[0])
    else FindResult(results[1..], driverId)
  }

  /** find gives nothing exactly when no row names the driver, and otherwise
      the first row that does. */
  lemma {:induction false} FindResultFirst(results: seq<RaceResult>, driverId: int)
    ensures FindResult(results, driverId).None? <==> forall i :: 0 <= i < |results| ==> results[i].driverId != driverId
    ensures FindResult(results, driverId).Some? ==>
              exists i :: IsFirstRowFor(results, i, driverId) && results[i] == FindResult(results, driverId).value
    decreases |results|
  {
    if results == [] {
    } else if results[0].driverId == driverId {
      assert IsFirstRowFor(results, 0, driverId);
    } else {
      FindResultFirst(results[1..], driverId);
      var r := FindResult(results[1..], driverId);
      if r.Some? {
        var i :| IsFirstRowFor(results[1..], i, driverId) && results[1..][i] == r.value;
        assert IsFirstRowFor(results, i + 1, driverId);
      } else {
        forall i | 0 <= i < |results| ensures results[i].driverId != driverId {
          if i > 0 {
            assert results[i] == results[1..][i - 1];
          }
        }
      }
    }
  }

  /** Points one prediction earns against the driver's actual result. */
  function Score(actual: RaceResult, prediction: DriverPrediction): int
  {
    PointsForDifference(Abs(actual.position - prediction.predictedPosition))
  }

  /** The map calculatePointsForRace fills, driverId to points, after it has
      processed the given predictions in order. */
  function PointsMap(predictions: seq<DriverPrediction>, results: seq<RaceResult>): (m: map<int, int>)
    ensures forall d :: d in m ==> 0 <= m[d] <= 25
    ensures forall d :: d in m ==> exists i :: 0 <= i < |predictions| && predictions[i].driverId == d
    decreases |predictions|
  {
    if predictions == [] then map[]
    else
      var prefix := predictions[..|predictions| - 1];
      var m := PointsMap(prefix, results);
      var p := predictions[|predictions| - 1];
      assert forall d :: d in m ==> exists i :: 0 <= i < |prefix| && predictions[i].driverId == d;
      match FindResult(results, p.driverId)
      case None => m
      case Some(actual) => m[p.driverId := Score(actual, p)]
  }

  /** Each prediction adds at most one driver to the map. */
  lemma {:induction false} PointsMapSize(predictions: seq<DriverPrediction>, results: seq<RaceResult>)
    ensures |PointsMap(predictions, results)| <= |predictions|
    decreases |predictions|
  {
    if predictions != [] {
      var prefix := predictions[..|predictions| - 1];
      var p := predictions[|predictions| - 1];
      PointsMapSize(prefix, results);
      var m := PointsMap(prefix, results);
      match FindResult(results, p.driverId)
      case None =>
      case Some(actual) =>
        assert m[p.driverId := Score(actual, p)].Keys == m.Keys + {p.driverId};
    }
  }

  /** calculatePointsForRace (lib/points.ts): one race's points per driver. */
  method CalculatePointsForRace(predictions: seq<DriverPrediction>, raceResults: seq<RaceResult>)
    returns (pointsMap: map<int, int>)
    ensures pointsMap == PointsMap(predictions, raceResults)
  {
    pointsMap := map[];
    for i := 0 to |predictions|
      invariant pointsMap == PointsMap(predictions[..i], raceResults)
    {
      assert predictions[..i + 1][..i] == predictions[..i];
      var prediction := predictions[i];
      var actual := FindResult(raceResults, prediction.driverId);
      if actual.None? {
        continue;
      }
      var diff := Abs(actual.value.position - prediction.predictedPosition);
      var points := PointsForDifference(diff);
      pointsMap := pointsMap[prediction.driverId := points];
    }
    assert predictions[..|predictions|] == predictions;
  }

  /** A driver gets an entry exactly when some prediction names it and the
      race has a row for it: predictions without a result add no key. */
  lemma {:induction false} PointsMapKeys(predictions: seq<DriverPrediction>, results: seq<RaceResult>, d: int)
    ensures d in PointsMap(predictions, results)
        <==> (exists i :: 0 <= i < |predictions| && predictions[i].driverId == d)
             && (exists j :: 0 <= j < |results| && results[j].driverId == d)
    decreases |predictions|
  {
    if predictions != [] {
      var prefix := predictions[..|predictions| - 1];
      PointsMapKeys(prefix, results, d);
      FindResultFirst(results, d);
      var p := predictions[|predictions| - 1];
      var r := FindResult(results, p.driverId);
      if r.Some? {
        PointsMapStepHit(predictions, results, r.value);
      } else {
        PointsMapStepMiss(predictions, results);
      }
      if exists i :: 0 <= i < |predictions| && predictions[i].driverId == d {
        var i :| 0 <= i < |predictions| && predictions[i].driverId == d;
        if i < |prefix| {
          assert prefix[i].driverId == d;
        }
      }
      if exists i :: 0 <= i < |prefix| && prefix[i].driverId == d {
        var i :| 0 <= i < |prefix| && prefix[i].driverId == d;
        assert predictions[i].driverId == d;
      }
    }
  }

  /** The entry for a driver is scored from the first result row for that
      driver and from the LAST prediction naming it (later ones overwrite). */
  lemma PointsMapLastWins(predictions: seq<DriverPrediction>, results: seq<RaceResult>, i: int)
    requires 0 <= i < |predictions|
    requires forall j :: i < j < |predictions| ==> predictions[j].driverId != predictions[i].driverId
    requires exists j :: 0 <= j < |results| && results[j].driverId == predictions[i].driverId
    ensures FindResult(results, predictions[i].driverId).Some?
    ensures predictions[i].driverId in PointsMap(predictions, results)
    ensures PointsMap(predictions, results)[predictions[i].driverId]
            == Score(FindResult(results, predictions[i].driverId).value, predictions[i])
  {
    var d := predictions[i].driverId;
    var j0 :| 0 <= j0 < |results| && results[j0].driverId == d;
    var r := FindResult(results, d);
    FindResultFirst(results, d);
    assert r.Some?;
    LastPredictionScores(predictions, results, i, d, r.value);
  }

  lemma {:induction false} LastPredictionScores(predictions: seq<DriverPrediction>, results: seq<RaceResult>,
                                                i: int, d: int, actual: RaceResult)
    requires 0 <= i < |predictions| && predictions[i].driverId == d
    requires forall j :: i < j < |predictions| ==> predictions[j].driverId != d
    requires FindResult(results, d) == Some(actual)
    ensures d in PointsMap(predictions, results)
    ensures PointsMap(predictions, results)[d] == Score(actual, predictions[i])
    decreases |predictions|
  {
    var last := |predictions| - 1;
    if i < last {
      var prefix := predictions[..last];
      assert prefix[i] == predictions[i];
      assert predictions[last].driverId != d;
      LastPredictionScores(prefix, results, i, d, actual);
      PointsMapKeepsOthers(predictions, results, d);
    } else {
      PointsMapStepHit(predictions, results, actual);
    }
  }

  /** A prediction for another driver leaves a driver's entry as it was. */
  lemma PointsMapKeepsOthers(predictions: seq<DriverPrediction>, results: seq<RaceResult>, d: int)
    requires predictions != []
    requires predictions[|predictions| - 1].driverId != d
    requires d in PointsMap(predictions[..|predictions| - 1], results)
    ensures d in PointsMap(predictions, results)
    ensures PointsMap(predictions, results)[d] == PointsMap(predictions[..|predictions| - 1], results)[d]
  {
    var r := FindResult(results, predictions[|predictions| - 1].driverId);
    if r.Some? {
      PointsMapStepHit(predictions, results, r.value);
    } else {
      PointsMapStepMiss(predictions, results);
    }
  }

  /** A prediction whose driver has a result sets that driver's entry,
      overwriting any earlier one. */
  lemma PointsMapStepHit(predictions: seq<DriverPrediction>, results: seq<RaceResult>, actual: RaceResult)
    requires predictions != []
    requires FindResult(results, predictions[|predictions| - 1].driverId) == Some(actual)
    ensures PointsMap(predictions, results)
            == PointsMap(predictions[..|predictions| - 1], results)[predictions[|predictions| - 1].driverId
                 := Score(actual, predictions[|predictions| - 1])]
    ensures predictions[|predictions| - 1].driverId in PointsMap(predictions, results)
    ensures PointsMap(predictions, results)[predictions[|predictions| - 1].driverId]
            == Score(actual, predictions[|predictions| - 1])
  {
  }

  /** A prediction whose driver has no result leaves the map as it was. */
  lemma PointsMapStepMiss(predictions: seq<DriverPrediction>, results: seq<RaceResult>)
    requires predictions != []
    requires FindResult(results, predictions[|predictions| - 1].driverId).None?
    ensures PointsMap(predictions, results) == PointsMap(predictions[..|predictions| - 1], results)
  {
  }

  /** Some key of a non-empty map. */
  ghost function PickKey(m: map<int, int>): (k: int)
    requires m != map[]
    ensures k in m
  {
    assert exists x :: x in m by {
      if forall x :: x !in m {
        NoKeysEmpty(m);
        assert false;
      }
    }
    var x :| x in m;
    x
  }

  lemma NoKeysEmpty(m: map<int, int>)
    requires forall x :: x !in m
    ensures m == map[]
  {
    assert forall x :: x !in m.Keys;
    assert m.Keys == {};
  }

  /** The sum of a map's values. */
  ghost function SumValues(m: map<int, int>): int
    decreases |m|
  {
    if m == map[] then 0
    else
      var k := PickKey(m);
      assert (m - {k}).Keys == m.Keys - {k};
      m[k] + SumValues(m - {k})
  }

  /** The sum does not depend on which key is taken out first. */
  lemma {:induction false} SumValuesRemove(m: map<int, int>, k: int)
    requires k in m
    ensures SumValues(m) == m[k] + SumValues(m - {k})
    decreases |m|
  {
    var k' := PickKey(m);
    if k' != k {
      assert (m - {k'}).Keys == m.Keys - {k'};
      assert (m - {k}).Keys == m.Keys - {k};
      SumValuesRemove(m - {k'}, k);
      SumValuesRemove(m - {k}, k');
      assert m - {k'} - {k} == m - {k} - {k'};
    }
  }

  /** Values in [0, 25] sum to at most 25 per key. */
  lemma {:induction false} SumValuesBounds(m: map<int, int>)
    requires forall d :: d in m ==> 0 <= m[d] <= 25
    ensures 0 <= SumValues(m) <= 25 * |m|
    decreases |m|
  {
    if m != map[] {
      var k := PickKey(m);
      SumValuesRemove(m, k);
      assert (m - {k}).Keys == m.Keys - {k};
      SumValuesBounds(m - {k});
    }
  }

  /** Adds up the values of a race's points map, one key at a time. */
  method SumPoints(pointsMap: map<int, int>) returns (total: int)
    ensures total == SumValues(pointsMap)
  {
    total := 0;
    var rest := pointsMap;
    while rest != map[]
      invariant total + SumValues(rest) == SumValues(pointsMap)
      decreases |rest|
    {
      var k :| k in rest;
      SumValuesRemove(rest, k);
      assert (rest - {k}).Keys == rest.Keys - {k};
      total := total + rest[k];
      rest := rest - {k};
    }
  }

  /** A row takes part in grouping only when its session key is truthy (present and not 0). */
  predicate HasSessionKey(r: RaceResult)
  {
    r.sessionKey.Some? && r.sessionKey.value != 0
  }

  /** The keys of the session map in its iteration order: every truthy
      session key once, in the order in which it first appears. */
  function SessionOrder(results: seq<RaceResult>): (order: seq<int>)
    decreases |results|
  {
    if results == [] then []
    else
      var prev := SessionOrder(results[..|results| - 1]);
      var r := results[|results| - 1];
      if !HasSessionKey(r) || r.sessionKey.value in prev then prev
      else prev + [r.sessionKey.value]
  }

  /** The session map holds exactly the truthy session keys of the input. */
  lemma {:induction false} SessionOrderMembers(results: seq<RaceResult>, k: int)
    ensures k in SessionOrder(results)
        <==> k != 0 && exists i :: 0 <= i < |results| && results[i].sessionKey == Some(k)
    decreases |results|
  {
    if results != [] {
      var prefix := results[..|results| - 1];
      SessionOrderMembers(prefix, k);
      if exists i :: 0 <= i < |results| && results[i].sessionKey == Some(k) {
        var i :| 0 <= i < |results| && results[i].sessionKey == Some(k);
        if i < |prefix| {
          assert prefix[i].sessionKey == Some(k);
        }
      }
      if exists i :: 0 <= i < |prefix| && prefix[i].sessionKey == Some(k) {
        var i :| 0 <= i < |prefix| && prefix[i].sessionKey == Some(k);
        assert results[i].sessionKey == Some(k);
      }
    }
  }

  /** Each session key occurs once in the map's key order. */
  lemma {:induction false} SessionOrderDistinct(results: seq<RaceResult>)
    ensures forall i, j :: 0 <= i < j < |SessionOrder(results)| ==> SessionOrder(results)[i] != SessionOrder(results)[j]
    decreases |results|
  {
    if results != [] {
      SessionOrderDistinct(results[..|results| - 1]);
    }
  }

  /** The rows the session map collects under key k, in input order. */
  function Group(results: seq<RaceResult>, k: int): (g: seq<RaceResult>)
    ensures forall x :: x in g ==> x in results && x.sessionKey == Some(k)
    decreases |results|
  {
    if results == [] then []
    else
      var prefix := results[..|results| - 1];
      var r := results[|results| - 1];
      var g := Group(prefix, k);
      assert forall x :: x in g ==> x in results;
      g + (if r.sessionKey == Some(k) then [r] else [])
  }

  /** Every session of the map holds at least one row, and its first row is
      the first row of the input with that key. */
  lemma {:induction false} GroupFirst(results: seq<RaceResult>, k: int)
    requires k in SessionOrder(results)
    ensures |Group(results, k)| > 0
    ensures exists i :: IsFirstRowOfSession(results, i, k) && Group(results, k)[0] == results[i]
    decreases |results|
  {
    var prefix := results[..|results| - 1];
    if k in SessionOrder(prefix) {
      GroupFirst(prefix, k);
      var i :| IsFirstRowOfSession(prefix, i, k) && Group(prefix, k)[0] == prefix[i];
      GroupKeepsFirst(results, k);
      FirstRowOfSessionExtends(results, i, k);
    } else {
      SessionOrderMembers(prefix, k);
      GroupStarts(results, k);
    }
  }

  /** A later row does not change the first row of a non-empty group. */
  lemma GroupKeepsFirst(results: seq<RaceResult>, k: int)
    requires results != [] && |Group(results[..|results| - 1], k)| > 0
    ensures |Group(results, k)| > 0
    ensures Group(results, k)[0] == Group(results[..|results| - 1], k)[0]
  {
  }

  lemma FirstRowOfSessionExtends(results: seq<RaceResult>, i: int, k: int)
    requires results != [] && IsFirstRowOfSession(results[..|results| - 1], i, k)
    ensures IsFirstRowOfSession(results, i, k)
  {
    var prefix := results[..|results| - 1];
    assert forall j :: 0 <= j < i ==> results[j] == prefix[j];
  }

  /** The first row of a session, when it comes last, starts its group. */
  lemma GroupStarts(results: seq<RaceResult>, k: int)
    requires results != [] && results[|results| - 1].sessionKey == Some(k)
    requires forall j :: 0 <= j < |results| - 1 ==> results[j].sessionKey != Some(k)
    ensures |Group(results, k)| > 0 && Group(results, k)[0] == results[|results| - 1]
    ensures IsFirstRowOfSession(results, |results| - 1, k)
  {
    var prefix := results[..|results| - 1];
    assert forall j :: 0 <= j < |prefix| ==> prefix[j].sessionKey != Some(k);
    GroupEmpty(prefix, k);
  }

  /** Index i holds the first row of results for session k. */
  ghost predicate IsFirstRowOfSession(results: seq<RaceResult>, i: int, k: int)
  {
    0 <= i < |results| && results[i].sessionKey == Some(k)
    && forall j :: 0 <= j < i ==> results[j].sessionKey != Some(k)
  }

  lemma {:induction false} GroupEmpty(results: seq<RaceResult>, k: int)
    requires forall j :: 0 <= j < |results| ==> results[j].sessionKey != Some(k)
    ensures Group(results, k) == []
    decreases |results|
  {
    if results != [] {
      GroupEmpty(results[..|results| - 1], k);
    }
  }

  /** The sort key of an ordering by round, lowest first. */
  function RoundOf(b: RaceBreakdown): int
  {
    b.round
  }

  function PointsOf(b: RaceBreakdown): int
  {
    b.points
  }

  /** A race's point total for the user. */
  ghost function RacePoints(predictions: seq<DriverPrediction>, raceResults: seq<RaceResult>): int
  {
    SumValues(PointsMap(predictions, raceResults))
  }

  /** The breakdown entry pushed for session k (lib/points.ts:75-80). */
  ghost function EntryFor(predictions: seq<DriverPrediction>, results: seq<RaceResult>, k: int): RaceBreakdown
  {
    var g := Group(results, k);
    RaceBreakdown(
      k,
      if |g| > 0 && g[0].raceName != "" then g[0].raceName else "Unknown",
      if |g| > 0 then g[0].round else 0,
      RacePoints(predictions, g))
  }

  /** The breakdown before its sort: one entry per session, in map order. */
  ghost function UnsortedBreakdown(predictions: seq<DriverPrediction>, results: seq<RaceResult>): seq<RaceBreakdown>
  {
    var order := SessionOrder(results);
    seq(|order|, i requires 0 <= i < |order| => EntryFor(predictions, results, order[i]))
  }

  /** The value of calculatePointsPerRace. */
  ghost function Breakdown(predictions: seq<DriverPrediction>, results: seq<RaceResult>): seq<RaceBreakdown>
  {
    SortBy(UnsortedBreakdown(predictions, results), RoundOf)
  }

  /** The value of calculateTotalPoints. */
  ghost function TotalPoints(predictions: seq<DriverPrediction>, results: seq<RaceResult>): int
  {
    SumBy(Breakdown(predictions, results), PointsOf)
  }

  /** The grouping loop of calculatePointsPerRace: a Map from session key to
      rows, kept here as its key order (a JavaScript Map iterates in insertion
      order) and its contents. */
  method GroupBySession(allResults: seq<RaceResult>)
    returns (order: seq<int>, sessionMap: map<int, seq<RaceResult>>)
    ensures order == SessionOrder(allResults)
    ensures forall k :: k in sessionMap <==> k in order
    ensures forall k :: k in order ==> sessionMap[k] == Group(allResults, k)
  {
    order := [];
    sessionMap := map[];
    for i := 0 to |allResults|
      invariant order == SessionOrder(allResults[..i])
      invariant forall k :: k in sessionMap <==> k in order
      invariant forall k :: k in order ==> sessionMap[k] == Group(allResults[..i], k)
    {
      assert allResults[..i + 1][..i] == allResults[..i];
      var result := allResults[i];
      if !HasSessionKey(result) {
        forall k | k in order ensures sessionMap[k] == Group(allResults[..i + 1], k) {
          SessionOrderMembers(allResults[..i], k);
        }
        continue;
      }
      var sessionKey := result.sessionKey.value;
      if sessionKey !in sessionMap {
        SessionOrderMembers(allResults[..i], sessionKey);
        GroupEmpty(allResults[..i], sessionKey);
        sessionMap := sessionMap[sessionKey := []];
        order := order + [sessionKey];
      }
      sessionMap := sessionMap[sessionKey := sessionMap[sessionKey] + [result]];
    }
    assert allResults[..|allResults|] == allResults;
  }

  /** calculatePointsPerRace (lib/points.ts): groups the rows by session,
      scores every session, and sorts the entries by round in place. */
  method CalculatePointsPerRace(predictions: seq<DriverPrediction>, allResults: seq<RaceResult>)
    returns (breakdown: seq<RaceBreakdown>)
    ensures breakdown == Breakdown(predictions, allResults)
  {
    var order, sessionMap := GroupBySession(allResults);
    var entries := ScoreSessions(predictions, allResults, order, sessionMap);
    var sorted := new RaceBreakdown[|entries|](i requires 0 <= i < |entries| => entries[i]);
    assert sorted[..] == entries;
    SortInPlace(sorted, RoundOf);
    breakdown := sorted[..];
  }

  /** The loop over the session map: one entry per session, in map order. */
  method ScoreSessions(predictions: seq<DriverPrediction>, allResults: seq<RaceResult>,
                       order: seq<int>, sessionMap: map<int, seq<RaceResult>>)
    returns (entries: seq<RaceBreakdown>)
    requires order == SessionOrder(allResults)
    requires forall k :: k in order ==> k in sessionMap && sessionMap[k] == Group(allResults, k)
    ensures entries == UnsortedBreakdown(predictions, allResults)
  {
    ghost var all := UnsortedBreakdown(predictions, allResults);
    entries := [];
    for n := 0 to |order|
      invariant entries == all[..n]
    {
      var sessionKey := order[n];
      var raceResults := sessionMap[sessionKey];
      var totalPoints, entry := ScoreSession(predictions, allResults, sessionKey, raceResults);
      if totalPoints > 0 || |raceResults| > 0 {
        entries := entries + [entry];
      }
      PrefixSnoc(all, n);
    }
    assert all[..|order|] == all;
  }

  /** The body of that loop for one session: its points and its entry. */
  method ScoreSession(predictions: seq<DriverPrediction>, allResults: seq<RaceResult>,
                      sessionKey: int, raceResults: seq<RaceResult>)
    returns (totalPoints: int, entry: RaceBreakdown)
    requires sessionKey in SessionOrder(allResults)
    requires raceResults == Group(allResults, sessionKey)
    ensures |raceResults| > 0
    ensures totalPoints == RacePoints(predictions, raceResults)
    ensures entry == EntryFor(predictions, allResults, sessionKey)
  {
    var pointsMap := CalculatePointsForRace(predictions, raceResults);
    totalPoints := SumPoints(pointsMap);
    GroupFirst(allResults, sessionKey);
    var raceName := if |raceResults| > 0 && raceResults[0].raceName != "" then raceResults[0].raceName else "Unknown";
    var round := if |raceResults| > 0 then raceResults[0].round else 0;
    entry := RaceBreakdown(sessionKey, raceName, round, totalPoints);
  }

  /** calculateTotalPoints (lib/points.ts): the breakdown's points, summed. */
  method CalculateTotalPoints(predictions: seq<DriverPrediction>, allResults: seq<RaceResult>)
    returns (total: int)
    ensures total == TotalPoints(predictions, allResults)
  {
    var raceBreakdown := CalculatePointsPerRace(predictions, allResults);
    total := SumBy(raceBreakdown, PointsOf);
  }

  /** A race is worth between 0 and 25 points per prediction entry. */
  lemma RacePointsBounds(predictions: seq<DriverPrediction>, raceResults: seq<RaceResult>)
    ensures 0 <= RacePoints(predictions, raceResults) <= 25 * |predictions|
  {
    SumValuesBounds(PointsMap(predictions, raceResults));
    PointsMapSize(predictions, raceResults);
  }

  /** The breakdown holds one entry per session of the input; it is sorted
      by round, and entries with equal rounds keep the order in which their
      sessions first appeared. */
  lemma BreakdownSorted(predictions: seq<DriverPrediction>, results: seq<RaceResult>)
    ensures |Breakdown(predictions, results)| == |SessionOrder(results)|
    ensures SortedBy(Breakdown(predictions, results), RoundOf)
    ensures SameOrderPerKey(UnsortedBreakdown(predictions, results), Breakdown(predictions, results), RoundOf)
  {
    var u := UnsortedBreakdown(predictions, results);
    SortByCorrect(u, RoundOf);
    assert |multiset(Breakdown(predictions, results))| == |multiset(u)|;
  }

  /** Every session of the input has its entry in the breakdown. */
  lemma BreakdownCoversSessions(predictions: seq<DriverPrediction>, results: seq<RaceResult>)
    ensures forall k :: k in SessionOrder(results) ==> EntryFor(predictions, results, k) in Breakdown(predictions, results)
  {
    var u := UnsortedBreakdown(predictions, results);
    var b := Breakdown(predictions, results);
    var order := SessionOrder(results);
    SortByCorrect(u, RoundOf);
    forall k | k in order ensures EntryFor(predictions, results, k) in b {
      var i :| 0 <= i < |order| && order[i] == k;
      assert u[i] in multiset(b);
    }
  }

  /** Every entry of the breakdown belongs to a session of the input and is
      the one computed from that session's rows. */
  lemma BreakdownEntries(predictions: seq<DriverPrediction>, results: seq<RaceResult>)
    ensures forall e :: e in Breakdown(predictions, results) ==>
              e.sessionKey in SessionOrder(results) && e == EntryFor(predictions, results, e.sessionKey)
  {
    var u := UnsortedBreakdown(predictions, results);
    var b := Breakdown(predictions, results);
    var order := SessionOrder(results);
    SortByCorrect(u, RoundOf);
    forall e | e in b ensures e.sessionKey in order && e == EntryFor(predictions, results, e.sessionKey) {
      assert e in multiset(u);
      var i :| 0 <= i < |u| && u[i] == e;
      assert e == EntryFor(predictions, results, order[i]);
    }
  }

  /** The season total is the sum of the per-race totals, whatever order the
      breakdown is sorted into. */
  lemma TotalIsSumOfRaces(predictions: seq<DriverPrediction>, results: seq<RaceResult>)
    ensures TotalPoints(predictions, results) == SumBy(UnsortedBreakdown(predictions, results), PointsOf)
  {
    SumByPermutation(Breakdown(predictions, results), UnsortedBreakdown(predictions, results), PointsOf);
  }

  lemma {:induction false} SumByNonNegative(b: seq<RaceBreakdown>)
    requires forall e :: e in b ==> e.points >= 0
    ensures SumBy(b, PointsOf) >= 0
    decreases |b|
  {
    if b != [] {
      SumByNonNegative(b[..|b| - 1]);
    }
  }

  /** No race takes points away: the season total is never negative. */
  lemma TotalNonNegative(predictions: seq<DriverPrediction>, results: seq<RaceResult>)
    ensures TotalPoints(predictions, results) >= 0
  {
    var b := Breakdown(predictions, results);
    BreakdownEntries(predictions, results);
    forall e | e in b ensures e.points >= 0 {
      RacePointsBounds(predictions, Group(results, e.sessionKey));
    }
    SumByNonNegative(b);
  }

  /** With no results there is no breakdown and the total is 0. */
  lemma NoResults(predictions: seq<DriverPrediction>)
    ensures Breakdown(predictions, []) == []
    ensures TotalPoints(predictions, []) == 0
  {
  }

  /** A row without a truthy session key, wherever it stands, adds no key to
      the session map and no row to any session's group. */
  lemma {:induction false} KeylessRowInvisible(a: seq<RaceResult>, r: RaceResult, b: seq<RaceResult>, k: int)
    requires !HasSessionKey(r)
    ensures SessionOrder(a + [r] + b) == SessionOrder(a + b)
    ensures k != 0 ==> Group(a + [r] + b, k) == Group(a + b, k)
    decreases |b|
  {
    var with := a + [r] + b;
    var without := a + b;
    if b == [] {
      assert with[..|with| - 1] == a && with[|with| - 1] == r;
      assert without == a;
    } else {
      var init := b[..|b| - 1];
      KeylessRowInvisible(a, r, init, k);
      assert with[..|with| - 1] == a + [r] + init && with[|with| - 1] == b[|b| - 1];
      assert without[..|without| - 1] == a + init && without[|without| - 1] == b[|b| - 1];
    }
  }

  /** A row without a truthy session key, at any position, changes neither
      the breakdown nor the total. */
  lemma KeylessRowIgnored(predictions: seq<DriverPrediction>, a: seq<RaceResult>, r: RaceResult, b: seq<RaceResult>)
    requires !HasSessionKey(r)
    ensures Breakdown(predictions, a + [r] + b) == Breakdown(predictions, a + b)
    ensures TotalPoints(predictions, a + [r] + b) == TotalPoints(predictions, a + b)
  {
    var with := a + [r] + b;
    var without := a + b;
    KeylessRowInvisible(a, r, b, 0);
    var order := SessionOrder(without);
    forall i | 0 <= i < |order|
      ensures EntryFor(predictions, with, order[i]) == EntryFor(predictions, without, order[i])
    {
      SessionOrderMembers(without, order[i]);
      KeylessRowInvisible(a, r, b, order[i]);
    }
    assert UnsortedBreakdown(predictions, with) == UnsortedBreakdown(predictions, without);
  }

  /** Rows that name the same driver are the same row. */
  ghost predicate UniqueDriverRows(results: seq<RaceResult>)
  {
    forall x, y :: x in results && y in results && x.driverId == y.driverId ==> x == y
  }

  /** Predictions that name the same driver are the same prediction. */
  ghost predicate UniqueDriverPredictions(predictions: seq<DriverPrediction>)
  {
    forall x, y :: x in predictions && y in predictions && x.driverId == y.driverId ==> x == y
  }

  /** Rows that share both session key and driver are the same row. */
  ghost predicate UniqueSessionDriverRows(results: seq<RaceResult>)
  {
    forall x, y :: x in results && y in results && x.sessionKey == y.sessionKey && x.driverId == y.driverId ==> x == y
  }

  /** With one row per driver, find gives the same answer on any list
      holding the same rows. */
  lemma FindResultReorder(r1: seq<RaceResult>, r2: seq<RaceResult>, d: int)
    requires forall x :: x in r1 <==> x in r2
    requires UniqueDriverRows(r1)
    ensures FindResult(r1, d) == FindResult(r2, d)
  {
    FindResultFirst(r1, d);
    FindResultFirst(r2, d);
    if FindResult(r1, d).Some? {
      var i :| IsFirstRowFor(r1, i, d) && r1[i] == FindResult(r1, d).value;
      assert r1[i] in r2;
      var j :| 0 <= j < |r2| && r2[j] == r1[i];
      var j' :| IsFirstRowFor(r2, j', d) && r2[j'] == FindResult(r2, d).value;
      assert r2[j'] in r1;
    }
  }

  /** With one row per driver, the race scorer does not depend on the
      order of the results. */
  lemma {:induction false} PointsMapResultsReorder(predictions: seq<DriverPrediction>, r1: seq<RaceResult>, r2: seq<RaceResult>)
    requires forall x :: x in r1 <==> x in r2
    requires UniqueDriverRows(r1)
    ensures PointsMap(predictions, r1) == PointsMap(predictions, r2)
    decreases |predictions|
  {
    if predictions != [] {
      PointsMapResultsReorder(predictions[..|predictions| - 1], r1, r2);
      FindResultReorder(r1, r2, predictions[|predictions| - 1].driverId);
    }
  }

  /** When every prediction naming d is q, the entry for d is q's score
      against the driver's row. */
  lemma {:induction false} PointsMapScoresThe(predictions: seq<DriverPrediction>, results: seq<RaceResult>,
                                               d: int, q: DriverPrediction)
    requires forall i :: 0 <= i < |predictions| && predictions[i].driverId == d ==> predictions[i] == q
    requires d in PointsMap(predictions, results)
    ensures FindResult(results, d).Some?
    ensures PointsMap(predictions, results)[d] == Score(FindResult(results, d).value, q)
    decreases |predictions|
  {
    PointsMapKeys(predictions, results, d);
    FindResultFirst(results, d);
    var prefix := predictions[..|predictions| - 1];
    var last := predictions[|predictions| - 1];
    if last.driverId != d {
      assert forall i :: 0 <= i < |prefix| ==> prefix[i] == predictions[i];
      PointsMapScoresThe(prefix, results, d, q);
    }
  }

  lemma PointsMapReorderHalf(p1: seq<DriverPrediction>, p2: seq<DriverPrediction>, results: seq<RaceResult>, d: int)
    requires forall x :: x in p1 <==> x in p2
    requires UniqueDriverPredictions(p1)
    requires d in PointsMap(p1, results)
    ensures d in PointsMap(p2, results)
    ensures PointsMap(p1, results)[d] == PointsMap(p2, results)[d]
  {
    PointsMapKeys(p1, results, d);
    PointsMapKeys(p2, results, d);
    var i :| 0 <= i < |p1| && p1[i].driverId == d;
    assert p1[i] in p2;
    var q := p1[i];
    PointsMapScoresThe(p1, results, d, q);
    assert forall i2 :: 0 <= i2 < |p2| && p2[i2].driverId == d ==> p2[i2] in p1;
    PointsMapScoresThe(p2, results, d, q);
  }

  /** With one prediction per driver, the race scorer does not depend on
      the order of the predictions. */
  lemma PointsMapPredictionsReorder(p1: seq<DriverPrediction>, p2: seq<DriverPrediction>, results: seq<RaceResult>)
    requires forall x :: x in p1 <==> x in p2
    requires UniqueDriverPredictions(p1)
    ensures PointsMap(p1, results) == PointsMap(p2, results)
  {
    var m1 := PointsMap(p1, results);
    var m2 := PointsMap(p2, results);
    forall d ensures (d in m1 <==> d in m2) && (d in m1 ==> m1[d] == m2[d]) {
      if d in m1 {
        PointsMapReorderHalf(p1, p2, results, d);
      }
      if d in m2 {
        PointsMapReorderHalf(p2, p1, results, d);
      }
    }
  }

  /** With one prediction and one row per driver, the race scorer gives the
      same map under any reordering of its predictions and of its results. */
  lemma PointsMapReorder(p1: seq<DriverPrediction>, p2: seq<DriverPrediction>,
                         r1: seq<RaceResult>, r2: seq<RaceResult>)
    requires multiset(p1) == multiset(p2) && multiset(r1) == multiset(r2)
    requires UniqueDriverPredictions(p1) && UniqueDriverRows(r1)
    ensures PointsMap(p1, r1) == PointsMap(p2, r2)
  {
    assert forall x :: x in r1 <==> x in multiset(r1);
    assert forall x :: x in p1 <==> x in multiset(p1);
    PointsMapResultsReorder(p1, r1, r2);
    PointsMapPredictionsReorder(p1, p2, r2);
  }

  /** The session map collects under k exactly the rows whose key is k. */
  lemma {:induction false} GroupMembers(results: seq<RaceResult>, k: int, x: RaceResult)
    ensures x in Group(results, k) <==> x in results && x.sessionKey == Some(k)
    decreases |results|
  {
    if results != [] {
      var prefix := results[..|results| - 1];
      GroupMembers(prefix, k, x);
      assert results == prefix + [results[|results| - 1]];
    }
  }

  /** One session's points for the user. */
  ghost function SessionPoints(predictions: seq<DriverPrediction>, results: seq<RaceResult>, k: int): int
  {
    RacePoints(predictions, Group(results, k))
  }

  /** The total is the sum of the session points over the map's key order. */
  lemma TotalIsSumOverSessions(predictions: seq<DriverPrediction>, results: seq<RaceResult>)
    ensures TotalPoints(predictions, results)
            == SumBy(SessionOrder(results), k => SessionPoints(predictions, results, k))
  {
    TotalIsSumOfRaces(predictions, results);
    SumByPointwise(UnsortedBreakdown(predictions, results), SessionOrder(results),
                   PointsOf, k => SessionPoints(predictions, results, k));
  }

  /** Two lists holding the same rows have the same session keys, each once,
      so their key orders are permutations of each other. */
  lemma SessionOrderReorder(r1: seq<RaceResult>, r2: seq<RaceResult>)
    requires forall x :: x in r1 <==> x in r2
    ensures multiset(SessionOrder(r1)) == multiset(SessionOrder(r2))
  {
    var o1 := SessionOrder(r1);
    var o2 := SessionOrder(r2);
    SessionOrderDistinct(r1);
    SessionOrderDistinct(r2);
    forall k ensures multiset(o1)[k] == multiset(o2)[k] {
      SessionOrderMembers(r1, k);
      SessionOrderMembers(r2, k);
      NoRepeatsCountOne(o1, k);
      NoRepeatsCountOne(o2, k);
      if exists i :: 0 <= i < |r1| && r1[i].sessionKey == Some(k) {
        var i :| 0 <= i < |r1| && r1[i].sessionKey == Some(k);
        assert r1[i] in r2;
      }
      if exists i :: 0 <= i < |r2| && r2[i].sessionKey == Some(k) {
        var i :| 0 <= i < |r2| && r2[i].sessionKey == Some(k);
        assert r2[i] in r1;
      }
    }
  }

  /** With one row per session and driver, a session's points do not depend
      on the order of the results. */
  lemma SessionPointsReorder(predictions: seq<DriverPrediction>, r1: seq<RaceResult>, r2: seq<RaceResult>, k: int)
    requires forall x :: x in r1 <==> x in r2
    requires UniqueSessionDriverRows(r1)
    ensures SessionPoints(predictions, r1, k) == SessionPoints(predictions, r2, k)
  {
    var g1 := Group(r1, k);
    var g2 := Group(r2, k);
    forall x ensures x in g1 <==> x in g2 {
      GroupMembers(r1, k, x);
      GroupMembers(r2, k, x);
    }
    PointsMapResultsReorder(predictions, g1, g2);
  }

  /** With one row per session and driver, the season total is the same
      under any reordering of the results. */
  lemma TotalPointsReorder(predictions: seq<DriverPrediction>, r1: seq<RaceResult>, r2: seq<RaceResult>)
    requires multiset(r1) == multiset(r2)
    requires UniqueSessionDriverRows(r1)
    ensures TotalPoints(predictions, r1) == TotalPoints(predictions, r2)
  {
    assert forall x :: x in r1 <==> x in multiset(r1);
    var o1 := SessionOrder(r1);
    var o2 := SessionOrder(r2);
    var f1 := k => SessionPoints(predictions, r1, k);
    var f2 := k => SessionPoints(predictions, r2, k);
    TotalIsSumOverSessions(predictions, r1);
    TotalIsSumOverSessions(predictions, r2);
    forall i | 0 <= i < |o1| ensures f1(o1[i]) == f2(o1[i]) {
      SessionPointsReorder(predictions, r1, r2, o1[i]);
    }
    SumByPointwise(o1, o1, f1, f2);
    SessionOrderReorder(r1, r2);
    SumByPermutation(o1, o2, f2);
  }

  /** Exact hits and a miss by two positions: 25 + 15 + 25 = 65 points. */
  lemma ScenarioOneRace(predictions: seq<DriverPrediction>, race: seq<RaceResult>)
    requires predictions == [DriverPrediction(1, 1), DriverPrediction(2, 2), DriverPrediction(3, 3)]
    requires race == [RaceResult("Monza", 1, 2025, Some(100), 1, 1, 25),
                      RaceResult("Monza", 1, 2025, Some(100), 2, 4, 12),
                      RaceResult("Monza", 1, 2025, Some(100), 3, 3, 15)]
    ensures PointsMap(predictions, race) == map[1 := 25, 2 := 15, 3 := 25]
    ensures RacePoints(predictions, race) == 65
  {
    assert FindResult(race, 1) == Some(race[0]);
    assert FindResult(race[1..], 2) == Some(race[1]);
    assert FindResult(race, 2) == Some(race[1]);
    assert FindResult(race[1..][1..], 3) == Some(race[2]);
    assert FindResult(race[1..], 3) == Some(race[2]);
    assert FindResult(race, 3) == Some(race[2]);
    assert predictions[..2][..1] == predictions[..1];
    assert PointsMap(predictions[..1], race) == map[1 := 25];
    assert PointsMap(predictions[..2], race) == map[1 := 25, 2 := 15];
    SumOfThree(1, 2, 3, 25, 15, 25);
  }

  lemma SumOfThree(a: int, b: int, c: int, va: int, vb: int, vc: int)
    requires a != b && a != c && b != c
    ensures SumValues(map[a := va, b := vb, c := vc]) == va + vb + vc
  {
    var m := map[a := va, b := vb, c := vc];
    SumValuesRemove(m, a);
    assert m - {a} == map[b := vb, c := vc];
    SumValuesRemove(m - {a}, b);
    assert m - {a} - {b} == map[c := vc];
    SumValuesRemove(m - {a} - {b}, c);
    assert m - {a} - {b} - {c} == map[];
  }

  /** A race whose rows name no predicted driver scores nothing, yet still
      gets its breakdown entry, with 0 points. */
  lemma ScenarioNoOverlap()
    ensures var predictions := [DriverPrediction(1, 1), DriverPrediction(2, 2), DriverPrediction(3, 3)];
            var race := [RaceResult("Spa", 2, 2025, Some(101), 4, 1, 25)];
            PointsMap(predictions, race) == map[]
            && Breakdown(predictions, race) == [RaceBreakdown(101, "Spa", 2, 0)]
  {
    var predictions := [DriverPrediction(1, 1), DriverPrediction(2, 2), DriverPrediction(3, 3)];
    var race := [RaceResult("Spa", 2, 2025, Some(101), 4, 1, 25)];
    NoOverlapScoresNothing(predictions, race);
    assert race[..0] == [];
    assert SessionOrder(race) == [101];
    assert Group(race, 101) == race;
    assert UnsortedBreakdown(predictions, race) == [RaceBreakdown(101, "Spa", 2, 0)];
  }

  lemma NoOverlapScoresNothing(predictions: seq<DriverPrediction>, race: seq<RaceResult>)
    requires predictions == [DriverPrediction(1, 1), DriverPrediction(2, 2), DriverPrediction(3, 3)]
    requires race == [RaceResult("Spa", 2, 2025, Some(101), 4, 1, 25)]
    ensures PointsMap(predictions, race) == map[]
    ensures RacePoints(predictions, race) == 0
  {
    assert FindResult(race, 1) == None && FindResult(race, 2) == None && FindResult(race, 3) == None;
    assert predictions[..2][..1] == predictions[..1];
    assert PointsMap(predictions[..1], race) == map[];
    assert PointsMap(predictions[..2], race) == map[];
  }
}
