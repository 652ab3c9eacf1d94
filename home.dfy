/** The leaderboard preview of the home page (app/page.tsx:18-69).

    Every user with a season prediction is scored against all race results
    and ranked by total points, highest first. A second ranking leaves out
    the latest session (the highest session key) and serves as "the standings
    before the last race"; each user's position change is the difference
    between the two ranks. Only the first five rows are shown, but the changes
    are computed on the full ranking first.

    The page recomputes everything from fresh arrays with filter, map, sort,
    findIndex and slice, so it is modelled by functions over values. */
module HomePage {
  import opened Common
  import opened Sorting
  import opened Points

  /** A user as fetched together with its season prediction, if it has one. */
  datatype User = User(id: int, name: string, prediction: Option<seq<DriverPrediction>>)

  /** A row of the current standings. */
  datatype Standing = Standing(
    id: int, name: string, totalPoints: int, lastRacePoints: int,
    predictions: seq<DriverPrediction>)

  /** A row of the standings before the last race. */
  datatype PreviousStanding = PreviousStanding(id: int, totalPoints: int)

  /** A shown row: the standing together with its position change. */
  datatype PreviewRow = PreviewRow(standing: Standing, positionChange: int)

  /** The users that have a season prediction, in fetch order. */
  function WithPrediction(users: seq<User>): (r: seq<User>)
    ensures |r| <= |users|
    ensures forall u :: u in r <==> u in users && u.prediction.Some?
    decreases |users|
  {
    if users == [] then []
    else (if users[0].prediction.Some? then [users[0]] else []) + WithPrediction(users[1..])
  }

  /** User ids are pairwise different (they are primary keys). */
  predicate DistinctIds(users: seq<User>)
  {
    forall i, j :: 0 <= i < j < |users| ==> users[i].id != users[j].id
  }

  lemma {:induction false} WithPredictionDistinct(users: seq<User>)
    requires DistinctIds(users)
    ensures DistinctIds(WithPrediction(users))
    decreases |users|
  {
    if users != [] {
      WithPredictionDistinct(users[1..]);
      var rest := WithPrediction(users[1..]);
      forall u | u in rest ensures u.id != users[0].id {
        var j :| 0 <= j < |users[1..]| && users[1..][j] == u;
        assert users[j + 1] == u;
      }
    }
  }

  /** The points of the last breakdown entry, or 0 without one. */
  function LastRacePoints(breakdown: seq<RaceBreakdown>): int
  {
    if |breakdown| > 0 then breakdown[|breakdown| - 1].points else 0
  }

  /** As the breakdown is sorted by round, the last entry is a race of the
      highest round, and lastRacePoints are its points. */
  lemma LastRaceIsHighestRound(predictions: seq<DriverPrediction>, results: seq<RaceResult>)
    requires Breakdown(predictions, results) != []
    ensures var b := Breakdown(predictions, results);
            LastRacePoints(b) == b[|b| - 1].points
            && forall e :: e in b ==> e.round <= b[|b| - 1].round
  {
    var b := Breakdown(predictions, results);
    BreakdownSorted(predictions, results);
    forall e | e in b ensures e.round <= b[|b| - 1].round {
      var i :| 0 <= i < |b| && b[i] == e;
      if i < |b| - 1 {
        assert RoundOf(b[i]) <= RoundOf(b[|b| - 1]);
      }
    }
  }

  ghost function CurrentEntry(u: User, results: seq<RaceResult>): Standing
    requires u.prediction.Some?
  {
    var predictions := u.prediction.value;
    Standing(u.id, u.name, TotalPoints(predictions, results),
             LastRacePoints(Breakdown(predictions, results)), predictions)
  }

  /** The sort key of a ranking by total points, highest first. */
  function Descending(e: Standing): int
  {
    -e.totalPoints
  }

  function PreviousDescending(e: PreviousStanding): int
  {
    -e.totalPoints
  }

  /** The mapped rows before the sort, in fetch order. */
  ghost function CurrentEntries(users: seq<User>, results: seq<RaceResult>): seq<Standing>
  {
    var ws := WithPrediction(users);
    seq(|ws|, i requires 0 <= i < |ws| => CurrentEntry(ws[i], results))
  }

  /** The current standings: users with a prediction, highest total first. */
  ghost function CurrentStandings(users: seq<User>, results: seq<RaceResult>): seq<Standing>
  {
    SortBy(CurrentEntries(users, results), Descending)
  }

  /** A row's session key, 0 when it has none. */
  function SessionKeyOrZero(r: RaceResult): int
  {
    match r.sessionKey
    case None => 0
    case Some(k) => k
  }

  /** The largest session key of the rows, counting a row without one as 0. */
  function MaxSessionKey(results: seq<RaceResult>): (m: int)
    requires |results| > 0
    ensures forall i :: 0 <= i < |results| ==> SessionKeyOrZero(results[i]) <= m
    ensures exists i :: 0 <= i < |results| && SessionKeyOrZero(results[i]) == m
    decreases |results|
  {
    if |results| == 1 then SessionKeyOrZero(results[0])
    else
      var rest := MaxSessionKey(results[1..]);
      assert forall i :: 1 <= i < |results| ==> SessionKeyOrZero(results[i]) <= rest by {
        forall i | 1 <= i < |results| ensures SessionKeyOrZero(results[i]) <= rest {
          assert results[i] == results[1..][i - 1];
        }
      }
      assert exists i :: 0 <= i < |results| && SessionKeyOrZero(results[i]) == rest by {
        var j :| 0 <= j < |results[1..]| && SessionKeyOrZero(results[1..][j]) == rest;
        assert results[j + 1] == results[1..][j];
      }
      if SessionKeyOrZero(results[0]) >= rest then SessionKeyOrZero(results[0]) else rest
  }

  /** lastRaceSessionKey: the highest session key, a missing key counting
      as 0, or null without results. */
  function LastRaceSessionKey(results: seq<RaceResult>): (k: Option<int>)
    ensures k.None? <==> results == []
  {
    if |results| > 0 then Some(MaxSessionKey(results)) else None
  }

  /** The rows that do not belong to session k. */
  function ExcludeSession(results: seq<RaceResult>, k: int): (r: seq<RaceResult>)
    ensures forall x :: x in r <==> x in results && x.sessionKey != Some(k)
    decreases |results|
  {
    if results == [] then []
    else (if results[0].sessionKey != Some(k) then [results[0]] else []) + ExcludeSession(results[1..], k)
  }

  /** A user's row before session k: its total without that session's rows. */
  ghost function PreviousEntry(u: User, results: seq<RaceResult>, k: int): PreviousStanding
    requires u.prediction.Some?
  {
    PreviousStanding(u.id, TotalPoints(u.prediction.value, ExcludeSession(results, k)))
  }

  ghost function PreviousEntries(users: seq<User>, results: seq<RaceResult>, k: int): seq<PreviousStanding>
  {
    var ws := WithPrediction(users);
    seq(|ws|, i requires 0 <= i < |ws| => PreviousEntry(ws[i], results, k))
  }

  /** previousLeaderboard: empty when the last session key is null or 0. */
  ghost function PreviousStandings(users: seq<User>, results: seq<RaceResult>): seq<PreviousStanding>
  {
    match LastRaceSessionKey(results)
    case None => []
    case Some(k) => if k == 0 then [] else SortBy(PreviousEntries(users, results, k), PreviousDescending)
  }

  /** The first rank in the previous standings held by the user id, or -1. */
  function FindIndexById(previous: seq<PreviousStanding>, id: int): (r: int)
    ensures -1 <= r < |previous|
    ensures r == -1 <==> forall j :: 0 <= j < |previous| ==> previous[j].id != id
    ensures r >= 0 ==> previous[r].id == id && forall j :: 0 <= j < r ==> previous[j].id != id
    decreases |previous|
  {
    if previous == [] then -1
    else if previous[0].id == id then 0
    else
      var r := FindIndexById(previous[1..], id);
      if r < 0 then -1 else r + 1
  }

  /** positionChange of the user at currentIndex: positive when the user
      moved up. */
  function PositionChange(previous: seq<PreviousStanding>, id: int, currentIndex: int): int
  {
    var previousIndex := FindIndexById(previous, id);
    if previousIndex >= 0 then previousIndex - currentIndex else 0
  }

  /** Every current standing paired with its movement since the previous standings. */
  function WithChanges(current: seq<Standing>, previous: seq<PreviousStanding>): (rows: seq<PreviewRow>)
    ensures |rows| == |current|
  {
    seq(|current|, i requires 0 <= i < |current| =>
      PreviewRow(current[i], PositionChange(previous, current[i].id, i)))
  }

  /** The first n elements, or all of them when there are fewer. */
  function Take<T>(s: seq<T>, n: nat): (r: seq<T>)
    ensures |r| == if |s| <= n then |s| else n
    ensures forall i :: 0 <= i < |r| ==> r[i] == s[i]
  {
    if |s| <= n then s else s[..n]
  }

  /** leaderboard: the first five rows, with their changes. */
  ghost function Preview(users: seq<User>, results: seq<RaceResult>): seq<PreviewRow>
  {
    Take(WithChanges(CurrentStandings(users, results), PreviousStandings(users, results)), 5)
  }

  /** The positions in the fetched list of the users that have a prediction. */
  ghost function PredictionIndices(users: seq<User>): set<int>
  {
    set i | 0 <= i < |users| && users[i].prediction.Some?
  }

  /** Filtering distributes over concatenation. */
  lemma {:induction false} WithPredictionAppend(xs: seq<User>, ys: seq<User>)
    ensures WithPrediction(xs + ys) == WithPrediction(xs) + WithPrediction(ys)
    decreases |xs|
  {
    if xs != [] {
      assert (xs + ys)[0] == xs[0];
      assert (xs + ys)[1..] == xs[1..] + ys;
      WithPredictionAppend(xs[1..], ys);
    } else {
      assert xs + ys == ys;
    }
  }

  /** The filter keeps every user with a prediction as often as the list
      holds it, and no other user. */
  lemma {:induction false} WithPredictionMultiset(users: seq<User>, u: User)
    ensures multiset(WithPrediction(users))[u] == if u.prediction.Some? then multiset(users)[u] else 0
    decreases |users|
  {
    if users != [] {
      WithPredictionMultiset(users[1..], u);
      assert users == [users[0]] + users[1..];
    }
  }

  /** The filter of a list with one more user at the end. */
  lemma WithPredictionSnoc(init: seq<User>, last: User)
    ensures |WithPrediction(init + [last])|
            == |WithPrediction(init)| + (if last.prediction.Some? then 1 else 0)
  {
    WithPredictionAppend(init, [last]);
    WithPredictionSingle(last);
  }

  /** The filter of a one-user list. */
  lemma WithPredictionSingle(u: User)
    ensures |WithPrediction([u])| == if u.prediction.Some? then 1 else 0
  {
    assert [u][1..] == [];
  }

  /** The positions holding a prediction in a non-empty list: those of all
      but its last position, then the last one when its user has a prediction. */
  lemma PredictionIndicesSnoc(users: seq<User>)
    requires users != []
    ensures var last := users[|users| - 1];
            |PredictionIndices(users)|
            == |PredictionIndices(users[..|users| - 1])| + (if last.prediction.Some? then 1 else 0)
  {
    var init := users[..|users| - 1];
    var before := PredictionIndices(init);
    var after := PredictionIndices(users);
    var added: set<int> := if users[|users| - 1].prediction.Some? then {|init|} else {};
    forall i ensures i in after <==> i in before + added {
      if 0 <= i < |init| {
        assert users[i] == init[i];
      }
    }
    assert after == before + added;
    assert |init| !in before;
  }

  /** The filter keeps one user per position that holds a prediction. */
  lemma {:induction false} WithPredictionCount(users: seq<User>)
    ensures |WithPrediction(users)| == |PredictionIndices(users)|
    decreases |users|
  {
    if users != [] {
      var init := users[..|users| - 1];
      WithPredictionCount(init);
      WithPredictionSnoc(init, users[|users| - 1]);
      assert init + [users[|users| - 1]] == users;
      PredictionIndicesSnoc(users);
    }
  }

  /** totalPredictions: the number of fetched users that have a prediction. */
  function TotalPredictions(users: seq<User>): (n: nat)
    ensures n == |PredictionIndices(users)|
    ensures n == |WithPrediction(users)|
  {
    WithPredictionCount(users);
    |WithPrediction(users)|
  }

  lemma StandingsDescending(ranked: seq<Standing>)
    requires SortedBy(ranked, Descending)
    ensures forall i, j :: 0 <= i < j < |ranked| ==> ranked[i].totalPoints >= ranked[j].totalPoints
  {
    forall i, j | 0 <= i < j < |ranked| ensures ranked[i].totalPoints >= ranked[j].totalPoints {
      assert Descending(ranked[i]) <= Descending(ranked[j]);
    }
  }

  /** The ranking holds exactly the rows of the users with a prediction. */
  lemma CurrentEntriesMembers(users: seq<User>, results: seq<RaceResult>, e: Standing)
    ensures e in CurrentEntries(users, results)
        <==> exists u :: u in users && u.prediction.Some? && e == CurrentEntry(u, results)
  {
    var ws := WithPrediction(users);
    var entries := CurrentEntries(users, results);
    if e in entries {
      var i :| 0 <= i < |entries| && entries[i] == e;
      assert ws[i] in ws;
    }
    if exists u :: u in users && u.prediction.Some? && e == CurrentEntry(u, results) {
      var u :| u in users && u.prediction.Some? && e == CurrentEntry(u, results);
      var i :| 0 <= i < |ws| && ws[i] == u;
      assert entries[i] == e;
    }
  }

  /** Exactly the users with a prediction are ranked, each by its total
      points; the ranking is descending and keeps the fetch order of users
      with equal totals. */
  lemma CurrentStandingsShape(users: seq<User>, results: seq<RaceResult>)
    ensures |CurrentStandings(users, results)| == TotalPredictions(users)
    ensures forall i, j :: 0 <= i < j < |CurrentStandings(users, results)| ==>
              CurrentStandings(users, results)[i].totalPoints >= CurrentStandings(users, results)[j].totalPoints
    ensures SameOrderPerKey(CurrentEntries(users, results), CurrentStandings(users, results), Descending)
    ensures forall e :: e in CurrentStandings(users, results) <==>
              exists u :: u in users && u.prediction.Some? && e == CurrentEntry(u, results)
  {
    var entries := CurrentEntries(users, results);
    var ranked := CurrentStandings(users, results);
    SortByCorrect(entries, Descending);
    StandingsDescending(ranked);
    forall e ensures e in ranked <==> exists u :: u in users && u.prediction.Some? && e == CurrentEntry(u, results) {
      CurrentEntriesMembers(users, results, e);
      SortByMembers(entries, Descending, e);
    }
  }

  /** The last session key is the highest key of all rows, a missing key
      counting as 0; there is one exactly when there are results. */
  lemma LastRaceSessionKeyIsMax(results: seq<RaceResult>)
    ensures LastRaceSessionKey(results).None? <==> results == []
    ensures LastRaceSessionKey(results).Some? ==>
              (forall r :: r in results ==> SessionKeyOrZero(r) <= LastRaceSessionKey(results).value)
              && exists r :: r in results && SessionKeyOrZero(r) == LastRaceSessionKey(results).value
  {
    if results != [] {
      var m := MaxSessionKey(results);
      var i :| 0 <= i < |results| && SessionKeyOrZero(results[i]) == m;
      assert results[i] in results;
    }
  }

  lemma PreviousEntriesMembers(users: seq<User>, results: seq<RaceResult>, k: int, e: PreviousStanding)
    ensures e in PreviousEntries(users, results, k)
        <==> exists u :: u in users && u.prediction.Some? && e == PreviousEntry(u, results, k)
  {
    var ws := WithPrediction(users);
    var entries := PreviousEntries(users, results, k);
    if e in entries {
      var i :| 0 <= i < |entries| && entries[i] == e;
      assert ws[i] in ws;
    }
    if exists u :: u in users && u.prediction.Some? && e == PreviousEntry(u, results, k) {
      var u :| u in users && u.prediction.Some? && e == PreviousEntry(u, results, k);
      var i :| 0 <= i < |ws| && ws[i] == u;
      assert entries[i] == e;
    }
  }

  lemma PreviousDescendingOrder(ranked: seq<PreviousStanding>)
    requires SortedBy(ranked, PreviousDescending)
    ensures forall i, j :: 0 <= i < j < |ranked| ==> ranked[i].totalPoints >= ranked[j].totalPoints
  {
    forall i, j | 0 <= i < j < |ranked| ensures ranked[i].totalPoints >= ranked[j].totalPoints {
      assert PreviousDescending(ranked[i]) <= PreviousDescending(ranked[j]);
    }
  }

  /** Without a truthy last session key there are no previous standings;
      otherwise they rank the same users by their totals over the results
      with every row of that session removed, highest first. */
  lemma PreviousStandingsShape(users: seq<User>, results: seq<RaceResult>)
    ensures LastRaceSessionKey(results) in {None, Some(0)} ==> PreviousStandings(users, results) == []
    ensures LastRaceSessionKey(results).Some? && LastRaceSessionKey(results).value != 0 ==>
              var k := LastRaceSessionKey(results).value;
              var previous := PreviousStandings(users, results);
              |previous| == TotalPredictions(users)
              && (forall i, j :: 0 <= i < j < |previous| ==> previous[i].totalPoints >= previous[j].totalPoints)
              && (forall e :: e in previous <==>
                    exists u :: u in users && u.prediction.Some? && e == PreviousEntry(u, results, k))
  {
    var key := LastRaceSessionKey(results);
    if key.Some? && key.value != 0 {
      var k := key.value;
      var entries := PreviousEntries(users, results, k);
      var previous := PreviousStandings(users, results);
      SortByCorrect(entries, PreviousDescending);
      PreviousDescendingOrder(previous);
      forall e ensures e in previous <==> exists u :: u in users && u.prediction.Some? && e == PreviousEntry(u, results, k) {
        PreviousEntriesMembers(users, results, k, e);
        SortByMembers(entries, PreviousDescending, e);
      }
    }
  }

  /** Without previous standings every position change is 0. */
  lemma NoPreviousNoChange(current: seq<Standing>)
    ensures forall i :: 0 <= i < |current| ==> WithChanges(current, [])[i].positionChange == 0
  {
  }

  /** The shown rows are the first five rows of the full ranking, and their
      changes were computed from their ranks in the full ranking. */
  lemma PreviewKeepsChanges(users: seq<User>, results: seq<RaceResult>)
    ensures var current := CurrentStandings(users, results);
            var preview := Preview(users, results);
            |preview| == (if |current| <= 5 then |current| else 5)
            && forall i :: 0 <= i < |preview| ==>
                 preview[i].standing == current[i]
                 && preview[i].positionChange == PositionChange(PreviousStandings(users, results), current[i].id, i)
  {
  }

  function PositionChangeOf(r: PreviewRow): int
  {
    r.positionChange
  }

  function Triangle(n: nat): nat
  {
    if n == 0 then 0 else Triangle(n - 1) + n - 1
  }

  /** The rank in the previous standings of a row's user. */
  function PreviousRank(previous: seq<PreviousStanding>): Standing -> int
  {
    (e: Standing) => FindIndexById(previous, e.id)
  }

  function OwnRank(previous: seq<PreviousStanding>): PreviousStanding -> int
  {
    (e: PreviousStanding) => FindIndexById(previous, e.id)
  }

  /** When every user is found, the changes add up to the sum of previous
      ranks minus the sum of current ranks 0 + 1 + ... + (n - 1). */
  lemma {:induction false} ChangeSum(current: seq<Standing>, previous: seq<PreviousStanding>, n: nat)
    requires n <= |current|
    requires forall i :: 0 <= i < |current| ==> FindIndexById(previous, current[i].id) >= 0
    ensures SumBy(WithChanges(current, previous)[..n], PositionChangeOf)
         == SumBy(current[..n], PreviousRank(previous)) - Triangle(n)
  {
    if n > 0 {
      ChangeSum(current, previous, n - 1);
      ChangeSumStep(current, previous, n);
    }
  }

  lemma ChangeSumStep(current: seq<Standing>, previous: seq<PreviousStanding>, n: nat)
    requires 0 < n <= |current|
    requires FindIndexById(previous, current[n - 1].id) >= 0
    ensures SumBy(WithChanges(current, previous)[..n], PositionChangeOf)
         == SumBy(WithChanges(current, previous)[..n - 1], PositionChangeOf)
            + FindIndexById(previous, current[n - 1].id) - (n - 1)
    ensures SumBy(current[..n], PreviousRank(previous))
         == SumBy(current[..n - 1], PreviousRank(previous)) + FindIndexById(previous, current[n - 1].id)
  {
    var rows := WithChanges(current, previous);
    assert rows[..n][..n - 1] == rows[..n - 1];
    assert current[..n][..n - 1] == current[..n - 1];
  }

  /** In standings with distinct users, the previous ranks are 0, ..., n - 1. */
  lemma {:induction false} OwnRankSum(previous: seq<PreviousStanding>, n: nat)
    requires n <= |previous|
    requires forall i, j :: 0 <= i < j < |previous| ==> previous[i].id != previous[j].id
    ensures SumBy(previous[..n], OwnRank(previous)) == Triangle(n)
  {
    if n > 0 {
      OwnRankSum(previous, n - 1);
      OwnRankStep(previous, n);
    }
  }

  lemma OwnRankStep(previous: seq<PreviousStanding>, n: nat)
    requires 0 < n <= |previous|
    requires forall i, j :: 0 <= i < j < |previous| ==> previous[i].id != previous[j].id
    ensures SumBy(previous[..n], OwnRank(previous)) == SumBy(previous[..n - 1], OwnRank(previous)) + (n - 1)
  {
    assert previous[..n][..n - 1] == previous[..n - 1];
    assert FindIndexById(previous, previous[n - 1].id) == n - 1;
  }

  /** The current and the previous rows name the same user at every
      position, and with distinct user ids no user twice. */
  lemma EntriesNameSameUsers(users: seq<User>, results: seq<RaceResult>, k: int)
    requires DistinctIds(users)
    ensures |CurrentEntries(users, results)| == |PreviousEntries(users, results, k)|
    ensures forall i :: 0 <= i < |CurrentEntries(users, results)| ==>
              CurrentEntries(users, results)[i].id == PreviousEntries(users, results, k)[i].id
    ensures forall i, j :: 0 <= i < j < |PreviousEntries(users, results, k)| ==>
              PreviousEntries(users, results, k)[i].id != PreviousEntries(users, results, k)[j].id
  {
    WithPredictionDistinct(users);
  }

  /** Two rankings of the same users, given as permutations of two row lists
      that name the same user at every position: every user of the first
      ranking is found in the second, and the second-ranking positions of the
      first ranking's rows are 0, ..., n - 1 in some order. */
  lemma RanksOfSameUsers(current: seq<Standing>, currentRows: seq<Standing>,
                         previousRows: seq<PreviousStanding>, previous: seq<PreviousStanding>)
    requires multiset(current) == multiset(currentRows)
    requires multiset(previousRows) == multiset(previous)
    requires |currentRows| == |previousRows|
    requires forall i :: 0 <= i < |currentRows| ==> currentRows[i].id == previousRows[i].id
    requires forall i, j :: 0 <= i < j < |previousRows| ==> previousRows[i].id != previousRows[j].id
    ensures forall i :: 0 <= i < |current| ==> FindIndexById(previous, current[i].id) >= 0
    ensures SumBy(current, PreviousRank(previous)) == Triangle(|current|)
  {
    forall i | 0 <= i < |current| ensures FindIndexById(previous, current[i].id) >= 0 {
      assert current[i] in multiset(currentRows);
      var j :| 0 <= j < |currentRows| && currentRows[j] == current[i];
      assert previousRows[j] in multiset(previous);
      var p :| 0 <= p < |previous| && previous[p] == previousRows[j];
      assert previous[p].id == current[i].id;
    }
    SumByPermutation(current, currentRows, PreviousRank(previous));
    SumByPointwise(currentRows, previousRows, PreviousRank(previous), OwnRank(previous));
    SumByPermutation(previousRows, previous, OwnRank(previous));
    PermutationKeepsDistinct(previousRows, previous, (e: PreviousStanding) => e.id);
    OwnRankSum(previous, |previous|);
    assert previous[..|previous|] == previous;
    assert |current| == |previous| by {
      calc {
        |current|;
        |multiset(current)|;
        |multiset(currentRows)|;
        |multiset(previousRows)|;
        |multiset(previous)|;
        |previous|;
      }
    }
  }

  /** Whenever the previous standings are non-empty they rank the same
      users as the current ones, so with distinct user ids every user is
      found there and the position changes add up to 0. */
  lemma ChangesSumToZero(users: seq<User>, results: seq<RaceResult>)
    requires DistinctIds(users)
    requires PreviousStandings(users, results) != []
    ensures forall e :: e in CurrentStandings(users, results) ==>
              FindIndexById(PreviousStandings(users, results), e.id) >= 0
    ensures SumBy(WithChanges(CurrentStandings(users, results), PreviousStandings(users, results)), PositionChangeOf) == 0
  {
    StandingsRankSameUsers(users, results);
    ChangesCancel(CurrentStandings(users, results), PreviousStandings(users, results));
  }

  /** Both standings rank the users with a prediction: every current user
      has a previous rank, and those ranks are 0, ..., n - 1 in some order. */
  lemma StandingsRankSameUsers(users: seq<User>, results: seq<RaceResult>)
    requires DistinctIds(users)
    requires PreviousStandings(users, results) != []
    ensures var current := CurrentStandings(users, results);
            var previous := PreviousStandings(users, results);
            (forall i :: 0 <= i < |current| ==> FindIndexById(previous, current[i].id) >= 0)
            && SumBy(current, PreviousRank(previous)) == Triangle(|current|)
  {
    var currentEntries := CurrentEntries(users, results);
    var k := LastRaceSessionKey(results).value;
    var previousEntries := PreviousEntries(users, results, k);
    assert LastRaceSessionKey(results).Some? && k != 0;
    SortByCorrect(currentEntries, Descending);
    SortByCorrect(previousEntries, PreviousDescending);
    EntriesNameSameUsers(users, results, k);
    RanksOfSameUsers(CurrentStandings(users, results), currentEntries, previousEntries, PreviousStandings(users, results));
  }

  /** If every user of the current ranking is found in the previous one and
      the previous ranks add up to 0 + 1 + ... + (n - 1), the changes cancel. */
  lemma ChangesCancel(current: seq<Standing>, previous: seq<PreviousStanding>)
    requires forall i :: 0 <= i < |current| ==> FindIndexById(previous, current[i].id) >= 0
    requires SumBy(current, PreviousRank(previous)) == Triangle(|current|)
    ensures forall e :: e in current ==> FindIndexById(previous, e.id) >= 0
    ensures SumBy(WithChanges(current, previous), PositionChangeOf) == 0
  {
    forall e | e in current ensures FindIndexById(previous, e.id) >= 0 {
      var i :| 0 <= i < |current| && current[i] == e;
    }
    ChangeSum(current, previous, |current|);
    assert WithChanges(current, previous)[..|current|] == WithChanges(current, previous);
    assert current[..|current|] == current;
  }
}
