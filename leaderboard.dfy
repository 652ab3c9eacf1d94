/** The leaderboard page (app/leaderboard/page.tsx).

    Every user with a season prediction gets a row with the season total
    and the per-race breakdown; the rows are then sorted in place by total,
    highest first. Until the reveal instant the page shows the countdown
    instead of the scores, and with no rows it shows an empty state. */
module LeaderboardPage {
  import opened Common
  import opened Sorting
  import opened Points
  import opened Countdown
  import opened HomePage

  datatype LeaderboardEntry = LeaderboardEntry(
    id: int, name: string, totalPoints: int, raceBreakdown: seq<RaceBreakdown>)

  /** What the page renders. */
  datatype View = CountdownView | EmptyState | Scores(entries: seq<LeaderboardEntry>)

  ghost function Row(u: User, results: seq<RaceResult>): LeaderboardEntry
    requires u.prediction.Some?
  {
    var predictions := u.prediction.value;
    LeaderboardEntry(u.id, u.name, TotalPoints(predictions, results), Breakdown(predictions, results))
  }

  /** The filter/map pipeline, in fetch order. */
  ghost function Rows(users: seq<User>, results: seq<RaceResult>): seq<LeaderboardEntry>
  {
    var ws := WithPrediction(users);
    seq(|ws|, i requires 0 <= i < |ws| => Row(ws[i], results))
  }

  /** The sort key of a ranking by total points, highest first. */
  function ByTotalDescending(e: LeaderboardEntry): int
  {
    -e.totalPoints
  }

  /** The leaderboard after its in-place sort. */
  ghost function Ranked(users: seq<User>, results: seq<RaceResult>): seq<LeaderboardEntry>
  {
    SortBy(Rows(users, results), ByTotalDescending)
  }

  /** The page's choice of view (app/leaderboard/page.tsx:45-61). */
  ghost function PageView(now: int, users: seq<User>, results: seq<RaceResult>): View
  {
    if !ShouldRevealScores(now) then CountdownView
    else if |Rows(users, results)| == 0 then EmptyState
    else Scores(Ranked(users, results))
  }

  /** Lines 16-31: builds one row per user with a prediction and sorts the
      array in place. */
  method BuildLeaderboard(users: seq<User>, raceResults: seq<RaceResult>)
    returns (leaderboard: array<LeaderboardEntry>)
    ensures fresh(leaderboard)
    ensures leaderboard[..] == Ranked(users, raceResults)
  {
    var rows := BuildRows(users, raceResults);
    leaderboard := new LeaderboardEntry[|rows|](j requires 0 <= j < |rows| => rows[j]);
    assert leaderboard[..] == rows;
    SortInPlace(leaderboard, ByTotalDescending);
  }

  /** Lines 16-29: one row per user with a prediction, in fetch order. */
  method BuildRows(users: seq<User>, raceResults: seq<RaceResult>)
    returns (rows: seq<LeaderboardEntry>)
    ensures rows == Rows(users, raceResults)
  {
    var withPrediction := WithPrediction(users);
    ghost var all := Rows(users, raceResults);
    rows := [];
    for i := 0 to |withPrediction|
      invariant rows == all[..i]
    {
      assert withPrediction[i] in users;
      var row := BuildRow(withPrediction[i], raceResults);
      PrefixSnoc(all, i);
      rows := rows + [row];
    }
    assert all[..|withPrediction|] == all;
  }

  /** Lines 19-28: the row of one user with a prediction. */
  method BuildRow(user: User, raceResults: seq<RaceResult>) returns (row: LeaderboardEntry)
    requires user.prediction.Some?
    ensures row == Row(user, raceResults)
  {
    var predictions := user.prediction.value;
    var totalPoints := CalculateTotalPoints(predictions, raceResults);
    var raceBreakdown := CalculatePointsPerRace(predictions, raceResults);
    row := LeaderboardEntry(user.id, user.name, totalPoints, raceBreakdown);
  }

  /** The page: the clock reading is a parameter. */
  method RenderLeaderboardPage(now: int, users: seq<User>, raceResults: seq<RaceResult>)
    returns (view: View)
    ensures view == PageView(now, users, raceResults)
  {
    var showScores := ShouldRevealScores(now);
    var leaderboard := BuildLeaderboard(users, raceResults);
    if !showScores {
      view := CountdownView;
    } else if leaderboard.Length == 0 {
      view := EmptyState;
    } else {
      view := Scores(leaderboard[..]);
    }
  }

  lemma RowsMembers(users: seq<User>, results: seq<RaceResult>, e: LeaderboardEntry)
    ensures e in Rows(users, results) <==> exists u :: u in users && u.prediction.Some? && e == Row(u, results)
  {
    if e in Rows(users, results) {
      RowOfSomeUser(users, results, e);
    }
    if exists u :: u in users && u.prediction.Some? && e == Row(u, results) {
      var u :| u in users && u.prediction.Some? && e == Row(u, results);
      UserHasRow(users, results, u);
    }
  }

  lemma RowOfSomeUser(users: seq<User>, results: seq<RaceResult>, e: LeaderboardEntry)
    requires e in Rows(users, results)
    ensures exists u :: u in users && u.prediction.Some? && e == Row(u, results)
  {
    var ws := WithPrediction(users);
    var rows := Rows(users, results);
    var i :| 0 <= i < |rows| && rows[i] == e;
    assert ws[i] in ws && rows[i] == Row(ws[i], results);
  }

  lemma UserHasRow(users: seq<User>, results: seq<RaceResult>, u: User)
    requires u in users && u.prediction.Some?
    ensures Row(u, results) in Rows(users, results)
  {
    var ws := WithPrediction(users);
    var i :| 0 <= i < |ws| && ws[i] == u;
    assert Rows(users, results)[i] == Row(u, results);
  }

  lemma RankedDescending(ranked: seq<LeaderboardEntry>)
    requires SortedBy(ranked, ByTotalDescending)
    ensures forall i :: 0 <= i < |ranked| - 1 ==> ranked[i].totalPoints >= ranked[i + 1].totalPoints
  {
    forall i | 0 <= i < |ranked| - 1 ensures ranked[i].totalPoints >= ranked[i + 1].totalPoints {
      assert ByTotalDescending(ranked[i]) <= ByTotalDescending(ranked[i + 1]);
    }
  }

  /** The leaderboard holds one row for each user with a prediction and no
      other; each row's total is the sum of its breakdown; neighbours are in
      descending order of total; and rows with equal totals keep the fetch
      order. */
  lemma LeaderboardShape(users: seq<User>, results: seq<RaceResult>)
    ensures |Ranked(users, results)| == TotalPredictions(users)
    ensures forall e :: e in Ranked(users, results) <==>
              exists u :: u in users && u.prediction.Some? && e == Row(u, results)
    ensures forall e :: e in Ranked(users, results) ==> e.totalPoints == SumBy(e.raceBreakdown, PointsOf)
    ensures forall i :: 0 <= i < |Ranked(users, results)| - 1 ==>
              Ranked(users, results)[i].totalPoints >= Ranked(users, results)[i + 1].totalPoints
    ensures SameOrderPerKey(Rows(users, results), Ranked(users, results), ByTotalDescending)
  {
    var rows := Rows(users, results);
    var ranked := Ranked(users, results);
    SortByCorrect(rows, ByTotalDescending);
    RankedDescending(ranked);
    forall e ensures e in ranked <==> exists u :: u in users && u.prediction.Some? && e == Row(u, results) {
      RowsMembers(users, results, e);
      SortByMembers(rows, ByTotalDescending, e);
    }
  }

  /** Scores are shown exactly after the reveal instant and when some user
      has a prediction; before it the countdown is shown whatever the data. */
  lemma ScoresOnlyAfterReveal(now: int, users: seq<User>, results: seq<RaceResult>)
    ensures PageView(now, users, results).Scores? <==> ShouldRevealScores(now) && TotalPredictions(users) > 0
    ensures PageView(now, users, results) == CountdownView <==> !ShouldRevealScores(now)
    ensures PageView(now, users, results) == EmptyState <==> ShouldRevealScores(now) && TotalPredictions(users) == 0
  {
  }
}
