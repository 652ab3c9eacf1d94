/** The data helpers of lib/db.ts, over an in-memory store instead of the
    hosted database. Each table is a map keyed by the natural key the helper
    looks rows up by (team name, driver code, session key and driver id,
    auth id); the prediction tables are lists in insertion order. Row ids
    come from one store-wide counter. */
module Db {
  import opened Common

  datatype Team = Team(id: int, name: string)

  /** The argument of upsertDriver. */
  datatype DriverInput = DriverInput(
    name: string, code: string, number: int,
    country: Option<string>, headshotUrl: Option<string>, teamId: int)

  datatype Driver = Driver(
    id: int, name: string, code: string, number: int,
    country: Option<string>, headshotUrl: Option<string>, teamId: int)

  /** A race result row; the argument of upsertRaceResult has the same fields. */
  datatype ResultRow = ResultRow(
    raceName: string, round: int, year: int, sessionKey: int,
    driverId: int, position: int, points: int)

  /** upsertRaceResult finds a row by session key and driver id together. */
  datatype ResultKey = ResultKey(sessionKey: int, driverId: int)

  function KeyOf(r: ResultRow): ResultKey
  {
    ResultKey(r.sessionKey, r.driverId)
  }

  datatype UserRow = UserRow(id: int, authId: string, name: string, email: string)

  datatype SeasonPredictionRow = SeasonPredictionRow(id: int, userId: int)

  /** One entry of the list createSeasonPrediction receives. */
  datatype PredictionEntry = PredictionEntry(driverId: int, position: int)

  datatype DriverPredictionRow = DriverPredictionRow(
    seasonPredictionId: int, driverId: int, predictedPosition: int)

  /** upsertTeam on the team table: the stored team when the name is known,
      otherwise a new team under that name. */
  function UpsertTeamIn(teams: map<string, Team>, name: string, freshId: int): (r: (map<string, Team>, Team))
    ensures name in teams ==> r.0 == teams && r.1 == teams[name]
    ensures name !in teams ==> r.1 == Team(freshId, name)
    ensures r.0 == teams[name := r.1]
  {
    if name in teams then (teams, teams[name])
    else
      var team := Team(freshId, name);
      (teams[name := team], team)
  }

  /** upsertDriver on the driver table: isNew exactly when the code is
      unknown; the row gets every field of the argument, and an updated row
      keeps its id. */
  function UpsertDriverIn(drivers: map<string, Driver>, d: DriverInput, freshId: int)
    : (r: (map<string, Driver>, Driver, bool))
    ensures r.2 <==> d.code !in drivers
    ensures r.0 == drivers[d.code := r.1]
    ensures r.1.name == d.name && r.1.code == d.code && r.1.number == d.number
            && r.1.country == d.country && r.1.headshotUrl == d.headshotUrl && r.1.teamId == d.teamId
    ensures r.1.id == if d.code in drivers then drivers[d.code].id else freshId
  {
    if d.code in drivers then
      var existing := drivers[d.code];
      var updated := existing.(name := d.name, code := d.code, number := d.number, country := d.country,
                               headshotUrl := d.headshotUrl, teamId := d.teamId);
      (drivers[d.code := updated], updated, false)
    else
      var created := Driver(freshId, d.name, d.code, d.number, d.country, d.headshotUrl, d.teamId);
      (drivers[d.code := created], created, true)
  }

  /** upsertRaceResult on the result table: isNew exactly when no row has
      the same session key and driver id; an update sets race name, round,
      position and points and keeps the stored year, session key and driver. */
  function UpsertRaceResultIn(results: map<ResultKey, ResultRow>, r: ResultRow)
    : (out: (map<ResultKey, ResultRow>, ResultRow, bool))
    ensures out.2 <==> KeyOf(r) !in results
    ensures out.0 == results[KeyOf(r) := out.1]
    ensures out.1.raceName == r.raceName && out.1.round == r.round
            && out.1.position == r.position && out.1.points == r.points
    ensures KeyOf(r) !in results ==> out.1 == r
    ensures KeyOf(r) in results ==>
              var stored := results[KeyOf(r)];
              out.1.year == stored.year && out.1.sessionKey == stored.sessionKey && out.1.driverId == stored.driverId
  {
    var key := KeyOf(r);
    if key in results then
      var updated := results[key].(raceName := r.raceName, round := r.round, position := r.position, points := r.points);
      (results[key := updated], updated, false)
    else
      (results[key := r], r, true)
  }

  /** Upserting the same team twice leaves the table as after once, and the
      second call returns the same team. */
  lemma UpsertTeamTwice(teams: map<string, Team>, name: string, id1: int, id2: int)
    ensures var (once, team) := UpsertTeamIn(teams, name, id1);
            UpsertTeamIn(once, name, id2) == (once, team)
  {
  }

  /** Upserting the same driver twice leaves the table as after once; the
      second call reports an update of the same row. */
  lemma UpsertDriverTwice(drivers: map<string, Driver>, d: DriverInput, id1: int, id2: int)
    ensures var (once, driver, _) := UpsertDriverIn(drivers, d, id1);
            UpsertDriverIn(once, d, id2) == (once, driver, false)
  {
    var (once, driver, _) := UpsertDriverIn(drivers, d, id1);
    assert d.code in once && once[d.code] == driver;
    var (twice, again, isNew) := UpsertDriverIn(once, d, id2);
    assert again == driver;
    assert twice == once;
    assert !isNew;
  }

  /** Upserting the same race result twice leaves the table as after once,
      and the second call reports isNew = false. */
  lemma UpsertRaceResultTwice(results: map<ResultKey, ResultRow>, r: ResultRow)
    ensures var (once, row, _) := UpsertRaceResultIn(results, r);
            UpsertRaceResultIn(once, r) == (once, row, false)
  {
    var (once, row, _) := UpsertRaceResultIn(results, r);
    assert KeyOf(r) in once && once[KeyOf(r)] == row;
    var (twice, again, isNew) := UpsertRaceResultIn(once, r);
    assert again == row;
    assert twice == once;
    assert !isNew;
  }

  /** The rows createSeasonPrediction inserts for a prediction with the given id. */
  function PredictionRows(seasonPredictionId: int, entries: seq<PredictionEntry>): (rows: seq<DriverPredictionRow>)
    ensures |rows| == |entries|
    ensures forall i :: 0 <= i < |rows| ==> rows[i].seasonPredictionId == seasonPredictionId
  {
    if entries == [] then []
    else [DriverPredictionRow(seasonPredictionId, entries[0].driverId, entries[0].position)]
         + PredictionRows(seasonPredictionId, entries[1..])
  }

  /** Reading the entries back from driver prediction rows. */
  function EntriesOf(rows: seq<DriverPredictionRow>): (entries: seq<PredictionEntry>)
    ensures |entries| == |rows|
  {
    if rows == [] then []
    else [PredictionEntry(rows[0].driverId, rows[0].predictedPosition)] + EntriesOf(rows[1..])
  }

  /** The inserted rows hold the entries unchanged and in order: each row's
      driver is the entry's driver and its predicted position the entry's
      position. */
  lemma {:induction false} PredictionRowsRoundTrip(id: int, entries: seq<PredictionEntry>)
    ensures EntriesOf(PredictionRows(id, entries)) == entries
  {
    if entries != [] {
      PredictionRowsRoundTrip(id, entries[1..]);
    }
  }

  /** The driver prediction rows that belong to one season prediction, in table order. */
  function RowsOf(rows: seq<DriverPredictionRow>, seasonPredictionId: int): (r: seq<DriverPredictionRow>)
    ensures forall x :: x in r <==> x in rows && x.seasonPredictionId == seasonPredictionId
  {
    if rows == [] then []
    else (if rows[0].seasonPredictionId == seasonPredictionId then [rows[0]] else [])
         + RowsOf(rows[1..], seasonPredictionId)
  }

  lemma {:induction false} RowsOfAppend(a: seq<DriverPredictionRow>, b: seq<DriverPredictionRow>, id: int)
    ensures RowsOf(a + b, id) == RowsOf(a, id) + RowsOf(b, id)
  {
    if a == [] {
      assert a + b == b;
    } else {
      assert (a + b)[0] == a[0];
      assert (a + b)[1..] == a[1..] + b;
      RowsOfAppend(a[1..], b, id);
    }
  }

  lemma {:induction false} RowsOfAll(rows: seq<DriverPredictionRow>, id: int)
    requires forall i :: 0 <= i < |rows| ==> rows[i].seasonPredictionId == id
    ensures RowsOf(rows, id) == rows
  {
    if rows != [] {
      RowsOfAll(rows[1..], id);
    }
  }

  lemma {:induction false} RowsOfNone(rows: seq<DriverPredictionRow>, id: int)
    requires forall i :: 0 <= i < |rows| ==> rows[i].seasonPredictionId != id
    ensures RowsOf(rows, id) == []
  {
    if rows != [] {
      RowsOfNone(rows[1..], id);
    }
  }

  /** Appending rows that all carry a new id: the rows with that id are
      exactly the appended ones. */
  lemma RowsOfNewId(previous: seq<DriverPredictionRow>, inserted: seq<DriverPredictionRow>, id: int)
    requires forall i :: 0 <= i < |previous| ==> previous[i].seasonPredictionId < id
    requires forall i :: 0 <= i < |inserted| ==> inserted[i].seasonPredictionId == id
    ensures RowsOf(previous + inserted, id) == inserted
  {
    RowsOfNone(previous, id);
    RowsOfAll(inserted, id);
    RowsOfAppend(previous, inserted, id);
  }

  /** The prediction relation as the query returns it (an array), or after
      the transform (one object, or null). */
  datatype Relation = Rows(rows: seq<SeasonPredictionRow>) | Single(row: SeasonPredictionRow) | NoPrediction

  /** The transform of the prediction relation: its first element when it is
      a non-empty array, null otherwise. */
  function Flatten(rel: Relation): (r: Relation)
    ensures r.Single? <==> rel.Rows? && |rel.rows| > 0
    ensures r.Single? ==> r.row == rel.rows[0]
    ensures !r.Single? ==> r == NoPrediction
  {
    if rel.Rows? && |rel.rows| > 0 then Single(rel.rows[0]) else NoPrediction
  }

  /** A user row with its prediction relation. */
  datatype UserWithPrediction = UserWithPrediction(user: UserRow, prediction: Relation)

  /** getAllUsersWithPredictions after the query: the same users in the same
      order, each with its relation transformed. */
  function FlattenAll(users: seq<UserWithPrediction>): (r: seq<UserWithPrediction>)
    ensures |r| == |users|
    ensures forall i :: 0 <= i < |r| ==> r[i].user == users[i].user && r[i].prediction == Flatten(users[i].prediction)
  {
    if users == [] then [] else [users[0].(prediction := Flatten(users[0].prediction))] + FlattenAll(users[1..])
  }

  /** The object getUserByAuthId receives from the query, which it changes in place. */
  class FetchedUser {
    var user: UserRow
    var prediction: Relation

    constructor (user: UserRow, prediction: Relation)
      ensures this.user == user && this.prediction == prediction
    {
      this.user := user;
      this.prediction := prediction;
    }

    /** The in-place transform of getUserByAuthId. */
    method FlattenPrediction()
      modifies this
      ensures prediction == Flatten(old(prediction))
      ensures user == old(user)
    {
      if prediction.Rows? && |prediction.rows| > 0 {
        prediction := Single(prediction.rows[0]);
      } else {
        prediction := NoPrediction;
      }
    }
  }

  /** The season predictions of one user, in table order. */
  function PredictionsOfUser(predictions: seq<SeasonPredictionRow>, userId: int): (r: seq<SeasonPredictionRow>)
    ensures forall p :: p in r <==> p in predictions && p.userId == userId
  {
    if predictions == [] then []
    else (if predictions[0].userId == userId then [predictions[0]] else [])
         + PredictionsOfUser(predictions[1..], userId)
  }

  /** Every season prediction id in use is below the next id to hand out. */
  ghost predicate IdsBelow(seasonPredictions: seq<SeasonPredictionRow>, driverPredictions: seq<DriverPredictionRow>,
                           nextId: int)
  {
    (forall i :: 0 <= i < |seasonPredictions| ==> seasonPredictions[i].id < nextId)
    && (forall i :: 0 <= i < |driverPredictions| ==> driverPredictions[i].seasonPredictionId < nextId)
  }

  /** Handing out nextId to a new prediction and its rows keeps IdsBelow. */
  lemma IdsBelowAfterPrediction(seasonPredictions: seq<SeasonPredictionRow>, driverPredictions: seq<DriverPredictionRow>,
                                nextId: int, userId: int, entries: seq<PredictionEntry>)
    requires IdsBelow(seasonPredictions, driverPredictions, nextId)
    ensures IdsBelow(seasonPredictions + [SeasonPredictionRow(nextId, userId)],
                     driverPredictions + PredictionRows(nextId, entries), nextId + 1)
  {
  }

  /** The tables behind dbHelpers. */
  class Store {
    var teams: map<string, Team>
    var drivers: map<string, Driver>
    var raceResults: map<ResultKey, ResultRow>
    var users: map<string, UserRow>
    var seasonPredictions: seq<SeasonPredictionRow>
    var driverPredictions: seq<DriverPredictionRow>
    var nextId: int

    /** Every row sits under its own natural key, and every prediction id in
        use is below the next id to hand out. */
    ghost predicate Valid()
      reads this
    {
      (forall n :: n in teams ==> teams[n].name == n)
      && (forall c :: c in drivers ==> drivers[c].code == c)
      && (forall k :: k in raceResults ==> KeyOf(raceResults[k]) == k)
      && (forall a :: a in users ==> users[a].authId == a)
      && IdsBelow(seasonPredictions, driverPredictions, nextId)
    }

    constructor ()
      ensures Valid()
      ensures teams == map[] && drivers == map[] && raceResults == map[] && users == map[]
      ensures seasonPredictions == [] && driverPredictions == []
    {
      teams, drivers, raceResults, users := map[], map[], map[], map[];
      seasonPredictions, driverPredictions := [], [];
      nextId := 1;
    }

    /** The team stored under a name, if any. */
    function TeamByName(name: string): (r: Option<Team>)
      reads this
      ensures r.Some? <==> name in teams
      ensures r.Some? ==> r.value == teams[name]
    {
      if name in teams then Some(teams[name]) else None
    }

    /** The driver stored under a code, if any. */
    function DriverByCode(code: string): (r: Option<Driver>)
      reads this
      ensures r.Some? <==> code in drivers
      ensures r.Some? ==> r.value == drivers[code]
    {
      if code in drivers then Some(drivers[code]) else None
    }

    method UpsertTeam(name: string) returns (team: Team)
      requires Valid()
      modifies this
      ensures Valid()
      ensures (teams, team) == UpsertTeamIn(old(teams), name, old(nextId))
      ensures team.name == name
      ensures nextId == if name in old(teams) then old(nextId) else old(nextId) + 1
      ensures drivers == old(drivers) && raceResults == old(raceResults) && users == old(users)
      ensures seasonPredictions == old(seasonPredictions) && driverPredictions == old(driverPredictions)
    {
      if name in teams {
        team := teams[name];
      } else {
        team := Team(nextId, name);
        teams := teams[name := team];
        nextId := nextId + 1;
      }
    }

    method UpsertDriver(driver: DriverInput) returns (data: Driver, isNew: bool)
      requires Valid()
      modifies this
      ensures Valid()
      ensures (drivers, data, isNew) == UpsertDriverIn(old(drivers), driver, old(nextId))
      ensures nextId == if isNew then old(nextId) + 1 else old(nextId)
      ensures teams == old(teams) && raceResults == old(raceResults) && users == old(users)
      ensures seasonPredictions == old(seasonPredictions) && driverPredictions == old(driverPredictions)
    {
      if driver.code in drivers {
        data := drivers[driver.code].(name := driver.name, code := driver.code, number := driver.number,
                                      country := driver.country, headshotUrl := driver.headshotUrl,
                                      teamId := driver.teamId);
        drivers := drivers[driver.code := data];
        isNew := false;
      } else {
        data := Driver(nextId, driver.name, driver.code, driver.number, driver.country,
                       driver.headshotUrl, driver.teamId);
        drivers := drivers[driver.code := data];
        nextId := nextId + 1;
        isNew := true;
      }
    }

    method UpsertRaceResult(result: ResultRow) returns (data: ResultRow, isNew: bool)
      requires Valid()
      modifies this
      ensures Valid()
      ensures (raceResults, data, isNew) == UpsertRaceResultIn(old(raceResults), result)
      ensures teams == old(teams) && drivers == old(drivers) && users == old(users) && nextId == old(nextId)
      ensures seasonPredictions == old(seasonPredictions) && driverPredictions == old(driverPredictions)
    {
      var key := ResultKey(result.sessionKey, result.driverId);
      if key in raceResults {
        data := raceResults[key].(raceName := result.raceName, round := result.round,
                                  position := result.position, points := result.points);
        raceResults := raceResults[key := data];
        isNew := false;
      } else {
        data := result;
        raceResults := raceResults[key := data];
        isNew := true;
      }
    }

    method CreateUser(authId: string, name: string, email: string) returns (user: UserRow)
      requires Valid()
      modifies this
      ensures Valid()
      ensures user == UserRow(old(nextId), authId, name, email)
      ensures users == old(users)[authId := user]
      ensures nextId == old(nextId) + 1
      ensures teams == old(teams) && drivers == old(drivers) && raceResults == old(raceResults)
      ensures seasonPredictions == old(seasonPredictions) && driverPredictions == old(driverPredictions)
    {
      user := UserRow(nextId, authId, name, email);
      users := users[authId := user];
      nextId := nextId + 1;
    }

    /** updateUser: the update of a row that is not there fails in the
        source, so the row must exist. */
    method UpdateUser(authId: string, name: string, email: string) returns (user: UserRow)
      requires Valid() && authId in users
      modifies this
      ensures Valid()
      ensures user == old(users)[authId].(name := name, email := email)
      ensures users == old(users)[authId := user]
      ensures nextId == old(nextId)
      ensures teams == old(teams) && drivers == old(drivers) && raceResults == old(raceResults)
      ensures seasonPredictions == old(seasonPredictions) && driverPredictions == old(driverPredictions)
    {
      user := users[authId].(name := name, email := email);
      users := users[authId := user];
    }

    /** createSeasonPrediction: a new season prediction for the user, one
        driver prediction row per entry, and the new prediction read back
        with exactly the rows just inserted. */
    method CreateSeasonPrediction(userId: int, predictions: seq<PredictionEntry>)
      returns (seasonPrediction: SeasonPredictionRow, rows: seq<DriverPredictionRow>)
      requires Valid()
      modifies this
      ensures Valid()
      ensures seasonPrediction == SeasonPredictionRow(old(nextId), userId)
      ensures seasonPredictions == old(seasonPredictions) + [seasonPrediction]
      ensures driverPredictions == old(driverPredictions) + PredictionRows(seasonPrediction.id, predictions)
      ensures rows == PredictionRows(seasonPrediction.id, predictions)
      ensures rows == RowsOf(driverPredictions, seasonPrediction.id)
      ensures EntriesOf(rows) == predictions
      ensures nextId == old(nextId) + 1
      ensures teams == old(teams) && drivers == old(drivers) && raceResults == old(raceResults) && users == old(users)
    {
      seasonPrediction := SeasonPredictionRow(nextId, userId);
      var inserted := PredictionRows(seasonPrediction.id, predictions);
      IdsBelowAfterPrediction(seasonPredictions, driverPredictions, nextId, userId, predictions);
      RowsOfNewId(driverPredictions, inserted, seasonPrediction.id);
      PredictionRowsRoundTrip(seasonPrediction.id, predictions);
      seasonPredictions := seasonPredictions + [seasonPrediction];
      driverPredictions := driverPredictions + inserted;
      nextId := nextId + 1;
      rows := inserted;
    }

    /** getUserByAuthId: the user row with its predictions, the relation
        changed in place by the transform; null for an unknown auth id. */
    method GetUserByAuthId(authId: string) returns (data: FetchedUser?)
      ensures data == null <==> authId !in users
      ensures data != null ==> fresh(data) && data.user == users[authId]
      ensures data != null ==>
                data.prediction == Flatten(Rows(PredictionsOfUser(seasonPredictions, users[authId].id)))
    {
      if authId !in users {
        return null;
      }
      var user := users[authId];
      data := new FetchedUser(user, Rows(PredictionsOfUser(seasonPredictions, user.id)));
      data.FlattenPrediction();
    }
  }
}
