/** POST of app/api/sync/drivers/route.ts: the admin check, the year
    (2025 when the body has none), the race sessions of that year, and the
    upsert of every driver of the last race, with its team, while four
    counters record what was created and what was updated. The provider's
    session and driver lists are parameters. */
module SyncDrivers {
  import opened Common
  import opened Validation
  import opened Auth
  import opened OpenF1
  import opened Db

  /** One driver as the provider lists it for a session. */
  datatype OpenF1Driver = OpenF1Driver(
    driverNumber: int, fullName: string, nameAcronym: string, teamName: string,
    countryCode: string, headshotUrl: Option<string>)

  datatype DriversTally = DriversTally(teamsCreated: int, teamsUpdated: int, driversCreated: int, driversUpdated: int)

  const NoChanges := DriversTally(0, 0, 0, 0)

  /** The route's choice: the validated year and its race sessions. */
  datatype Scan = Scan(year: int, races: seq<Session>)

  /** The answer of the route. */
  datatype Outcome = Refused(response: Response) | Synced(year: int, sessionsScanned: int, results: DriversTally)

  /** The tables the route writes, with the id counter. */
  datatype Tables = Tables(teams: map<string, Team>, drivers: map<string, Driver>, nextId: int)

  function TablesOf(store: Store): Tables
    reads store
  {
    Tables(store.teams, store.drivers, store.nextId)
  }

  /** The year the body names: body is the year property of the parsed
      body, None when the body is not JSON; both a missing body and a
      missing property give the default 2025. */
  function RequestedYear(body: Option<JsValue>): (year: JsValue)
    ensures body.None? || body.value.Undefined? ==> year == Num(2025)
    ensures body.Some? && !body.value.Undefined? ==> year == body.value
  {
    if body.None? || body.value.Undefined? then Num(2025) else body.value
  }

  /** The route's choice of year and races, or the answer that ends it early. */
  ghost function Plan(authHeader: Option<string>, adminPassword: Option<string>, body: Option<JsValue>,
                      fetchSessions: int -> seq<Session>): Result<Scan>
  {
    var auth := CheckAdminAuth(authHeader, adminPassword);
    if auth.Some? then Err(auth.value)
    else
      var validated := ValidateYear(RequestedYear(body));
      if validated.Err? then Err(validated.response)
      else
        var races := RaceSessions(fetchSessions(validated.value));
        if races == [] then Err(Response(404, "No race sessions found for year " + IntToString(validated.value)))
        else Ok(Scan(validated.value, races))
  }

  /** Without a year the route syncs 2025: it answers as for a body naming 2025. */
  lemma MissingYearIs2025(authHeader: Option<string>, adminPassword: Option<string>,
                          fetchSessions: int -> seq<Session>)
    ensures Plan(authHeader, adminPassword, None, fetchSessions)
            == Plan(authHeader, adminPassword, Some(Num(2025)), fetchSessions)
    ensures Plan(authHeader, adminPassword, Some(Undefined), fetchSessions)
            == Plan(authHeader, adminPassword, Some(Num(2025)), fetchSessions)
    ensures CheckAdminAuth(authHeader, adminPassword).None? && RaceSessions(fetchSessions(2025)) != [] ==>
              Plan(authHeader, adminPassword, None, fetchSessions) == Ok(Scan(2025, RaceSessions(fetchSessions(2025))))
  {
    AcceptsSeasonYears(2025);
  }

  /** A year with no race sessions is answered 404, naming the year. */
  lemma NoRacesNotFound(authHeader: Option<string>, adminPassword: Option<string>, y: int,
                        fetchSessions: int -> seq<Session>)
    requires CheckAdminAuth(authHeader, adminPassword).None?
    requires 2000 <= y <= 2030 && RaceSessions(fetchSessions(y)) == []
    ensures Plan(authHeader, adminPassword, Some(Num(y)), fetchSessions)
            == Err(Response(404, "No race sessions found for year " + IntToString(y)))
  {
    AcceptsSeasonYears(y);
  }

  /** The race whose drivers are synced: the last in the list. */
  function LatestRace(races: seq<Session>): (s: Session)
    requires races != []
    ensures s in races && s == races[|races| - 1]
  {
    races[|races| - 1]
  }

  /** The argument of upsertDriver for a provider driver and its team id. */
  function InputOf(od: OpenF1Driver, teamId: int): DriverInput
  {
    DriverInput(od.fullName, od.nameAcronym, od.driverNumber, Some(od.countryCode), od.headshotUrl, teamId)
  }

  /** One pass of the loop: the team upsert, then the driver upsert with the
      team's id, each counted as created or updated. */
  function DriverStep(s: Tables, t: DriversTally, od: OpenF1Driver): (Tables, DriversTally)
  {
    var teamExisted := od.teamName in s.teams;
    var teamUpsert := UpsertTeamIn(s.teams, od.teamName, s.nextId);
    var afterTeam := if teamExisted then s.nextId else s.nextId + 1;
    var driverUpsert := UpsertDriverIn(s.drivers, InputOf(od, teamUpsert.1.id), afterTeam);
    var isNew := driverUpsert.2;
    var afterDriver := if isNew then afterTeam + 1 else afterTeam;
    var counted := if teamExisted then t.(teamsUpdated := t.teamsUpdated + 1)
                   else t.(teamsCreated := t.teamsCreated + 1);
    var tally := if isNew then counted.(driversCreated := counted.driversCreated + 1)
                 else counted.(driversUpdated := counted.driversUpdated + 1);
    (Tables(teamUpsert.0, driverUpsert.0, afterDriver), tally)
  }

  /** The tables and counters after the loop has seen every driver of ods. */
  function DriversFold(s: Tables, t: DriversTally, ods: seq<OpenF1Driver>): (Tables, DriversTally)
  {
    if ods == [] then (s, t)
    else
      var prev := DriversFold(s, t, ods[..|ods| - 1]);
      DriverStep(prev.0, prev.1, ods[|ods| - 1])
  }

  /** After one pass the driver's row carries the id of its team's row. */
  lemma DriverLinkedToTeam(s: Tables, t: DriversTally, od: OpenF1Driver)
    ensures var (s', _) := DriverStep(s, t, od);
            od.teamName in s'.teams && od.nameAcronym in s'.drivers
            && s'.drivers[od.nameAcronym].teamId == s'.teams[od.teamName].id
            && s'.drivers[od.nameAcronym].name == od.fullName
  {
  }

  /** The team names of the drivers in ods. */
  ghost function TeamNames(ods: seq<OpenF1Driver>): set<string>
  {
    if ods == [] then {} else TeamNames(ods[..|ods| - 1]) + {ods[|ods| - 1].teamName}
  }

  /** The driver codes in ods. */
  ghost function Codes(ods: seq<OpenF1Driver>): set<string>
  {
    if ods == [] then {} else Codes(ods[..|ods| - 1]) + {ods[|ods| - 1].nameAcronym}
  }

  lemma {:induction false} TeamNamesMembers(ods: seq<OpenF1Driver>, n: string)
    ensures n in TeamNames(ods) <==> exists i :: 0 <= i < |ods| && ods[i].teamName == n
  {
    if ods != [] {
      var prefix := ods[..|ods| - 1];
      TeamNamesMembers(prefix, n);
      if n in TeamNames(prefix) {
        var i :| 0 <= i < |prefix| && prefix[i].teamName == n;
        assert ods[i] == prefix[i];
      }
      if exists i :: 0 <= i < |ods| && ods[i].teamName == n {
        var i :| 0 <= i < |ods| && ods[i].teamName == n;
        if i < |prefix| {
          assert prefix[i] == ods[i];
        }
      }
    }
  }

  lemma {:induction false} CodesMembers(ods: seq<OpenF1Driver>, c: string)
    ensures c in Codes(ods) <==> exists i :: 0 <= i < |ods| && ods[i].nameAcronym == c
  {
    if ods != [] {
      var prefix := ods[..|ods| - 1];
      CodesMembers(prefix, c);
      if c in Codes(prefix) {
        var i :| 0 <= i < |prefix| && prefix[i].nameAcronym == c;
        assert ods[i] == prefix[i];
      }
      if exists i :: 0 <= i < |ods| && ods[i].nameAcronym == c {
        var i :| 0 <= i < |ods| && ods[i].nameAcronym == c;
        if i < |prefix| {
          assert prefix[i] == ods[i];
        }
      }
    }
  }

  /** Each pass counts exactly one team and exactly one driver, so both
      sums grow by the number of drivers. */
  lemma {:induction false} DriversFoldCounts(s: Tables, t: DriversTally, ods: seq<OpenF1Driver>)
    ensures var (_, u) := DriversFold(s, t, ods);
            u.teamsCreated + u.teamsUpdated == t.teamsCreated + t.teamsUpdated + |ods|
            && u.driversCreated + u.driversUpdated == t.driversCreated + t.driversUpdated + |ods|
            && u.teamsCreated >= t.teamsCreated && u.teamsUpdated >= t.teamsUpdated
            && u.driversCreated >= t.driversCreated && u.driversUpdated >= t.driversUpdated
  {
    if ods != [] {
      DriversFoldCounts(s, t, ods[..|ods| - 1]);
    }
  }

  /** One pass adds the team name and the code to the tables, and counts a
      creation exactly when the name (the code) was not there. */
  lemma DriverStepKeys(s: Tables, t: DriversTally, od: OpenF1Driver)
    ensures DriverStep(s, t, od).0.teams.Keys == s.teams.Keys + {od.teamName}
    ensures DriverStep(s, t, od).0.drivers.Keys == s.drivers.Keys + {od.nameAcronym}
    ensures DriverStep(s, t, od).1.teamsCreated == t.teamsCreated + (if od.teamName in s.teams then 0 else 1)
    ensures DriverStep(s, t, od).1.driversCreated == t.driversCreated + (if od.nameAcronym in s.drivers then 0 else 1)
  {
  }

  /** DriverStepKeys for the last pass of the loop. */
  lemma FoldStepKeys(s: Tables, t: DriversTally, ods: seq<OpenF1Driver>)
    requires ods != []
    ensures var r := DriversFold(s, t, ods[..|ods| - 1]); var od := ods[|ods| - 1];
            DriversFold(s, t, ods).0.teams.Keys == r.0.teams.Keys + {od.teamName}
            && DriversFold(s, t, ods).0.drivers.Keys == r.0.drivers.Keys + {od.nameAcronym}
            && DriversFold(s, t, ods).1.teamsCreated == r.1.teamsCreated + (if od.teamName in r.0.teams then 0 else 1)
            && DriversFold(s, t, ods).1.driversCreated == r.1.driversCreated + (if od.nameAcronym in r.0.drivers then 0 else 1)
  {
    var r := DriversFold(s, t, ods[..|ods| - 1]);
    DriverStepKeys(r.0, r.1, ods[|ods| - 1]);
  }

  /** After the loop the team table holds every team name seen, and
      teamsCreated counts exactly the distinct names it did not hold before. */
  lemma {:induction false} TeamsCreatedAreNewNames(s: Tables, t: DriversTally, ods: seq<OpenF1Driver>)
    ensures DriversFold(s, t, ods).0.teams.Keys == s.teams.Keys + TeamNames(ods)
    ensures DriversFold(s, t, ods).1.teamsCreated == t.teamsCreated + |TeamNames(ods) - s.teams.Keys|
  {
    if ods != [] {
      var prefix := ods[..|ods| - 1];
      TeamsCreatedAreNewNames(s, t, prefix);
      FoldStepKeys(s, t, ods);
      var r, r' := DriversFold(s, t, prefix), DriversFold(s, t, ods);
      CreatedStep(s.teams.Keys, TeamNames(prefix), ods[|ods| - 1].teamName,
                  r.0.teams.Keys, t.teamsCreated, r.1.teamsCreated, r'.0.teams.Keys, r'.1.teamsCreated);
    }
  }

  /** After the loop the driver table holds every code seen, and
      driversCreated counts exactly the distinct codes it did not hold before. */
  lemma {:induction false} DriversCreatedAreNewCodes(s: Tables, t: DriversTally, ods: seq<OpenF1Driver>)
    ensures DriversFold(s, t, ods).0.drivers.Keys == s.drivers.Keys + Codes(ods)
    ensures DriversFold(s, t, ods).1.driversCreated == t.driversCreated + |Codes(ods) - s.drivers.Keys|
  {
    if ods != [] {
      var prefix := ods[..|ods| - 1];
      DriversCreatedAreNewCodes(s, t, prefix);
      FoldStepKeys(s, t, ods);
      var r, r' := DriversFold(s, t, prefix), DriversFold(s, t, ods);
      CreatedStep(s.drivers.Keys, Codes(prefix), ods[|ods| - 1].nameAcronym,
                  r.0.drivers.Keys, t.driversCreated, r.1.driversCreated, r'.0.drivers.Keys, r'.1.driversCreated);
    }
  }

  /** The induction step of the two lemmas above: keys holds the keys
      before plus those seen, and created counts the seen ones that were
      not there before; one more pass on x keeps both true. */
  lemma CreatedStep(before: set<string>, seen: set<string>, x: string,
                    keys: set<string>, created0: int, created: int, keys': set<string>, created': int)
    requires keys == before + seen && created == created0 + |seen - before|
    requires keys' == keys + {x} && created' == created + (if x in keys then 0 else 1)
    ensures keys' == before + (seen + {x}) && created' == created0 + |(seen + {x}) - before|
  {
    if x in keys {
      assert (seen + {x}) - before == seen - before;
    } else {
      assert (seen + {x}) - before == (seen - before) + {x};
    }
  }

  /** POST: the answer of the route and the new team and driver tables. */
  method SyncDrivers(store: Store, authHeader: Option<string>, adminPassword: Option<string>,
                     body: Option<JsValue>, fetchSessions: int -> seq<Session>,
                     fetchDrivers: int -> seq<OpenF1Driver>)
    returns (outcome: Outcome)
    requires store.Valid()
    modifies store
    ensures store.Valid()
    ensures var plan := Plan(authHeader, adminPassword, body, fetchSessions);
            (plan.Err? ==> outcome == Refused(plan.response) && TablesOf(store) == old(TablesOf(store)))
            && (plan.Ok? ==>
                  var synced := DriversFold(old(TablesOf(store)), NoChanges,
                                            fetchDrivers(LatestRace(plan.value.races).sessionKey));
                  outcome == Synced(plan.value.year, |plan.value.races|, synced.1) && TablesOf(store) == synced.0)
    ensures store.raceResults == old(store.raceResults) && store.users == old(store.users)
    ensures store.seasonPredictions == old(store.seasonPredictions)
    ensures store.driverPredictions == old(store.driverPredictions)
  {
    var scan := ChooseRaces(authHeader, adminPassword, body, fetchSessions);
    if scan.Err? {
      return Refused(scan.response);
    }
    var raceSessions := scan.value.races;
    var latestSession := raceSessions[|raceSessions| - 1];
    var openF1Drivers := fetchDrivers(latestSession.sessionKey);
    var results := ProcessDrivers(store, openF1Drivers);
    outcome := Synced(scan.value.year, |raceSessions|, results);
  }

  /** The part of POST before the loop. */
  method ChooseRaces(authHeader: Option<string>, adminPassword: Option<string>, body: Option<JsValue>,
                     fetchSessions: int -> seq<Session>)
    returns (r: Result<Scan>)
    ensures r == Plan(authHeader, adminPassword, body, fetchSessions)
  {
    var authResult := CheckAdminAuth(authHeader, adminPassword);
    if authResult.Some? {
      return Err(authResult.value);
    }
    var year := RequestedYear(body);
    var validatedYear := ValidateYear(year);
    if validatedYear.Err? {
      return Err(validatedYear.response);
    }
    var raceSessions := RaceSessions(fetchSessions(validatedYear.value));
    if |raceSessions| == 0 {
      return Err(Response(404, "No race sessions found for year " + IntToString(validatedYear.value)));
    }
    r := Ok(Scan(validatedYear.value, raceSessions));
  }

  /** The loop over the drivers of the latest race. */
  method ProcessDrivers(store: Store, openF1Drivers: seq<OpenF1Driver>) returns (results: DriversTally)
    requires store.Valid()
    modifies store
    ensures store.Valid()
    ensures TablesOf(store) == DriversFold(old(TablesOf(store)), NoChanges, openF1Drivers).0
    ensures results == DriversFold(old(TablesOf(store)), NoChanges, openF1Drivers).1
    ensures store.raceResults == old(store.raceResults) && store.users == old(store.users)
    ensures store.seasonPredictions == old(store.seasonPredictions)
    ensures store.driverPredictions == old(store.driverPredictions)
  {
    results := NoChanges;
    for i := 0 to |openF1Drivers|
      invariant store.Valid()
      invariant TablesOf(store) == DriversFold(old(TablesOf(store)), NoChanges, openF1Drivers[..i]).0
      invariant results == DriversFold(old(TablesOf(store)), NoChanges, openF1Drivers[..i]).1
      invariant store.raceResults == old(store.raceResults) && store.users == old(store.users)
      invariant store.seasonPredictions == old(store.seasonPredictions)
      invariant store.driverPredictions == old(store.driverPredictions)
    {
      assert openF1Drivers[..i + 1][..i] == openF1Drivers[..i];
      results := ProcessDriver(store, openF1Drivers[i], results);
    }
    assert openF1Drivers[..|openF1Drivers|] == openF1Drivers;
  }

  /** The body of the loop for one driver. */
  method ProcessDriver(store: Store, openDriver: OpenF1Driver, t: DriversTally) returns (u: DriversTally)
    requires store.Valid()
    modifies store
    ensures store.Valid()
    ensures TablesOf(store) == DriverStep(old(TablesOf(store)), t, openDriver).0
    ensures u == DriverStep(old(TablesOf(store)), t, openDriver).1
    ensures store.raceResults == old(store.raceResults) && store.users == old(store.users)
    ensures store.seasonPredictions == old(store.seasonPredictions)
    ensures store.driverPredictions == old(store.driverPredictions)
  {
    var existingTeam := store.TeamByName(openDriver.teamName);
    var team := store.UpsertTeam(openDriver.teamName);
    if existingTeam.Some? {
      u := t.(teamsUpdated := t.teamsUpdated + 1);
    } else {
      u := t.(teamsCreated := t.teamsCreated + 1);
    }
    var existingDriver := store.DriverByCode(openDriver.nameAcronym);
    var driverData, isNew := store.UpsertDriver(InputOf(openDriver, team.id));
    if isNew {
      u := u.(driversCreated := u.driversCreated + 1);
    } else {
      u := u.(driversUpdated := u.driversUpdated + 1);
    }
  }
}
