/** The race-result sync of app/api/sync/results/route.ts.

    After the admin check the route picks the sessions to sync: one session
    by key (its round is its place among that year's races by start time),
    or every race of a year (rounds 1, 2, ... by start time). For each
    session it fetches the final positions, maps each driver number to a
    stored driver, and upserts one race result per known driver, counting
    created and updated rows and collecting error messages.

    The provider's answers are parameters: `fetchSessions` gives the sessions
    of a year, `fetchPositions` the raw position samples of a session or the
    message of the error fetching them, and `drivers` the answer of
    getAllDrivers. The year of the clock is the parameter `currentYear`. */
module SyncResults {
  import opened Common
  import opened Sorting
  import opened Validation
  import opened Auth
  import opened OpenF1
  import opened Db

  /** Championship points for finishing positions 1 to 10. */
  const F1Points: seq<int> := [25, 18, 15, 12, 10, 8, 6, 4, 2, 1]

  /** Championship points for a finishing position: the top ten score, every other position 0. */
  function PointsForPosition(position: int): (p: int)
    ensures position <= 0 || position > 10 ==> p == 0
    ensures 1 <= position <= 10 ==> p == F1Points[position - 1]
    ensures 0 <= p <= 25
  {
    if position <= 0 || position > 10 then 0 else F1Points[position - 1]
  }

  /** A better finish earns strictly more, down to tenth place. */
  lemma PointsDecreaseWithPosition(p: int, q: int)
    requires 1 <= p < q <= 11
    ensures PointsForPosition(p) > PointsForPosition(q)
  {
  }

  /** The body of the request; an absent field is undefined. */
  datatype Body = Body(sessionKey: JsValue, year: JsValue)

  /** One session to sync, with its round. */
  datatype SessionToSync = SessionToSync(
    sessionKey: int, sessionName: string, location: string, year: int, round: int)

  function ToSync(s: Session, round: int): SessionToSync
  {
    SessionToSync(s.sessionKey, s.sessionName, s.location, s.year, round)
  }

  /** The sort key of an ordering by start time, earliest first. */
  function DateKey(s: Session): int
  {
    s.dateStart
  }

  /** The first session with the key, if any. */
  function FindSession(sessions: seq<Session>, key: int): Option<Session>
  {
    if sessions == [] then None
    else if sessions[0].sessionKey == key then Some(sessions[0])
    else FindSession(sessions[1..], key)
  }

  /** find gives the first session with the key, and undefined when none has it. */
  lemma {:induction false} FindSessionFirst(sessions: seq<Session>, key: int)
    ensures FindSession(sessions, key).None? <==> forall i :: 0 <= i < |sessions| ==> sessions[i].sessionKey != key
    ensures FindSession(sessions, key).Some? ==>
              exists i :: 0 <= i < |sessions| && sessions[i] == FindSession(sessions, key).value
                          && sessions[i].sessionKey == key
                          && forall j :: 0 <= j < i ==> sessions[j].sessionKey != key
  {
    if sessions != [] && sessions[0].sessionKey != key {
      FindSessionFirst(sessions[1..], key);
      if FindSession(sessions, key).Some? {
        var i :| 0 <= i < |sessions[1..]| && sessions[1..][i] == FindSession(sessions, key).value
                 && sessions[1..][i].sessionKey == key
                 && forall j :: 0 <= j < i ==> sessions[1..][j].sessionKey != key;
        assert sessions[i + 1] == FindSession(sessions, key).value;
      } else {
        assert forall i :: 1 <= i < |sessions| ==> sessions[i] == sessions[1..][i - 1];
      }
    }
  }

  /** The first index of a race with the key, or -1. */
  function FindIndexByKey(races: seq<Session>, key: int): (i: int)
    ensures -1 <= i < |races|
    ensures i == -1 <==> forall j :: 0 <= j < |races| ==> races[j].sessionKey != key
    ensures i >= 0 ==> races[i].sessionKey == key && forall j :: 0 <= j < i ==> races[j].sessionKey != key
  {
    if races == [] then -1
    else if races[0].sessionKey == key then 0
    else
      var i := FindIndexByKey(races[1..], key);
      if i == -1 then -1 else i + 1
  }

  /** The sessions of races, numbered from first on. */
  function NumberFrom(races: seq<Session>, first: int): (r: seq<SessionToSync>)
    ensures |r| == |races|
    ensures forall i :: 0 <= i < |r| ==> r[i] == ToSync(races[i], first + i)
  {
    if races == [] then [] else [ToSync(races[0], first)] + NumberFrom(races[1..], first + 1)
  }

  /** Year mode: the race sessions by start time, numbered from 1. */
  function YearSessions(races: seq<Session>): seq<SessionToSync>
  {
    NumberFrom(SortBy(races, DateKey), 1)
  }

  /** Year mode numbers the races 1, 2, ..., n in order of start time, each
      race of the year once. */
  lemma YearRounds(races: seq<Session>)
    ensures forall i :: 0 <= i < |YearSessions(races)| ==> YearSessions(races)[i].round == i + 1
    ensures SortedBy(SortBy(races, DateKey), DateKey)
    ensures multiset(SortBy(races, DateKey)) == multiset(races)
  {
    SortByCorrect(races, DateKey);
  }

  /** Session mode: the round of one session among the races of its year. */
  function SessionRound(races: seq<Session>, key: int): int
  {
    FindIndexByKey(SortBy(races, DateKey), key) + 1
  }

  /** A session that is not a race of its year gets round 0. */
  lemma NotARaceRoundZero(races: seq<Session>, key: int)
    requires forall s :: s in races ==> s.sessionKey != key
    ensures SessionRound(races, key) == 0
  {
    var sorted := SortBy(races, DateKey);
    forall j | 0 <= j < |sorted| ensures sorted[j].sessionKey != key {
      SortByMembers(races, DateKey, sorted[j]);
    }
  }

  /** When race session keys are distinct, syncing one session gives it the
      round that syncing its whole year gives it. */
  lemma SessionRoundAgreesWithYear(races: seq<Session>, j: int)
    requires forall a, b :: 0 <= a < b < |races| ==> races[a].sessionKey != races[b].sessionKey
    requires 0 <= j < |races|
    ensures var key := SortBy(races, DateKey)[j].sessionKey;
            SessionRound(races, key) == YearSessions(races)[j].round
  {
    var sorted := SortBy(races, DateKey);
    SortByCorrect(races, DateKey);
    assert forall a, b :: 0 <= a < b < |races| ==> KeyOfSession(races[a]) != KeyOfSession(races[b]);
    PermutationKeepsDistinct(races, sorted, KeyOfSession);
    var i := FindIndexByKey(sorted, sorted[j].sessionKey);
    if i != j {
      assert false;
    }
  }

  function KeyOfSession(s: Session): int
  {
    s.sessionKey
  }

  /** The route's choice of sessions, or the answer that ends it early:
      the admin check, an unreadable body, the session key (which wins over
      the year), the year, or neither. */
  ghost function Plan(authHeader: Option<string>, adminPassword: Option<string>, body: Option<Body>,
                      currentYear: int, fetchSessions: int -> seq<Session>): Result<seq<SessionToSync>>
  {
    var auth := CheckAdminAuth(authHeader, adminPassword);
    if auth.Some? then Err(auth.value)
    else if body.None? then Err(Response(500, "Failed to sync race results"))
    else if Truthy(body.value.sessionKey) then SessionKeyPlan(body.value.sessionKey, currentYear, fetchSessions)
    else if Truthy(body.value.year) then YearPlan(body.value.year, fetchSessions)
    else Err(Response(400, "Either sessionKey or year must be provided"))
  }

  /** Session mode: the one session with the key among the sessions of the
      clock's year, with its round among the races of its own year. */
  ghost function SessionKeyPlan(sessionKey: JsValue, currentYear: int, fetchSessions: int -> seq<Session>)
    : Result<seq<SessionToSync>>
  {
    match ValidateSessionKey(sessionKey)
    case Err(response) => Err(response)
    case Ok(key) =>
      match FindSession(fetchSessions(currentYear), key)
      case None => Err(Response(404, "Session not found"))
      case Some(session) =>
        var races := RaceSessions(fetchSessions(session.year));
        Ok([ToSync(session, SessionRound(races, session.sessionKey))])
  }

  /** Year mode: every race of the year. */
  ghost function YearPlan(year: JsValue, fetchSessions: int -> seq<Session>): Result<seq<SessionToSync>>
  {
    match ValidateYear(year)
    case Err(response) => Err(response)
    case Ok(y) => Ok(YearSessions(RaceSessions(fetchSessions(y))))
  }

  /** A truthy session key decides the plan whatever the year says; with
      neither a session key nor a year the answer is 400. */
  lemma SessionKeyWinsOverYear(authHeader: Option<string>, adminPassword: Option<string>,
                               key: JsValue, year1: JsValue, year2: JsValue,
                               currentYear: int, fetchSessions: int -> seq<Session>)
    ensures Truthy(key) ==>
              Plan(authHeader, adminPassword, Some(Body(key, year1)), currentYear, fetchSessions)
              == Plan(authHeader, adminPassword, Some(Body(key, year2)), currentYear, fetchSessions)
    ensures !Truthy(key) && !Truthy(year1) && CheckAdminAuth(authHeader, adminPassword).None? ==>
              Plan(authHeader, adminPassword, Some(Body(key, year1)), currentYear, fetchSessions)
              == Err(Response(400, "Either sessionKey or year must be provided"))
  {
  }

  /** What fetchSessionResults gives for a session: the raw samples, or the
      message of the error it throws. */
  datatype Fetched = Samples(samples: seq<Position>) | FetchError(message: string)

  /** The counters and messages of the response. */
  datatype Tally = Tally(sessionsProcessed: int, resultsCreated: int, resultsUpdated: int, errors: seq<string>)

  /** The drivers by their number; a later driver with the same number
      replaces an earlier one. */
  function DriverMapOf(drivers: seq<Driver>): (m: map<int, Driver>)
    ensures forall n :: n in m <==> exists i :: 0 <= i < |drivers| && drivers[i].number == n
  {
    if drivers == [] then map[]
    else
      var last := drivers[|drivers| - 1];
      var m := DriverMapOf(drivers[..|drivers| - 1]);
      assert forall i :: 0 <= i < |drivers| - 1 ==> drivers[..|drivers| - 1][i] == drivers[i];
      m[last.number := last]
  }

  /** The driver a number maps to is the last one with that number. */
  lemma {:induction false} DriverMapLastWins(drivers: seq<Driver>, i: int)
    requires 0 <= i < |drivers|
    requires forall j :: i < j < |drivers| ==> drivers[j].number != drivers[i].number
    ensures DriverMapOf(drivers)[drivers[i].number] == drivers[i]
  {
    var n := |drivers| - 1;
    if i < n {
      var prefix := drivers[..n];
      assert forall j :: i < j < n ==> prefix[j] == drivers[j];
      DriverMapLastWins(prefix, i);
    }
  }

  function MissingDriverMessage(number: int, sessionKey: int): string
  {
    "Driver #" + IntToString(number) + " not found in database (session " + IntToString(sessionKey) + ")"
  }

  function SessionErrorMessage(sessionKey: int, message: string): string
  {
    "Error processing session " + IntToString(sessionKey) + ": " + message
  }

  /** The race result row written for a position of a session. */
  function RowFor(s: SessionToSync, pos: Position, driver: Driver): ResultRow
  {
    ResultRow(s.location, s.round, s.year, s.sessionKey, driver.id, pos.position, PointsForPosition(pos.position))
  }

  /** One position of the inner loop. */
  function PositionStep(results: map<ResultKey, ResultRow>, t: Tally, s: SessionToSync,
                        pos: Position, dm: map<int, Driver>): (map<ResultKey, ResultRow>, Tally)
  {
    if pos.driverNumber !in dm then
      (results, t.(errors := t.errors + [MissingDriverMessage(pos.driverNumber, s.sessionKey)]))
    else
      var upserted := UpsertRaceResultIn(results, RowFor(s, pos, dm[pos.driverNumber]));
      if upserted.2 then (upserted.0, t.(resultsCreated := t.resultsCreated + 1))
      else (upserted.0, t.(resultsUpdated := t.resultsUpdated + 1))
  }

  /** The inner loop over the positions ps. */
  function PositionsFold(results: map<ResultKey, ResultRow>, t: Tally, s: SessionToSync,
                         ps: seq<Position>, dm: map<int, Driver>): (map<ResultKey, ResultRow>, Tally)
  {
    if ps == [] then (results, t)
    else
      var folded := PositionsFold(results, t, s, ps[..|ps| - 1], dm);
      PositionStep(folded.0, folded.1, s, ps[|ps| - 1], dm)
  }

  /** One session of the outer loop: a failed fetch adds one message; a
      fetched session runs the inner loop and counts as processed. */
  function SessionStep(results: map<ResultKey, ResultRow>, t: Tally, s: SessionToSync,
                       fetched: Fetched, dm: map<int, Driver>): (map<ResultKey, ResultRow>, Tally)
  {
    if fetched.FetchError? then
      (results, t.(errors := t.errors + [SessionErrorMessage(s.sessionKey, fetched.message)]))
    else
      var folded := PositionsFold(results, t, s, SessionResults(fetched.samples), dm);
      (folded.0, folded.1.(sessionsProcessed := folded.1.sessionsProcessed + 1))
  }

  /** The fetched case of SessionStep. */
  lemma SessionStepSamples(results: map<ResultKey, ResultRow>, t: Tally, s: SessionToSync,
                           fetched: Fetched, dm: map<int, Driver>)
    requires fetched.Samples?
    ensures SessionStep(results, t, s, fetched, dm).0 == PositionsFold(results, t, s, SessionResults(fetched.samples), dm).0
    ensures var v := PositionsFold(results, t, s, SessionResults(fetched.samples), dm).1;
            SessionStep(results, t, s, fetched, dm).1 == v.(sessionsProcessed := v.sessionsProcessed + 1)
  {
    var folded := PositionsFold(results, t, s, SessionResults(fetched.samples), dm);
    assert SessionStep(results, t, s, fetched, dm) == (folded.0, folded.1.(sessionsProcessed := folded.1.sessionsProcessed + 1));
  }

  /** The outer loop over the sessions ss. */
  ghost function SyncAll(results: map<ResultKey, ResultRow>, t: Tally, ss: seq<SessionToSync>,
                         fetchPositions: int -> Fetched, dm: map<int, Driver>): (map<ResultKey, ResultRow>, Tally)
  {
    if ss == [] then (results, t)
    else
      var prev := SyncAll(results, t, ss[..|ss| - 1], fetchPositions, dm);
      SessionStep(prev.0, prev.1, ss[|ss| - 1], fetchPositions(ss[|ss| - 1].sessionKey), dm)
  }

  /** A position whose driver number is unknown adds exactly one message and
      writes nothing. */
  lemma UnknownDriverSkipped(results: map<ResultKey, ResultRow>, t: Tally, s: SessionToSync,
                             pos: Position, dm: map<int, Driver>)
    requires pos.driverNumber !in dm
    ensures PositionStep(results, t, s, pos, dm)
         == (results, t.(errors := t.errors + [MissingDriverMessage(pos.driverNumber, s.sessionKey)]))
  {
  }

  /** A known driver's position is upserted with the session's race name,
      round and year and the points of the position, and exactly one of the
      created and updated counters grows, by isNew. */
  lemma KnownDriverUpserted(results: map<ResultKey, ResultRow>, t: Tally, s: SessionToSync,
                            pos: Position, dm: map<int, Driver>)
    requires pos.driverNumber in dm
    ensures var (after, u) := PositionStep(results, t, s, pos, dm);
            var key := ResultKey(s.sessionKey, dm[pos.driverNumber].id);
            key in after && after[key].position == pos.position
            && after[key].points == PointsForPosition(pos.position)
            && after[key].raceName == s.location && after[key].round == s.round
            && u.errors == t.errors && u.sessionsProcessed == t.sessionsProcessed
            && (key !in results ==> u.resultsCreated == t.resultsCreated + 1 && u.resultsUpdated == t.resultsUpdated)
            && (key in results ==> u.resultsUpdated == t.resultsUpdated + 1 && u.resultsCreated == t.resultsCreated)
  {
  }

  /** Positions whose driver number is known / unknown. */
  function Known(ps: seq<Position>, dm: map<int, Driver>): (n: nat)
    ensures n <= |ps|
  {
    if ps == [] then 0
    else Known(ps[..|ps| - 1], dm) + (if ps[|ps| - 1].driverNumber in dm then 1 else 0)
  }

  /** Over the inner loop, created plus updated grows by the number of known
      drivers and the messages by the number of unknown ones. */
  lemma {:induction false} PositionsFoldCounts(results: map<ResultKey, ResultRow>, t: Tally, s: SessionToSync,
                                               ps: seq<Position>, dm: map<int, Driver>)
    ensures var u := PositionsFold(results, t, s, ps, dm).1;
            u.resultsCreated + u.resultsUpdated == t.resultsCreated + t.resultsUpdated + Known(ps, dm)
            && |u.errors| == |t.errors| + |ps| - Known(ps, dm)
            && u.sessionsProcessed == t.sessionsProcessed
            && u.resultsCreated >= t.resultsCreated && u.resultsUpdated >= t.resultsUpdated
  {
    if ps != [] {
      PositionsFoldCounts(results, t, s, ps[..|ps| - 1], dm);
    }
  }

  /** Sessions whose positions were fetched, and the known / unknown
      positions over those sessions. */
  ghost function Fetches(ss: seq<SessionToSync>, fetchPositions: int -> Fetched): nat
  {
    if ss == [] then 0
    else Fetches(ss[..|ss| - 1], fetchPositions) + (if fetchPositions(ss[|ss| - 1].sessionKey).Samples? then 1 else 0)
  }

  ghost function KnownOverSessions(ss: seq<SessionToSync>, fetchPositions: int -> Fetched, dm: map<int, Driver>): nat
  {
    if ss == [] then 0
    else
      var f := fetchPositions(ss[|ss| - 1].sessionKey);
      KnownOverSessions(ss[..|ss| - 1], fetchPositions, dm) + (if f.Samples? then Known(SessionResults(f.samples), dm) else 0)
  }

  ghost function UnknownOverSessions(ss: seq<SessionToSync>, fetchPositions: int -> Fetched, dm: map<int, Driver>): nat
  {
    if ss == [] then 0
    else
      var f := fetchPositions(ss[|ss| - 1].sessionKey);
      var ps := if f.Samples? then SessionResults(f.samples) else [];
      UnknownOverSessions(ss[..|ss| - 1], fetchPositions, dm) + |ps| - Known(ps, dm)
  }

  /** The response's counters: sessionsProcessed counts the sessions whose
      positions were fetched; created plus updated counts the positions with
      a known driver in them; and there is one message per failed session
      and per position with an unknown driver. */
  lemma {:induction false} SyncAllCounts(results: map<ResultKey, ResultRow>, ss: seq<SessionToSync>,
                                         fetchPositions: int -> Fetched, dm: map<int, Driver>)
    ensures var t := SyncAll(results, Tally(0, 0, 0, []), ss, fetchPositions, dm).1;
            t.sessionsProcessed == Fetches(ss, fetchPositions)
            && t.resultsCreated + t.resultsUpdated == KnownOverSessions(ss, fetchPositions, dm)
            && |t.errors| == (|ss| - Fetches(ss, fetchPositions)) + UnknownOverSessions(ss, fetchPositions, dm)
  {
    if ss != [] {
      var prefix := ss[..|ss| - 1];
      SyncAllCounts(results, prefix, fetchPositions, dm);
      var prev := SyncAll(results, Tally(0, 0, 0, []), prefix, fetchPositions, dm);
      var s := ss[|ss| - 1];
      var f := fetchPositions(s.sessionKey);
      if f.Samples? {
        SessionStepSamples(prev.0, prev.1, s, f, dm);
        PositionsFoldCounts(prev.0, prev.1, s, SessionResults(f.samples), dm);
      }
    }
  }

  /** The answer of the route. */
  datatype Outcome = Refused(response: Response) | Synced(results: Tally)

  /** POST: the clock year, the provider and getAllDrivers are parameters;
      the race result table is the store's. */
  method SyncRaceResults(store: Store, authHeader: Option<string>, adminPassword: Option<string>,
                         body: Option<Body>, currentYear: int, fetchSessions: int -> seq<Session>,
                         fetchPositions: int -> Fetched, drivers: seq<Driver>)
    returns (outcome: Outcome)
    requires store.Valid()
    modifies store
    ensures store.Valid()
    ensures var plan := Plan(authHeader, adminPassword, body, currentYear, fetchSessions);
            (plan.Err? ==> outcome == Refused(plan.response) && store.raceResults == old(store.raceResults))
            && (plan.Ok? ==>
                  var synced := SyncAll(old(store.raceResults), Tally(0, 0, 0, []), plan.value,
                                        fetchPositions, DriverMapOf(drivers));
                  outcome == Synced(synced.1) && store.raceResults == synced.0)
    ensures store.teams == old(store.teams) && store.drivers == old(store.drivers) && store.users == old(store.users)
    ensures store.seasonPredictions == old(store.seasonPredictions)
    ensures store.driverPredictions == old(store.driverPredictions)
    ensures store.nextId == old(store.nextId)
  {
    var sessionsToSync := ChooseSessions(authHeader, adminPassword, body, currentYear, fetchSessions);
    if sessionsToSync.Err? {
      return Refused(sessionsToSync.response);
    }
    var results := ProcessSessions(store, sessionsToSync.value, fetchPositions, DriverMapOf(drivers));
    outcome := Synced(results);
  }

  /** The outer loop over the sessions to sync. */
  method ProcessSessions(store: Store, sessions: seq<SessionToSync>, fetchPositions: int -> Fetched,
                         dm: map<int, Driver>)
    returns (results: Tally)
    requires store.Valid()
    modifies store
    ensures store.Valid()
    ensures store.raceResults == SyncAll(old(store.raceResults), Tally(0, 0, 0, []), sessions, fetchPositions, dm).0
    ensures results == SyncAll(old(store.raceResults), Tally(0, 0, 0, []), sessions, fetchPositions, dm).1
    ensures store.teams == old(store.teams) && store.drivers == old(store.drivers) && store.users == old(store.users)
    ensures store.seasonPredictions == old(store.seasonPredictions)
    ensures store.driverPredictions == old(store.driverPredictions)
    ensures store.nextId == old(store.nextId)
  {
    results := Tally(0, 0, 0, []);
    for i := 0 to |sessions|
      invariant store.Valid()
      invariant store.raceResults == SyncAll(old(store.raceResults), Tally(0, 0, 0, []), sessions[..i], fetchPositions, dm).0
      invariant results == SyncAll(old(store.raceResults), Tally(0, 0, 0, []), sessions[..i], fetchPositions, dm).1
      invariant store.teams == old(store.teams) && store.drivers == old(store.drivers) && store.users == old(store.users)
      invariant store.seasonPredictions == old(store.seasonPredictions)
      invariant store.driverPredictions == old(store.driverPredictions)
      invariant store.nextId == old(store.nextId)
    {
      assert sessions[..i + 1][..i] == sessions[..i];
      results := ProcessSession(store, sessions[i], fetchPositions(sessions[i].sessionKey), dm, results);
    }
    assert sessions[..|sessions|] == sessions;
  }

  /** The part of POST before the loop. */
  method ChooseSessions(authHeader: Option<string>, adminPassword: Option<string>, body: Option<Body>,
                        currentYear: int, fetchSessions: int -> seq<Session>)
    returns (r: Result<seq<SessionToSync>>)
    ensures r == Plan(authHeader, adminPassword, body, currentYear, fetchSessions)
  {
    var authResult := CheckAdminAuth(authHeader, adminPassword);
    if authResult.Some? {
      return Err(authResult.value);
    }
    if body.None? {
      return Err(Response(500, "Failed to sync race results"));
    }
    var sessionKey, year := body.value.sessionKey, body.value.year;
    if Truthy(sessionKey) {
      r := ChooseSession(sessionKey, currentYear, fetchSessions);
    } else if Truthy(year) {
      r := ChooseYear(year, fetchSessions);
    } else {
      r := Err(Response(400, "Either sessionKey or year must be provided"));
    }
  }

  method ChooseSession(sessionKey: JsValue, currentYear: int, fetchSessions: int -> seq<Session>)
    returns (r: Result<seq<SessionToSync>>)
    ensures r == SessionKeyPlan(sessionKey, currentYear, fetchSessions)
  {
    var validated := ValidateSessionKey(sessionKey);
    if validated.Err? {
      return Err(validated.response);
    }
    var session := FindSession(fetchSessions(currentYear), validated.value);
    if session.None? {
      return Err(Response(404, "Session not found"));
    }
    var races := RaceSessions(fetchSessions(session.value.year));
    var sortedRaces := SortedByDate(races);
    var roundNumber := FindIndexByKey(sortedRaces, session.value.sessionKey) + 1;
    assert roundNumber == SessionRound(races, session.value.sessionKey);
    r := Ok([ToSync(session.value, roundNumber)]);
  }

  method ChooseYear(year: JsValue, fetchSessions: int -> seq<Session>) returns (r: Result<seq<SessionToSync>>)
    ensures r == YearPlan(year, fetchSessions)
  {
    var validated := ValidateYear(year);
    if validated.Err? {
      return Err(validated.response);
    }
    var races := RaceSessions(fetchSessions(validated.value));
    var sortedRaces := SortedByDate(races);
    var toSync := NumberRounds(sortedRaces);
    r := Ok(toSync);
  }

  /** Numbers the sorted races from round 1 on. */
  method NumberRounds(sortedRaces: seq<Session>) returns (toSync: seq<SessionToSync>)
    ensures toSync == NumberFrom(sortedRaces, 1)
  {
    toSync := [];
    for index := 0 to |sortedRaces|
      invariant |toSync| == index
      invariant forall k :: 0 <= k < index ==> toSync[k] == ToSync(sortedRaces[k], k + 1)
    {
      toSync := toSync + [ToSync(sortedRaces[index], index + 1)];
    }
  }

  /** The races sorted by start time, on a copy of the list. */
  method SortedByDate(races: seq<Session>) returns (sorted: seq<Session>)
    ensures sorted == SortBy(races, DateKey)
  {
    var a := new Session[|races|](i requires 0 <= i < |races| => races[i]);
    assert a[..] == races;
    SortInPlace(a, DateKey);
    sorted := a[..];
  }

  /** The body of the outer loop for one session. */
  method ProcessSession(store: Store, session: SessionToSync, fetched: Fetched, dm: map<int, Driver>, t: Tally)
    returns (u: Tally)
    requires store.Valid()
    modifies store
    ensures store.Valid()
    ensures store.raceResults == SessionStep(old(store.raceResults), t, session, fetched, dm).0
    ensures u == SessionStep(old(store.raceResults), t, session, fetched, dm).1
    ensures store.teams == old(store.teams) && store.drivers == old(store.drivers) && store.users == old(store.users)
    ensures store.seasonPredictions == old(store.seasonPredictions)
    ensures store.driverPredictions == old(store.driverPredictions)
    ensures store.nextId == old(store.nextId)
  {
    if fetched.FetchError? {
      return t.(errors := t.errors + [SessionErrorMessage(session.sessionKey, fetched.message)]);
    }
    SessionStepSamples(store.raceResults, t, session, fetched, dm);
    u := ProcessSamples(store, session, fetched.samples, dm, t);
  }

  /** The fetched case of the outer loop's body: the final positions, the
      inner loop, and one more processed session. */
  method ProcessSamples(store: Store, session: SessionToSync, samples: seq<Position>, dm: map<int, Driver>, t: Tally)
    returns (u: Tally)
    requires store.Valid()
    modifies store
    ensures store.Valid()
    ensures store.raceResults == PositionsFold(old(store.raceResults), t, session, SessionResults(samples), dm).0
    ensures var v := PositionsFold(old(store.raceResults), t, session, SessionResults(samples), dm).1;
            u == v.(sessionsProcessed := v.sessionsProcessed + 1)
    ensures store.teams == old(store.teams) && store.drivers == old(store.drivers) && store.users == old(store.users)
    ensures store.seasonPredictions == old(store.seasonPredictions)
    ensures store.driverPredictions == old(store.driverPredictions)
    ensures store.nextId == old(store.nextId)
  {
    var positions := FetchSessionResults(samples);
    u := ProcessPositions(store, session, positions, dm, t);
    u := u.(sessionsProcessed := u.sessionsProcessed + 1);
  }

  /** The inner loop over the final positions of one session. */
  method ProcessPositions(store: Store, session: SessionToSync, positions: seq<Position>, dm: map<int, Driver>, t: Tally)
    returns (u: Tally)
    requires store.Valid()
    modifies store
    ensures store.Valid()
    ensures store.raceResults == PositionsFold(old(store.raceResults), t, session, positions, dm).0
    ensures u == PositionsFold(old(store.raceResults), t, session, positions, dm).1
    ensures store.teams == old(store.teams) && store.drivers == old(store.drivers) && store.users == old(store.users)
    ensures store.seasonPredictions == old(store.seasonPredictions)
    ensures store.driverPredictions == old(store.driverPredictions)
    ensures store.nextId == old(store.nextId)
  {
    u := t;
    for j := 0 to |positions|
      invariant store.Valid()
      invariant store.raceResults == PositionsFold(old(store.raceResults), t, session, positions[..j], dm).0
      invariant u == PositionsFold(old(store.raceResults), t, session, positions[..j], dm).1
      invariant store.teams == old(store.teams) && store.drivers == old(store.drivers) && store.users == old(store.users)
      invariant store.seasonPredictions == old(store.seasonPredictions)
      invariant store.driverPredictions == old(store.driverPredictions)
      invariant store.nextId == old(store.nextId)
    {
      assert positions[..j + 1][..j] == positions[..j];
      u := ProcessPosition(store, session, positions[j], dm, u);
    }
    assert positions[..|positions|] == positions;
  }

  /** The body of the inner loop for one position. */
  method ProcessPosition(store: Store, session: SessionToSync, pos: Position, dm: map<int, Driver>, t: Tally)
    returns (u: Tally)
    requires store.Valid()
    modifies store
    ensures store.Valid()
    ensures store.raceResults == PositionStep(old(store.raceResults), t, session, pos, dm).0
    ensures u == PositionStep(old(store.raceResults), t, session, pos, dm).1
    ensures store.teams == old(store.teams) && store.drivers == old(store.drivers) && store.users == old(store.users)
    ensures store.seasonPredictions == old(store.seasonPredictions)
    ensures store.driverPredictions == old(store.driverPredictions)
    ensures store.nextId == old(store.nextId)
  {
    if pos.driverNumber !in dm {
      return t.(errors := t.errors + [MissingDriverMessage(pos.driverNumber, session.sessionKey)]);
    }
    var driver := dm[pos.driverNumber];
    var points := PointsForPosition(pos.position);
    var resultData, isNew := store.UpsertRaceResult(
      ResultRow(session.location, session.round, session.year, session.sessionKey, driver.id, pos.position, points));
    if isNew {
      u := t.(resultsCreated := t.resultsCreated + 1);
    } else {
      u := t.(resultsUpdated := t.resultsUpdated + 1);
    }
  }
}
