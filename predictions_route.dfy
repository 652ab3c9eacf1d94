/** POST of app/api/predictions/route.ts: a signed-in user submits one
    season prediction. The guards run in a fixed order (rate limit, sign-in,
    a readable body, a non-empty list, no earlier prediction); then the user
    row is updated or created and the prediction written with one row per
    entry. The signed-in user, the client's addresses and the clock are
    parameters; the rate limiter and the store are the objects the route
    changes. */
module PredictionsRoute {
  import opened Common
  import opened RateLimit
  import opened Db

  /** The signed-in user as the auth service returns it: metadataName is
      user_metadata.name when present. */
  datatype AuthUser = AuthUser(id: string, email: string, metadataName: Option<string>)

  /** The predictions property of the body: missing, some value that is not
      an array, or an array whose elements give driverId and position. */
  datatype PredictionsField = Missing | NotAnArray | Entries(entries: seq<PredictionEntry>)

  /** The answer of the route. */
  datatype Outcome =
    | Limited(limit: LimitResponse)
    | Refused(response: Response)
    | Saved(prediction: SeasonPredictionRow, rows: seq<DriverPredictionRow>)

  const SubmitMaxRequests: int := 5
  const SubmitWindowMs: int := 60000

  const NotSignedIn: string := "Du må være logget inn for å sende inn en prediction"
  const AlreadySubmitted: string := "Du har allerede levert en prediction. Kontakt admin for å endre."

  /** The name stored for the user: a non-empty metadata name, else a
      non-empty local part of the email, else "Anonym". */
  function DisplayName(user: AuthUser): (name: string)
    ensures user.metadataName.Some? && user.metadataName.value != "" ==> name == user.metadataName.value
    ensures (user.metadataName.None? || user.metadataName.value == "") && FirstField(user.email, '@') != ""
            ==> name == FirstField(user.email, '@')
    ensures (user.metadataName.None? || user.metadataName.value == "") && FirstField(user.email, '@') == ""
            ==> name == "Anonym"
    ensures name != ""
  {
    if user.metadataName.Some? && user.metadataName.value != "" then user.metadataName.value
    else if FirstField(user.email, '@') != "" then FirstField(user.email, '@')
    else "Anonym"
  }

  /** The derived name never carries the domain: without a metadata name it
      is the email up to its first '@' (or "Anonym"), and it has no '@'. */
  lemma NameFromEmail(id: string, local: string, domain: string)
    requires local != "" && '@' !in local
    ensures DisplayName(AuthUser(id, local + "@" + domain, None)) == local
    ensures DisplayName(AuthUser(id, "@" + domain, None)) == "Anonym"
  {
    FirstFieldOf(local, '@', domain);
    assert FirstField("@" + domain, '@') == "";
  }

  /** existingUser?.prediction: the user exists and has a season prediction. */
  predicate HasPrediction(users: map<string, UserRow>, seasonPredictions: seq<SeasonPredictionRow>, authId: string)
  {
    authId in users && PredictionsOfUser(seasonPredictions, users[authId].id) != []
  }

  /** The guards after the rate limit, in the route's order; None lets the
      submission through. body is None when the body cannot be read, which
      the route answers from its catch. */
  function Refusal(authUser: Option<AuthUser>, body: Option<PredictionsField>,
                   users: map<string, UserRow>, seasonPredictions: seq<SeasonPredictionRow>): Option<Response>
  {
    if authUser.None? then Some(Response(401, NotSignedIn))
    else if body.None? then Some(Response(500, "Failed to save prediction"))
    else if !body.value.Entries? || body.value.entries == [] then Some(Response(400, "Predictions are required"))
    else if HasPrediction(users, seasonPredictions, authUser.value.id) then Some(Response(400, AlreadySubmitted))
    else None
  }

  /** A submission passes the guards exactly when the user is signed in,
      the list is a non-empty array and the user has no prediction yet; any
      such list passes, whatever its positions. */
  lemma AcceptedIff(authUser: Option<AuthUser>, body: Option<PredictionsField>,
                    users: map<string, UserRow>, seasonPredictions: seq<SeasonPredictionRow>)
    ensures Refusal(authUser, body, users, seasonPredictions).None?
        <==> authUser.Some? && body.Some? && body.value.Entries? && body.value.entries != []
             && !HasPrediction(users, seasonPredictions, authUser.value.id)
  {
  }

  /** Signing in is checked before the body: without a user the answer is
      401 whatever was sent. */
  lemma SignInFirst(body1: Option<PredictionsField>, body2: Option<PredictionsField>,
                    users: map<string, UserRow>, seasonPredictions: seq<SeasonPredictionRow>)
    ensures Refusal(None, body1, users, seasonPredictions) == Refusal(None, body2, users, seasonPredictions)
            == Some(Response(401, NotSignedIn))
  {
  }

  /** A second submission is refused: once the user has a season
      prediction, every later valid body gets the 400 answer. */
  lemma SecondSubmissionRefused(user: AuthUser, entries: seq<PredictionEntry>, users: map<string, UserRow>,
                                seasonPredictions: seq<SeasonPredictionRow>, row: UserRow)
    requires entries != [] && user.id in users && users[user.id] == row
    ensures Refusal(Some(user), Some(Entries(entries)), users,
                    seasonPredictions + [SeasonPredictionRow(0, row.id)])
            == Some(Response(400, AlreadySubmitted))
  {
    var sp := seasonPredictions + [SeasonPredictionRow(0, row.id)];
    assert SeasonPredictionRow(0, row.id) in PredictionsOfUser(sp, row.id);
  }

  /** The user row the route leaves for the signed-in user: the existing
      row with the new name and email, or a new row with the next id. */
  function SavedUser(users: map<string, UserRow>, nextId: int, user: AuthUser): (row: UserRow)
    ensures row.name == DisplayName(user) && row.email == user.email
    ensures user.id in users ==> row.id == users[user.id].id && row.authId == users[user.id].authId
    ensures user.id !in users ==> row == UserRow(nextId, user.id, DisplayName(user), user.email)
  {
    if user.id in users then users[user.id].(name := DisplayName(user), email := user.email)
    else UserRow(nextId, user.id, DisplayName(user), user.email)
  }

  /** POST: the rate limit first, then the guards, then the writes. */
  method SubmitPrediction(limiter: RateLimiter, store: Store, forwardedFor: Option<string>, realIp: Option<string>,
                          now: int, authUser: Option<AuthUser>, body: Option<PredictionsField>)
    returns (outcome: Outcome)
    requires store.Valid()
    modifies limiter, store
    ensures store.Valid()
    ensures var (entries, limit) := Check(old(limiter.entries), ClientKey(forwardedFor, realIp), now,
                                          SubmitMaxRequests, SubmitWindowMs);
            limiter.entries == entries
            && (limit.Some? ==> outcome == Limited(limit.value) && Unchanged(store, old(TablesOf(store))))
            && (limit.None? ==> Submitted(store, old(TablesOf(store)), authUser, body, outcome))
  {
    var rateLimitResult := limiter.CheckRateLimit(forwardedFor, realIp, now, SubmitMaxRequests, SubmitWindowMs);
    if rateLimitResult.Some? {
      return Limited(rateLimitResult.value);
    }
    outcome := SavePrediction(store, authUser, body);
  }

  /** The tables the route reads and writes, with the id counter. */
  datatype Tables = Tables(
    users: map<string, UserRow>, seasonPredictions: seq<SeasonPredictionRow>,
    driverPredictions: seq<DriverPredictionRow>, nextId: int,
    teams: map<string, Team>, drivers: map<string, Driver>, raceResults: map<ResultKey, ResultRow>)

  function TablesOf(store: Store): Tables
    reads store
  {
    Tables(store.users, store.seasonPredictions, store.driverPredictions, store.nextId,
           store.teams, store.drivers, store.raceResults)
  }

  ghost predicate Unchanged(store: Store, before: Tables)
    reads store
  {
    TablesOf(store) == before
  }

  /** What the route does after the rate limit: a refusal writes nothing;
      otherwise the user row is saved, a season prediction is added for it
      with the next id, and one driver prediction row per entry, in order. */
  ghost predicate Submitted(store: Store, before: Tables, authUser: Option<AuthUser>,
                            body: Option<PredictionsField>, outcome: Outcome)
    reads store
  {
    var refusal := Refusal(authUser, body, before.users, before.seasonPredictions);
    (refusal.Some? ==> outcome == Refused(refusal.value) && Unchanged(store, before))
    && (refusal.None? ==>
          var user := SavedUser(before.users, before.nextId, authUser.value);
          var predictionId := if authUser.value.id in before.users then before.nextId else before.nextId + 1;
          var prediction := SeasonPredictionRow(predictionId, user.id);
          var rows := PredictionRows(predictionId, body.value.entries);
          outcome == Saved(prediction, rows)
          && store.users == before.users[authUser.value.id := user]
          && store.seasonPredictions == before.seasonPredictions + [prediction]
          && store.driverPredictions == before.driverPredictions + rows
          && store.nextId == predictionId + 1
          && store.teams == before.teams && store.drivers == before.drivers
          && store.raceResults == before.raceResults)
  }

  /** The body of the try block. */
  method SavePrediction(store: Store, authUser: Option<AuthUser>, body: Option<PredictionsField>)
    returns (outcome: Outcome)
    requires store.Valid()
    modifies store
    ensures store.Valid()
    ensures Submitted(store, old(TablesOf(store)), authUser, body, outcome)
  {
    var refusal, existingUser := CheckSubmission(store, authUser, body);
    if refusal.Some? {
      return Refused(refusal.value);
    }
    outcome := Save(store, authUser.value, body.value.entries, existingUser != null);
  }

  /** The guards of the try block, with the lookup of the user. */
  method CheckSubmission(store: Store, authUser: Option<AuthUser>, body: Option<PredictionsField>)
    returns (refusal: Option<Response>, existingUser: FetchedUser?)
    ensures refusal == Refusal(authUser, body, store.users, store.seasonPredictions)
    ensures refusal.None? ==> (existingUser != null <==> authUser.value.id in store.users)
  {
    if authUser.None? {
      return Some(Response(401, NotSignedIn)), null;
    }
    if body.None? {
      return Some(Response(500, "Failed to save prediction")), null;
    }
    var predictions := body.value;
    if !predictions.Entries? || |predictions.entries| == 0 {
      return Some(Response(400, "Predictions are required")), null;
    }
    existingUser := store.GetUserByAuthId(authUser.value.id);
    if existingUser != null && existingUser.prediction.Single? {
      return Some(Response(400, AlreadySubmitted)), existingUser;
    }
    refusal := None;
  }

  /** The writes: the user row, updated or created, then the prediction. */
  method Save(store: Store, au: AuthUser, entries: seq<PredictionEntry>, exists_: bool)
    returns (outcome: Outcome)
    requires store.Valid() && (exists_ <==> au.id in store.users)
    modifies store
    ensures store.Valid()
    ensures var user := SavedUser(old(store.users), old(store.nextId), au);
            var predictionId := if exists_ then old(store.nextId) else old(store.nextId) + 1;
            var rows := PredictionRows(predictionId, entries);
            outcome == Saved(SeasonPredictionRow(predictionId, user.id), rows)
            && store.users == old(store.users)[au.id := user]
            && store.seasonPredictions == old(store.seasonPredictions) + [SeasonPredictionRow(predictionId, user.id)]
            && store.driverPredictions == old(store.driverPredictions) + rows
            && store.nextId == predictionId + 1
    ensures store.teams == old(store.teams) && store.drivers == old(store.drivers)
    ensures store.raceResults == old(store.raceResults)
  {
    var user := SaveUser(store, au, exists_);
    var seasonPrediction, rows := store.CreateSeasonPrediction(user.id, entries);
    outcome := Saved(seasonPrediction, rows);
  }

  /** The user row: updateUser for a known user, createUser otherwise. */
  method SaveUser(store: Store, au: AuthUser, exists_: bool) returns (user: UserRow)
    requires store.Valid() && (exists_ <==> au.id in store.users)
    modifies store
    ensures store.Valid()
    ensures user == SavedUser(old(store.users), old(store.nextId), au)
    ensures store.users == old(store.users)[au.id := user]
    ensures store.nextId == if exists_ then old(store.nextId) else old(store.nextId) + 1
    ensures store.seasonPredictions == old(store.seasonPredictions)
    ensures store.driverPredictions == old(store.driverPredictions)
    ensures store.teams == old(store.teams) && store.drivers == old(store.drivers)
    ensures store.raceResults == old(store.raceResults)
  {
    var name := DisplayName(au);
    var email := au.email;
    if exists_ {
      user := store.UpdateUser(au.id, name, email);
    } else {
      user := store.CreateUser(au.id, name, email);
    }
  }
}
