# F1 Predictions: a verified model of the scoring engine and its routes

F1 Predictions is a web application in which users rank the drivers of the
2025 Formula 1 season. After every race, each prediction earns points by how
close every driver's actual finishing position was to the predicted one. The
home page shows a top-five preview with each user's movement since the
previous race. The leaderboard page ranks every user once the scores are
revealed, on 24 December 2025 at 18:00 CET. Admin routes pull sessions,
drivers and race results from the OpenF1 provider into the database.

This Dafny project models the core of that system and proves what it
promises:

- `points.dfy` (module `Points`): the scoring engine.
  - `calculatePointsForRace`: the difference-to-points table, the first
    result row per driver, and the last prediction per driver.
  - `calculatePointsPerRace`: grouping rows by session in map insertion
    order, one entry per session, and a stable sort by round.
  - `calculateTotalPoints`: the sum of the breakdown.
  - The loops are methods proved equal to specification functions. The
    properties are lemmas about those functions.
- `sorting.dfy` (module `Sorting`): `Array.prototype.sort` with a key
  comparator. It is a stable sort, given both as a function and as an
  in-place array method, proved sorted, a permutation, and stable.
- `home.dfy` (module `HomePage`): the home page preview.
  - current and previous standings;
  - the last race's session key;
  - position changes, and the proof that they cancel out;
  - the top-five slice.
- `leaderboard.dfy` (module `LeaderboardPage`): the leaderboard pipeline. It
  builds the rows, sorts them in place on an array, and gates the view on
  the reveal instant.
- `countdown.dfy` (module `Countdown`): the reveal gate, the split of the
  remaining milliseconds into days, hours, minutes and seconds, and the
  Norwegian countdown text.
- `ratelimit.dfy` (module `RateLimit`): the fixed-window rate limiter as a
  class whose map of windows is changed by `CheckRateLimit` and `Sweep`.
- `validation.dfy` (module `Validation`), `auth.dfy` (module `Auth`): the
  input validators and the admin bearer-token check.
- `openf1.dfy` (module `OpenF1`): the race-session filter, and the reduction
  of position samples to one final position per driver.
- `db.dfy` (module `Db`): the data helpers as a `Store` class over in-memory
  tables keyed by their natural keys.
- `sync_results.dfy` (module `SyncResults`), `sync_drivers.dfy` (module
  `SyncDrivers`), `predictions_route.dfy` (module `PredictionsRoute`): the
  three POST routes that change the store.
- `common.dfy` (module `Common`): values shared by the modules.

The clock (`now`), the provider's lists, the signed-in user and the request
headers are parameters. The database is the `Store` object.

## Model

| member | source | states |
|---|---|---|
| `Points.PointsForDifference` | lib/points.ts:14-26 | a difference of 0..8 earns 25, 18, 15, 12, 10, 8, 6, 4, 2 points, anything larger earns 0, and the result is always in [0, 25] |
| `Points.PointsNonIncreasing` | lib/points.ts:17-26 | a larger position difference never earns more points |
| `Points.FindResultFirst` | lib/points.ts:11 | `find` gives nothing exactly when no row names the driver, and otherwise the first row that does |
| `Points.PointsMap` | lib/points.ts:8-31 | every value of the points map is in [0, 25], and every key is the driver of some prediction |
| `Points.PointsMapSize` | lib/points.ts:10-29 | the map has at most one entry per prediction |
| `Points.PointsMapKeys` | lib/points.ts:10-28 | a driver has an entry exactly when some prediction names it and some result row has it; a prediction without a result adds no key |
| `Points.PointsMapLastWins` | lib/points.ts:11-28 | a driver's entry is scored from the last prediction for that driver, against the first result row for that driver |
| `Points.CalculatePointsForRace` | lib/points.ts:3-32 | the loop over the predictions builds exactly the points map |
| `Points.SumValuesBounds` | lib/points.ts:72 | the sum of a points map is at least 0 and at most 25 per entry |
| `Points.SumPoints` | lib/points.ts:72 | the reduce over `Object.values(pointsMap)` is the sum of the map's values |
| `Points.SessionOrderMembers` | lib/points.ts:57-65 | the session map holds exactly the truthy session keys of the rows; null and 0 are dropped |
| `Points.SessionOrderDistinct` | lib/points.ts:61-63 | each session key appears once in the map's key order |
| `Points.Group` | lib/points.ts:61-64 | a session's group holds only input rows that carry that session key |
| `Points.GroupFirst` | lib/points.ts:61-78 | every session's group is non-empty, and its first element is the first input row of that session |
| `Points.GroupBySession` | lib/points.ts:55-65 | the grouping loop builds a Map whose keys, in insertion order, are the session keys, with each key's rows in input order |
| `Points.ScoreSession` | lib/points.ts:71-80 | one session's total is the sum of its points map, and its entry is the one the specification gives for it |
| `Points.ScoreSessions` | lib/points.ts:70-82 | the loop over the session map pushes one entry per session, in map order, including sessions worth 0 points |
| `Points.CalculatePointsPerRace` | lib/points.ts:50-88 | the result is the per-session breakdown sorted by round |
| `Points.CalculateTotalPoints` | lib/points.ts:34-41 | the total is the specified season total |
| `Points.RacePointsBounds` | lib/points.ts:71-72 | a race is worth between 0 and 25 points per prediction |
| `Points.BreakdownSorted` | lib/points.ts:67-85 | the breakdown has one entry per session, is sorted by round, and keeps the map order among entries with equal rounds |
| `Points.BreakdownCoversSessions` | lib/points.ts:70-81 | every session of the input has its entry in the breakdown |
| `Points.BreakdownEntries` | lib/points.ts:74-80 | every breakdown entry belongs to a session of the input; its name and round come from the session's first row (falling back to 'Unknown' and 0), and its points are the sum of that race's map |
| `Points.TotalIsSumOfRaces` | lib/points.ts:39-40 | the season total is the sum of the per-race points, whatever order the sort leaves them in |
| `Points.TotalNonNegative` | lib/points.ts:39-40 | the season total is never negative |
| `Points.NoResults` | lib/points.ts:55-87 | with no result rows the breakdown is empty and the total is 0 |
| `Points.KeylessRowInvisible` | lib/points.ts:58-64 | a row without a truthy session key, inserted anywhere in the input, adds no key to the session map and no row to any session's group |
| `Points.KeylessRowIgnored` | lib/points.ts:58-59 | a row without a truthy session key, at any position in the input, changes neither the breakdown nor the total |
| `Points.FindResultReorder` | lib/points.ts:11 | with one row per driver, `find` gives the same row on any list holding the same rows |
| `Points.PointsMapResultsReorder` | lib/points.ts:8-31 | with one result row per driver, the race's points map is the same under any reordering of the results |
| `Points.PointsMapScoresThe` | lib/points.ts:11-28 | when every prediction naming a driver is the same prediction q, the driver's entry is q's score against the driver's result row |
| `Points.PointsMapPredictionsReorder` | lib/points.ts:8-31 | with one prediction per driver, the race's points map is the same under any reordering of the predictions |
| `Points.PointsMapReorder` | lib/points.ts:8-31 | with one prediction and one result row per driver, the race's points map is the same under any reordering of both lists |
| `Points.GroupMembers` | lib/points.ts:57-65 | a session's group holds exactly the input rows that carry that session key |
| `Points.TotalIsSumOverSessions` | lib/points.ts:34-87 | the season total is the sum, over the session keys, of each session's race points |
| `Points.SessionOrderReorder` | lib/points.ts:55-65 | two inputs holding the same rows give session key orders that are permutations of each other |
| `Points.SessionPointsReorder` | lib/points.ts:61-72 | with one row per session and driver, a session's points do not depend on the order of the results |
| `Points.TotalPointsReorder` | lib/points.ts:34-87 | with one row per session and driver, the season total is the same under any reordering of the results |
| `Points.ScenarioOneRace` | lib/points.ts:10-31 | a worked race: two exact hits and a miss by two score 25 + 15 + 25 = 65 |
| `Points.ScenarioNoOverlap` | lib/points.ts:74-80 | a race whose rows name no predicted driver still gets its breakdown entry, with 0 points |
| `Sorting.SortByCorrect` | lib/points.ts:85 | the sort's result is sorted by the key, is a permutation of its input, and keeps the input order within each key |
| `Sorting.SortedUnique` | lib/points.ts:85 | two sorted sequences that keep the same order within each key are equal, so a stable sort has exactly one result |
| `Sorting.SortInPlace` | app/leaderboard/page.tsx:31 | the in-place sort of an array leaves the array holding the stable sort of its old contents |
| `Sorting.SinkInto` | app/leaderboard/page.tsx:31 | one insertion step leaves the prefix up to i sorted and keeps every per-key order |
| `Sorting.SortByMembers` | app/page.tsx:34 | sorting keeps exactly the elements of the input |
| `HomePage.WithPrediction` | app/page.tsx:19 | the filter keeps exactly the users that have a prediction |
| `HomePage.WithPredictionMultiset` | app/page.tsx:19 | the filter keeps each user with a prediction exactly as many times as the fetched list holds it, and no other user |
| `HomePage.WithPredictionCount` | app/page.tsx:19 | the filter's length is the number of positions of the fetched list that hold a user with a prediction |
| `HomePage.WithPredictionDistinct` | app/page.tsx:18-19 | filtering keeps user ids pairwise different |
| `HomePage.LastRaceIsHighestRound` | app/page.tsx:23-24 | the last breakdown entry, whose points are `lastRacePoints`, is a race of the highest round |
| `HomePage.CurrentStandingsShape` | app/page.tsx:18-34 | the current standings rank exactly the users with a prediction, one row each, by total points descending, keeping fetch order on ties |
| `HomePage.MaxSessionKey` | app/page.tsx:38 | `Math.max` over the keys is at least every key, counting a missing key as 0, and is one of them |
| `HomePage.LastRaceSessionKeyIsMax` | app/page.tsx:37-39 | the last session key is null exactly when there are no results, and otherwise the highest key with missing keys as 0 |
| `HomePage.ExcludeSession` | app/page.tsx:46-48 | the filtered results are exactly the rows not of the given session |
| `HomePage.PreviousStandingsShape` | app/page.tsx:41-56 | with a null or zero last key the previous standings are empty; otherwise they rank the same users, highest first, by totals computed without that session's rows |
| `HomePage.FindIndexById` | app/page.tsx:60 | `findIndex` gives -1 exactly when no row has the id, and otherwise the first row that does |
| `HomePage.NoPreviousNoChange` | app/page.tsx:59-61 | with empty previous standings every position change is 0 |
| `HomePage.PreviewKeepsChanges` | app/page.tsx:59-67 | the preview is the first five rows of the full ranking, each with the change computed from its rank in the full list |
| `HomePage.ChangesSumToZero` | app/page.tsx:41-61 | with distinct user ids and non-empty previous standings, every current user is found in them and the position changes sum to 0 |
| `HomePage.ChangesCancel` | app/page.tsx:59-61 | when every current row is found in the previous standings and their previous ranks add up to 0 + 1 + ... + (n - 1), the changes previousIndex - currentIndex sum to 0 |
| `HomePage.TotalPredictions` | app/page.tsx:69 | the participant count is the number of positions of the fetched list that hold a user with a prediction |
| `HomePage.Take` | app/page.tsx:67 | `slice(0, n)` keeps the first min(n, length) elements unchanged |
| `LeaderboardPage.BuildRow` | app/leaderboard/page.tsx:19-28 | one user's row carries the user's id and name, the season total of the user's prediction, and the per-race breakdown |
| `LeaderboardPage.BuildRows` | app/leaderboard/page.tsx:16-29 | the filter/map pipeline gives one row per user with a prediction, in fetch order |
| `LeaderboardPage.BuildLeaderboard` | app/leaderboard/page.tsx:16-31 | the array built and then sorted in place holds the ranked rows |
| `LeaderboardPage.RowsMembers` | app/leaderboard/page.tsx:16-17 | a row is in the leaderboard exactly when it is the row of some user with a prediction |
| `LeaderboardPage.LeaderboardShape` | app/leaderboard/page.tsx:16-31 | the leaderboard has one row per user with a prediction; each total equals the sum of its breakdown's points; adjacent totals do not increase; ties keep fetch order |
| `LeaderboardPage.RenderLeaderboardPage` | app/leaderboard/page.tsx:9-31 | the page computes the specified view for the clock reading |
| `LeaderboardPage.ScoresOnlyAfterReveal` | app/leaderboard/page.tsx:9-47 | scores are shown exactly after the reveal with some prediction; the countdown is shown exactly before the reveal; the empty state exactly after the reveal with no prediction |
| `Countdown.TimeUntilReveal` | lib/countdown.ts:8-28 | with no time left every field is 0; otherwise total is the difference, hours < 24, minutes < 60, seconds < 60, and the parts add back up to the difference less under one second |
| `Countdown.Decompose` | lib/countdown.ts:22-25 | days, hours, minutes and seconds times their unit lengths fall short of the difference by less than 1000 ms |
| `Countdown.RevealWhenCountdownDone` | lib/countdown.ts:4-20 | scores are revealed exactly when the remaining total is 0 |
| `Countdown.Parts` | lib/countdown.ts:35-48 | every pushed part is of a shown unit and carries its value, and the parts come in the order days, hours, minutes, seconds |
| `Countdown.PartsComplete` | lib/countdown.ts:37-48 | every shown unit (value > 0; seconds only with no days) has its part |
| `Countdown.RenderReadsBack` | lib/countdown.ts:38-47 | a rendered part starts with the digits of its value, and the suffix is the plural form exactly when the value is not 1 |
| `Countdown.Join` | lib/countdown.ts:50 | joining no parts gives the empty text, and joining one part gives that part |
| `Countdown.ShownParts` | lib/countdown.ts:35-48 | the pushes build the rendered part of every shown unit, in order |
| `Countdown.FormatCountdown` | lib/countdown.ts:30-51 | the method returns the specified countdown text |
| `Countdown.TextAfterReveal` | lib/countdown.ts:31-33 | once the reveal instant has passed, the text is the fixed literal, byte for byte as the file holds it |
| `Countdown.LastSecondIsBlank` | lib/countdown.ts:46-50 | in the last second before the reveal no unit is shown and the text is empty |
| `Countdown.NinetySecondsBefore` | lib/countdown.ts:22-27 | ninety seconds before the reveal, one minute and thirty seconds are left |
| `Countdown.NinetySecondsText` | lib/countdown.ts:43-50 | that time reads "1 minutt, 30 sekunder" |
| `Common.FirstField` | lib/ratelimit.ts:39 | `split(sep)[0]`, which both the forwarded-for header and the email's local part (app/api/predictions/route.ts, line 44) use, is the longest prefix free of the separator, and the separator follows it unless it is the whole text |
| `RateLimit.ClientIp` | lib/ratelimit.ts:38-41 | the client is the first forwarded item when non-empty, else x-real-ip when non-empty, else 'unknown' |
| `RateLimit.CeilSeconds` | lib/ratelimit.ts:59 | `Math.ceil(ms / 1000)` is non-negative and is the least whole number of seconds covering ms |
| `RateLimit.RateLimiter.CheckRateLimit` | lib/ratelimit.ts:32-81 | the table of windows and the answer are those the specification gives for the client's key |
| `RateLimit.RateLimiter.Sweep` | lib/ratelimit.ts:16-23 | the sweep leaves the table without the windows that ended strictly before now |
| `RateLimit.Swept` | lib/ratelimit.ts:18-22 | the swept table keeps exactly the live windows, unchanged |
| `RateLimit.OpensWindow` | lib/ratelimit.ts:48-54 | a key with no window, or one that ended before now, gets a window of count 1 ending at now + windowMs, and the request passes |
| `RateLimit.RefusesAtLimit` | lib/ratelimit.ts:57-76 | in a live window at the limit the answer is 429, the table is unchanged, and retryAfter is the remaining seconds rounded up |
| `RateLimit.CountsBelowLimit` | lib/ratelimit.ts:78-80 | below the limit the request passes and the count grows by exactly one |
| `RateLimit.OtherKeysUntouched` | lib/ratelimit.ts:46-80 | a request changes no other key's window |
| `RateLimit.LiveWindowBound` | lib/ratelimit.ts:48-80 | while a window with count c stays live, at most maxRequests - c further requests pass |
| `RateLimit.AtMostMaxPerWindow` | lib/ratelimit.ts:48-80 | within one window of one key at most maxRequests requests pass |
| `RateLimit.ZeroLimitStillPassesFirst` | lib/ratelimit.ts:48-54 | a limit of 0 still lets the first request of a window through |
| `RateLimit.SweepChangesNoAnswer` | lib/ratelimit.ts:16-48 | sweeping before a request changes neither its answer nor, after a later sweep, the table |
| `Auth.CheckAdminAuth` | lib/auth.ts:11-42 | without a configured password the answer is 500; a missing header, or one not starting with "Bearer ", is 401 "Missing authentication"; any refusal is 401 or 500 |
| `Auth.AuthorizedIff` | lib/auth.ts:11-42 | the request passes exactly when a non-empty password is configured and the header is "Bearer " followed by it |
| `Auth.WrongTokenRefused` | lib/auth.ts:31-38 | a well-formed header with the wrong token is refused with 401 "Invalid credentials" |
| `Validation.TrimStart` | lib/validation.ts:69 | the result is a suffix of the input; everything dropped is white space, and it does not start with white space |
| `Validation.TrimEnd` | lib/validation.ts:69 | the result is a prefix of the input; everything dropped is white space, and it does not end with white space |
| `Validation.LeadingDigits` | lib/validation.ts:15 | the longest run of decimal digits at the start of the string |
| `Validation.ParseIntString` | lib/validation.ts:15 | `parseInt` gives a number exactly when some digit follows the leading white space and optional sign |
| `Validation.ParseIntOfPrinted` | lib/validation.ts:15-42 | parsing a printed integer gives that integer back |
| `Validation.ValidateYear` | lib/validation.ts:7-32 | falsy input is refused as required; an unparseable one as not a number; accepted exactly when the parsed value is in [2000, 2030], which it returns; every refusal is 400 |
| `Validation.AcceptsSeasonYears` | lib/validation.ts:24-31 | every year from 2000 to 2030, as a number or as its text, is accepted as itself |
| `Validation.YearWithTrailingText` | lib/validation.ts:15 | " 2025abc" is accepted as 2025, since parsing reads only the leading digits |
| `Validation.ValidateSessionKey` | lib/validation.ts:34-59 | falsy input is refused as required; an unparseable one as not a number; accepted exactly when the parsed value is positive, which it returns; every refusal is 400 |
| `Validation.AcceptsPositiveKeys` | lib/validation.ts:51-58 | every positive key, as a number or its text, is accepted as itself |
| `Validation.RefusesZeroKey` | lib/validation.ts:51-56 | the truthy string "0" is refused as not positive |
| `Validation.IndexOfChar` | lib/validation.ts:63 | the first position of a character, or the length when it is absent |
| `Validation.ValidateEmailMatchesPattern` | lib/validation.ts:61-65 | the decision procedure accepts exactly the strings the email pattern matches |
| `Validation.AcceptedMatchesPattern` | lib/validation.ts:63-64 | an accepted address splits as local@host.top with three parts free of white space and '@' |
| `Validation.PatternAccepted` | lib/validation.ts:63-64 | every local@host.top made of such parts is accepted |
| `Validation.Utf16Length` | lib/validation.ts:69 | JavaScript's string length: one code unit per character, two for a character outside the Basic Multilingual Plane, so between the character count and twice it |
| `Validation.ValidateName` | lib/validation.ts:67-70 | a name is valid exactly when its trimmed form is 2 to 100 UTF-16 code units long |
| `Validation.ValidateNameWithoutAstral` | lib/validation.ts:69 | for a name without astral characters, valid exactly when its trimmed form has 2 to 100 characters |
| `Validation.SingleAstralNameAccepted` | lib/validation.ts:69 | a name of one astral character, such as an emoji, is two code units long and so is accepted |
| `Validation.FiftyOneAstralRefused` | lib/validation.ts:69 | fifty-one astral characters are 102 code units long and so are refused |
| `Validation.TrimIgnoresPadding` | lib/validation.ts:69 | white space around a name changes neither its trimmed form nor its validity |
| `OpenF1.RaceSessions` | lib/openf1.ts:73-76 | the filter keeps exactly the sessions named "Race" |
| `OpenF1.RaceSessionsAppend` | lib/openf1.ts:75 | the filter keeps the order of the sessions |
| `OpenF1.Set` | lib/openf1.ts:96 | `Map.set` stores the value; a new key goes last and an existing key keeps its place |
| `OpenF1.LatestKeeps` | lib/openf1.ts:91-98 | the Map holds exactly the drivers of the samples, each with one of that driver's samples |
| `OpenF1.LatestKept` | lib/openf1.ts:93-97 | the stored sample for a driver has the latest date of that driver, and is the earliest such sample, since the date comparison is strict |
| `OpenF1.FetchSessionResults` | lib/openf1.ts:88-100 | the loop and the sort give the specified session results |
| `OpenF1.ValuesShape` | lib/openf1.ts:100 | the values of the Map are exactly its stored samples, with distinct drivers |
| `OpenF1.SessionResultsSorted` | lib/openf1.ts:100 | the results are sorted by position, keeping Map order for equal positions |
| `OpenF1.SessionResultsDistinct` | lib/openf1.ts:91-100 | the results have at most one entry per driver |
| `OpenF1.SessionResultsComplete` | lib/openf1.ts:93-100 | every driver with a sample has an entry |
| `OpenF1.SessionResultsKept` | lib/openf1.ts:95-100 | every entry is an input sample, the latest-dated one for its driver |
| `Db.UpsertTeamIn` | lib/db.ts:86-110 | a known name returns the stored team and leaves the table alone; an unknown one inserts a new team with that name |
| `Db.UpsertDriverIn` | lib/db.ts:112-157 | isNew exactly when the code is unknown; the stored row takes the given fields and keeps its id on update |
| `Db.UpsertRaceResultIn` | lib/db.ts:159-206 | rows are found by session key and driver id; isNew exactly when none matched; an update changes only race name, round, position and points |
| `Db.UpsertTeamTwice` | lib/db.ts:86-110 | upserting a team twice leaves the table as after once, and returns the same team |
| `Db.UpsertDriverTwice` | lib/db.ts:121-156 | upserting a driver twice leaves the table as after once, and the second call reports isNew = false |
| `Db.UpsertRaceResultTwice` | lib/db.ts:169-205 | upserting a result twice leaves the table as after once, and the second call reports isNew = false |
| `Db.PredictionRows` | lib/db.ts:282-286 | one row per entry, all with the new season prediction's id |
| `Db.PredictionRowsRoundTrip` | lib/db.ts:282-286 | reading the rows back gives the entries unchanged and in order |
| `Db.RowsOfNewId` | lib/db.ts:288-290 | after the insert, the rows with the new id are exactly the inserted rows |
| `Db.Flatten` | lib/db.ts:31-72 | a non-empty array becomes its first element, and anything else becomes null |
| `Db.FlattenAll` | lib/db.ts:31-36 | the same users in the same order, each with its relation flattened |
| `Db.FetchedUser.FlattenPrediction` | lib/db.ts:68-72 | the in-place transform replaces the relation with its flattened form and leaves the user row alone |
| `Db.Store.TeamByName` | lib/db.ts:217-226 | the team with the name, or null when there is none |
| `Db.Store.DriverByCode` | lib/db.ts:228-237 | the driver with the code, or null when there is none |
| `Db.Store.UpsertTeam` | lib/db.ts:86-110 | the team table changes as the upsert specifies, and only a new team takes an id |
| `Db.Store.UpsertDriver` | lib/db.ts:112-157 | the driver table changes as the upsert specifies, and only a new driver takes an id |
| `Db.Store.UpsertRaceResult` | lib/db.ts:159-206 | the result table changes as the upsert specifies, and nothing else changes |
| `Db.Store.CreateUser` | lib/db.ts:248-257 | a new user row with the next id, under its auth id |
| `Db.Store.UpdateUser` | lib/db.ts:259-269 | the user's name and email change and nothing else does |
| `Db.Store.CreateSeasonPrediction` | lib/db.ts:271-309 | one new season prediction for the user, and one driver prediction row per entry in order, which read back as the entries |
| `Db.Store.GetUserByAuthId` | lib/db.ts:49-75 | null for an unknown auth id; otherwise the user row with its prediction relation flattened |
| `SyncResults.PointsForPosition` | app/api/sync/results/route.ts:14-19 | 0 for positions <= 0 or > 10, and otherwise the position's entry of 25, 18, 15, 12, 10, 8, 6, 4, 2, 1 |
| `SyncResults.PointsDecreaseWithPosition` | app/api/sync/results/route.ts:14-19 | a better finish down to tenth place earns strictly more |
| `SyncResults.FindSessionFirst` | app/api/sync/results/route.ts:44 | `find` gives nothing exactly when no session has the key, and otherwise the first one that does |
| `SyncResults.FindIndexByKey` | app/api/sync/results/route.ts:60 | `findIndex` gives -1 exactly when no race has the key, and otherwise the first one that does |
| `SyncResults.NumberFrom` | app/api/sync/results/route.ts:82-88 | the sessions keep their order and take rounds first, first + 1, ... |
| `SyncResults.YearRounds` | app/api/sync/results/route.ts:79-88 | year mode sorts the races by start time and numbers them 1..n |
| `SyncResults.NotARaceRoundZero` | app/api/sync/results/route.ts:57-60 | a session that is not a race of its year gets round 0 |
| `SyncResults.SessionRoundAgreesWithYear` | app/api/sync/results/route.ts:57-88 | with distinct keys, a single session gets the round that year mode gives it |
| `SyncResults.SessionKeyWinsOverYear` | app/api/sync/results/route.ts:36-96 | a truthy session key decides the plan whatever the year is; with neither field the answer is 400 |
| `SyncResults.DriverMapOf` | app/api/sync/results/route.ts:113 | the map has exactly the drivers' numbers as keys |
| `SyncResults.DriverMapLastWins` | app/api/sync/results/route.ts:113 | a number maps to the last driver with that number |
| `SyncResults.UnknownDriverSkipped` | app/api/sync/results/route.ts:117-124 | a position with an unknown driver adds exactly one message and writes nothing |
| `SyncResults.KnownDriverUpserted` | app/api/sync/results/route.ts:126-143 | a known driver's position is upserted with the session's data and the position's points, and exactly one of created and updated grows, by isNew |
| `SyncResults.PositionsFoldCounts` | app/api/sync/results/route.ts:116-144 | over one session, created plus updated grows by the known positions and the messages by the unknown ones |
| `SyncResults.SyncAllCounts` | app/api/sync/results/route.ts:98-152 | sessionsProcessed counts the sessions fetched; created plus updated counts the positions with a known driver; one message per failed session and per unknown driver |
| `SyncResults.ChooseSessions` | app/api/sync/results/route.ts:27-96 | the part before the loop computes the specified plan or early answer |
| `SyncResults.ChooseSession` | app/api/sync/results/route.ts:38-68 | session mode yields the specified plan |
| `SyncResults.ChooseYear` | app/api/sync/results/route.ts:71-88 | year mode yields the specified plan |
| `SyncResults.NumberRounds` | app/api/sync/results/route.ts:82-88 | the map over the sorted races numbers them from 1 |
| `SyncResults.SortedByDate` | app/api/sync/results/route.ts:57-81 | the races sorted stably by start time |
| `SyncResults.ProcessPosition` | app/api/sync/results/route.ts:117-143 | one position changes the result table and the counters as the specification gives |
| `SyncResults.ProcessPositions` | app/api/sync/results/route.ts:116-144 | the inner loop changes the result table and the counters as the fold over the positions gives |
| `SyncResults.ProcessSession` | app/api/sync/results/route.ts:107-151 | one session of the outer loop, including a failed fetch, is the specified step |
| `SyncResults.ProcessSessions` | app/api/sync/results/route.ts:98-152 | the outer loop leaves the result table and the counters as the fold over the sessions gives |
| `SyncResults.SyncRaceResults` | app/api/sync/results/route.ts:25-174 | an early answer writes nothing; otherwise the result table and the answer are those of the sync of the planned sessions, and no other table changes |
| `SyncDrivers.RequestedYear` | app/api/sync/drivers/route.ts:18-19 | a missing body or year gives 2025, and any other value is kept |
| `SyncDrivers.MissingYearIs2025` | app/api/sync/drivers/route.ts:18-22 | without a year the route answers as for 2025 |
| `SyncDrivers.NoRacesNotFound` | app/api/sync/drivers/route.ts:28-37 | a valid year with no race sessions is answered 404, naming the year |
| `SyncDrivers.LatestRace` | app/api/sync/drivers/route.ts:41 | the drivers come from the last race session of the list |
| `SyncDrivers.DriverLinkedToTeam` | app/api/sync/drivers/route.ts:58-79 | after a pass the driver's row carries its team row's id |
| `SyncDrivers.DriversFoldCounts` | app/api/sync/drivers/route.ts:56-86 | each pass counts exactly one team and one driver, so each pair of counters sums to the driver count |
| `SyncDrivers.TeamsCreatedAreNewNames` | app/api/sync/drivers/route.ts:58-67 | afterwards the team table holds every team name seen, and teamsCreated counts the names that were new |
| `SyncDrivers.DriversCreatedAreNewCodes` | app/api/sync/drivers/route.ts:70-85 | afterwards the driver table holds every code seen, and driversCreated counts the codes that were new |
| `SyncDrivers.ChooseRaces` | app/api/sync/drivers/route.ts:14-37 | the part before the loop computes the specified year and races, or the early answer |
| `SyncDrivers.ProcessDriver` | app/api/sync/drivers/route.ts:57-85 | one driver's pass changes the tables and counters as the specification gives |
| `SyncDrivers.ProcessDrivers` | app/api/sync/drivers/route.ts:48-86 | the loop leaves the tables and counters as the fold over the drivers gives |
| `SyncDrivers.SyncDrivers` | app/api/sync/drivers/route.ts:12-106 | an early answer writes nothing; otherwise the teams and drivers of the last race are synced, sessionsScanned is the number of races, and no other table changes |
| `PredictionsRoute.DisplayName` | app/api/predictions/route.ts:44 | the name is a non-empty metadata name, else a non-empty local part of the email, else 'Anonym' |
| `PredictionsRoute.NameFromEmail` | app/api/predictions/route.ts:44 | without a metadata name the name is the email's local part, or 'Anonym' when that is empty |
| `PredictionsRoute.AcceptedIff` | app/api/predictions/route.ts:21-57 | a submission passes exactly when the user is signed in, the list is a non-empty array, and the user has no prediction yet, whatever the positions |
| `PredictionsRoute.SignInFirst` | app/api/predictions/route.ts:21-28 | without a user the answer is 401 whatever the body |
| `PredictionsRoute.SecondSubmissionRefused` | app/api/predictions/route.ts:50-57 | once the user has a season prediction, every later submission gets the 400 answer |
| `PredictionsRoute.SavedUser` | app/api/predictions/route.ts:59-65 | the saved row has the derived name and the email; it keeps an existing user's id, and a new user takes the next id |
| `PredictionsRoute.CheckSubmission` | app/api/predictions/route.ts:19-57 | the guards give the specified refusal, and a passing user is found exactly when it exists |
| `PredictionsRoute.SaveUser` | app/api/predictions/route.ts:59-65 | a known user is updated and a new one created, and the prediction tables are untouched |
| `PredictionsRoute.Save` | app/api/predictions/route.ts:59-74 | the user row is saved, then one season prediction and one row per entry, in order, with positions unchanged |
| `PredictionsRoute.SavePrediction` | app/api/predictions/route.ts:16-91 | a refusal writes nothing; otherwise the user, the prediction and its rows are written as specified |
| `PredictionsRoute.SubmitPrediction` | app/api/predictions/route.ts:11-92 | the rate limit (5 per 60000 ms) is checked first, and a limited request writes nothing |

## Left out

- Network I/O is left out:
  - fetching from the provider, its HTTP errors and JSON parsing, and `fetchLatestSession`;
  - the provider's session, position and driver lists are parameters.
- The database client is left out, along with its query builders, the PGRST116 handling and error propagation. The store is an in-memory object whose row ids come from one store-wide counter. `getAllRaceResults`, `getDrivers` and `deletePrediction` are plain reads or deletes and are not modelled. `getAllDrivers` is the `drivers` parameter of `SyncResults.SyncRaceResults`.
- Framework effects are left out: response headers and CORS, `revalidatePath`, console logging, and the React pages around the two leaderboards. Answers are status and message pairs.
- Clocks and timers are parameters:
  - `now` is an integer number of milliseconds;
  - the five-minute sweep timer is the `Sweep` method, called by whoever owns the clock;
  - ISO dates are integer timestamps;
  - the reveal instant is 1766595600000 ms (2025-12-24T18:00:00+01:00).
- Concurrency is left out: the routes run to completion one at a time.
- JavaScript coercion:
  - JSON fields are undefined, null, an integer or a string, and floating-point values are not modelled;
  - `parseInt` of a number gives the number itself, which holds for numbers below 10^21 in magnitude;
  - `parseInt` of a string reads leading white space, an optional sign and the leading digits.
- `Validation.ValidateSessionKey`: a number of magnitude 10^21 or more is taken as itself. JavaScript prints such a number in exponent notation, so `parseInt` reads only its first digit (1e21 gives 1). Numbers are modelled as integers, and their printed form above that bound is not modelled. `Validation.ValidateYear` refuses such numbers either way.
- White space is the set that String.prototype.trim and the regex class `\s` use, with Unicode category Zs given by its listed code points. Normalisation and case folding do not arise.
- The email regex is modelled as a decision procedure, proved to accept exactly the strings the pattern describes. There is no regex engine.
- `LastSecondIsBlank` states source behaviour: with 0 < diff < 1000 ms every unit is 0, so the countdown text is empty rather than "0 sekunder".
- The countdown literal at lib/countdown.ts:32 is kept exactly as the file's bytes decode ("nÃ¥", a double-encoded "å").
- The rate limiter with maxRequests = 0 still lets the first request of each window through, because a new window starts at count 1. `AtMostMaxPerWindow` therefore assumes maxRequests >= 1.
- `SweepChangesNoAnswer` assumes windowMs >= 0. With a negative window, a fresh window would itself be swept.
- `ChangesSumToZero` assumes user ids are distinct, as primary keys are.
- Input order matters in the points code when rows or predictions repeat. With two predictions for one driver, the last one is scored; with two result rows for one driver in a race, the first one is used. The reorder lemmas (`PointsMapReorder`, `TotalPointsReorder`) therefore assume one prediction and one row per driver (per session, for the total). Breakdown entries with equal rounds keep the session map's order, and an entry's name and round come from the first row of its session, so the breakdown itself can change under reordering even when the total does not.
- `Db.Store.UpdateUser` requires the user to exist. An update of a missing row fails in the database, and the route only updates users it has just found.
- `PredictionsRoute.SavedUser` for an existing user keeps the stored auth id. The update names the same auth id, so this is the same row.
- `getUserByAuthId` answers only the fields the route reads (user row and prediction relation). The driver details nested under each prediction row are not modelled.
- In the predictions route:
  - a failed sign-in (`authError`) and a missing user are both modelled as no user;
  - an unreadable body is answered from the catch with 500 "Failed to save prediction";
  - a user without an email is not modelled;
  - the metadata name is an optional string;
  - array elements are reduced to driverId and position;
  - database exceptions are not modelled.
- In the drivers route:
  - the body is modelled as the value of its year field, with None for a body that is not JSON (which becomes `{}` and so defaults to 2025);
  - a JSON null year is refused by validateYear, as in the source, because the default applies only to undefined;
  - a body that is the JSON value null (whose destructuring throws into the 500 catch) is not modelled;
  - the existing-driver lookup at app/api/sync/drivers/route.ts:70 is read and unused, as in the source.
- In the results route:
  - a session whose position fetch fails adds one message and is not counted;
  - database errors during the upsert are not modelled;
  - a failure of the session list fetch is not modelled.
- The flattened relation is a value: `Flatten` of an already flattened object gives null, which matches the source's check of `Array.isArray`.
