# Bundesliga fantasy league — a Dafny model of its scoring, scheduling and drafting core

This project models the core of a Bundesliga fantasy-football league in Dafny. The league
is a React front end with background scripts, on top of a hosted Postgres store and a
football statistics feed. The model covers these parts:

- **Scoring.** `scripts/liveScorer.js`, `scripts/gameManager.js` and the score-update page
  turn a player's match statistics into fantasy points. The rounding is `Math.round` to a
  hundredth or to a tenth, ties going up. Points are summed per team and written to the
  `player_live_points` and `matchups` tables.
- **The live-scorer pass.** The pass keeps a per-week cache of fixture ids and a
  single-flight flag. It writes one score update per open matchup and upserts each
  team's per-player rows.
- **The week drivers.** `manageWeeks` in `scripts/gameManager.js` and `tick` in
  `scripts/weekManager.js` send an upcoming gameweek live once its lock time has
  passed, and close a live week once its fixtures are finished. The game manager also
  locks the roster rows of players whose club has kicked off.
- **The season schedule.** The schedule generator in `src/pages/League.js` is the circle
  method: a bye pads an odd team count, slot 0 stays fixed, the other slots rotate one
  step per round, and a mirrored return leg follows. League joining and team creation
  are modelled with their guards.
- **The draft pages.** `DraftCenter.js`, `LiveDraft.js` and `BundesligaTest.js` hold the
  squad-size, per-club and per-position limits, the lists of available players, and
  the add, drop and pick handlers.
- **The matchup pages.** `CurrentMatchup.js` and `Matchups.js` cover the crest slug,
  the player ordering by position, the side-by-side pairing, the totals and who leads,
  the first matchup shown, and the Previous and Next buttons.

How the model is built:

- **Numbers.** They are Dafny `real`s. `Math.round(x)` is `Floor(x + 1/2)`, and rounding
  to a hundredth is characterised by "on the grid and within half a step".
- **Statistics objects.** A statistics object is a map from field to value. An absent
  field reads as 0 (`x || 0`), and a flag counts as set when it is present and non-zero.
- **External inputs.** Every answer of the store and of the feeds is a parameter, and so
  are the clock and `Math.random()`. A failed query is `None`. A feed reply is a small
  datatype with a failure case.
- **Writes.** A write the source makes is either a field of a class whose methods update
  it, or a returned list of effects (score writes, upserts, RPC requests).

Layout:

- `common.dfy`, `js_math.dfy`, `stats.dfy` and `tables.dfy` hold the shared types: the
  optional value, `Math.round`, statistics objects, and the table rows with upsert and
  per-team sums.
- There is one module per core source file: `live_scorer.dfy`, `game_manager.dfy`,
  `week_manager.dfy`, `score_updater.dfy`, `league.dfy`, `current_matchup.dfy`,
  `draft_center.dfy`, `live_draft.dfy`, `matchups.dfy` and `bundesliga_test.dfy`.
- The schedule generator's proofs sit in two modules of their own. `schedule.dfy`
  describes the circle method, including a closed form of the round-`r` arrangement.
  `schedule_facts.dfy` proves these facts:
  - every two teams meet once in the first leg;
  - no team plays twice in a week of the season;
  - each leg holds `n(n-1)/2` games;
  - each team hosts each other team once per season;
  - every inserted row starts pending with `null` scores.

## Model

| member | source | states |
|---|---|---|
| Common.Somes | src/pages/CurrentMatchup.js:49-50 | the present entries of a column of optional cells number at most the cells |
| Common.SomesConcat | src/pages/CurrentMatchup.js:44-53 | the present entries of two consecutive blocks of rows are those of the first, then those of the second |
| Common.NoDupIndices | src/pages/League.js:44 | a list without repeated ids holds different ids at any two positions |
| JsMath.MathRound | scripts/liveScorer.js:44 | `Math.round(x)` is the integer in `(x - 1/2, x + 1/2]` |
| JsMath.RoundTo | scripts/liveScorer.js:44 | `Math.round(x * 100) / 100` is a multiple of 1/100 within half a hundredth of `x`, a tie going up |
| JsMath.DivThenMul | scripts/liveScorer.js:44 | dividing the rounded integer by the scale and multiplying back gives that integer |
| JsMath.WholeInWindow | scripts/liveScorer.js:44 | two whole numbers in one window `(y - 1/2, y + 1/2]` are equal, so the rounding is unique |
| JsMath.RoundToUnique | scripts/liveScorer.js:44 | any grid value within half a step of `x`, a tie going up, is the rounded value |
| JsMath.RoundToIdempotent | scripts/liveScorer.js:98 | rounding a per-player total that is already rounded changes nothing |
| JsMath.OnGridAdd | scripts/liveScorer.js:101 | a sum of values rounded to hundredths is on the hundredth grid |
| JsMath.TiesGoUp | scripts/liveScorer.js:44 | every exact tie rounds toward +infinity, negative values and both parities included: `Math.round(k + 1/2) = k + 1`, and a value halfway between two grid points rounds to the upper one |
| Tables.Find | scripts/gameManager.js:72-79 | the lookup under one (team, player, week) key that a keyed upsert implies: no row is found exactly when no row has the key; otherwise the result is the points of the last row with that key, `null` reading as 0 |
| Tables.Upsert | scripts/gameManager.js:72-79 | an upsert overwrites the row with the same (team, player, week) key and otherwise appends the row; keys stay unique |
| Tables.UpsertIdempotent | scripts/liveScorer.js:131-138 | upserting the same row twice leaves the table as one upsert does |
| Tables.UpsertThenFind | scripts/gameManager.js:72-79 | after an upsert the key holds the upserted points and every other key is unchanged |
| Tables.UpsertAll | scripts/gameManager.js:69-81 | upserting rows one by one keeps the keys unique |
| Tables.UpsertAllConcat | scripts/gameManager.js:69-81 | upserting two batches one after the other is upserting their concatenation |
| Tables.PointsSum | scripts/gameManager.js:103 | the `reduce` sum of the rows' points, `null` reading as 0 |
| Tables.TeamWeekPoints | scripts/gameManager.js:91-103 | a team's weekly sum of its `player_live_points` rows; it is 0 when the table holds none of the team's rows for the week |
| Tables.UpsertShiftsTeamPoints | scripts/gameManager.js:91-103 | an upsert changes the team's weekly sum by the new points minus the old ones for that key, and only for the row's team and week |
| Tables.Undrafted | src/pages/BundesligaTest.js:97 | a player is offered exactly when their id is not among the listed ids |
| Tables.OpponentOf | src/pages/CurrentMatchup.js:89 | the opponent is team 2 when the team is team 1, and team 1 otherwise |
| Tables.OpponentIsOtherSide | src/pages/Matchups.js:56-58 | for a team in a matchup of two different teams, the opponent is the other team, and the opponent's opponent is the team |
| LiveScorer.CalculateFantasyPoints | scripts/liveScorer.js:12-45 | the points are the weighted statistics rounded to the nearest hundredth, a tie going up |
| LiveScorer.SingleStatPoints | scripts/liveScorer.js:14-43 | a statistics object with one counted field scores that field's weight times its value, the goalkeeper weights applying to goalkeepers |
| LiveScorer.ScoringStatPoints | scripts/liveScorer.js:14-20 | goals, shots, assists, key passes, distance and passes score their weight per unit, the distance weight depending on the goalkeeper flag |
| LiveScorer.DisciplineStatPoints | scripts/liveScorer.js:21-27 | fouls, being fouled, offsides, penalties won or missed, own goals and fouls leading to a penalty score their weight per unit |
| LiveScorer.DefendingStatPoints | scripts/liveScorer.js:29-38 | cards, goals conceded, saved penalties and saved shots score their weight per unit, the goalkeeper weights applying to goalkeepers |
| LiveScorer.DuelStatPoints | scripts/liveScorer.js:40-43 | interceptions, duels won or lost and being dribbled past score their weight per unit, and `clean_sheet`, which this scorer never reads, scores nothing |
| LiveScorer.SameStatsSamePoints | scripts/liveScorer.js:14-43 | two statistics objects with equal fields and flags score the same |
| LiveScorer.AbsentCountsZero | scripts/liveScorer.js:14 | an absent field scores exactly as a field set to 0 (`x || 0`) |
| LiveScorer.PlayedAddsTwo | scripts/liveScorer.js:28 | `played` adds 2 when it is non-zero and nothing otherwise |
| LiveScorer.CleanSheetBonus | scripts/liveScorer.js:32-36 | `no_goal_conceded` adds 5 for a goalkeeper who has it set, and nothing for any other position |
| LiveScorer.KeeperDifference | scripts/liveScorer.js:18 | a goalkeeper scores 0.2 more per km, 0.5 less per goal conceded, and alone scores saved penalties, saved shots and the clean-sheet bonus |
| LiveScorer.NoStatsNoPoints | scripts/liveScorer.js:12-45 | an empty statistics object scores 0 |
| LiveScorer.FixturePoints | scripts/liveScorer.js:62-75 | a fixture's points are 0 when the request fails or returns no data, and otherwise are `calculateFantasyPoints` of the returned statistics for the player's position, on the hundredth grid |
| LiveScorer.PlayerPoints | scripts/liveScorer.js:88-98 | a roster row without a truthy API id scores 0; any other row scores its fixtures' points sum rounded to the nearest hundredth (within half a hundredth, ties up) and on the hundredth grid |
| LiveScorer.PerPlayer | scripts/liveScorer.js:87-99 | none on a query error; otherwise one entry per roster row, in roster order, carrying that row's player id and `PlayerPoints` |
| LiveScorer.SumOnGrid | scripts/liveScorer.js:101 | a total of per-player points rounded to hundredths is on the hundredth grid |
| LiveScorer.TeamTotalOnGrid | scripts/liveScorer.js:101 | a team total is a multiple of 1/100 |
| LiveScorer.ScoreTeamForWeek | scripts/liveScorer.js:77-103 | the nested loops produce the per-player entries, and the total is their sum; an error or an empty roster gives 0 and no entries |
| LiveScorer.CacheIsSticky | scripts/liveScorer.js:47-48 | once a week is cached, later lookups of any week never change it, and looking it up returns the stored ids without fetching |
| LiveScorer.FetchIsCached | scripts/liveScorer.js:49-59 | a successful fetch is cached, even an empty or missing list, and a failed fetch leaves the week uncached |
| LiveScorer.LiveRows | scripts/liveScorer.js:130-148 | one upserted row per per-player entry, in order, keyed by the matchup side's team, the entry's player id and the matchup's week, and carrying the entry's points |
| LiveScorer.LiveRowsSum | scripts/liveScorer.js:101-102 | the upserted rows' points add up to the team total written to the matchup |
| LiveScorer.MatchWriteAgreesWithUpserts | scripts/liveScorer.js:120-150 | a matchup's writes start with its one score write, the rest are upserts, and each written score is the sum of that team's upserted rows |
| LiveScorer.RunMatchupsStep | scripts/liveScorer.js:120-124 | one more matchup extends the pass by its writes and its cache step |
| LiveScorer.WrittenIdsAppend | scripts/liveScorer.js:125-128 | the score writes of two runs of writes are those of the first, then those of the second |
| LiveScorer.MatchEffectsWriteOnce | scripts/liveScorer.js:125-149 | a matchup's writes hold exactly one score write, for that matchup |
| LiveScorer.PassWritesEachMatchupOnce | scripts/liveScorer.js:120-150 | a pass writes the score of every open matchup exactly once, in the query's order |
| LiveScorer.PassKeepsCache | scripts/liveScorer.js:47-55 | a pass keeps every week that was cached before it, with the same ids |
| LiveScorer.NoWrites | scripts/liveScorer.js:130-148 | a run of upserts holds no score write |
| LiveScorer.Scorer.constructor | scripts/liveScorer.js:9-10 | the scorer starts idle with an empty cache |
| LiveScorer.Scorer.GetFixtureIdsForWeek | scripts/liveScorer.js:47-60 | a cached week is answered from the cache; otherwise a successful reply is stored and returned, and a failure returns no ids and stores nothing |
| LiveScorer.Scorer.ScoreMatchup | scripts/liveScorer.js:121-149 | one iteration's writes and cache step are those of the pass function |
| LiveScorer.Scorer.RunPass | scripts/liveScorer.js:120-150 | the loop's writes and the cache it leaves are those of the pass over the matchups |
| LiveScorer.Scorer.ScoreLoop | scripts/liveScorer.js:105-158 | while a pass runs, a call writes nothing and changes nothing; otherwise it runs the pass over the open matchups (none on a query error) and always clears the flag |
| GameManager.CalcPoints | scripts/gameManager.js:10-22 | the simplified points are rounded to the nearest tenth, a tie going up |
| GameManager.CalcAgreesWithLiveScorer | scripts/gameManager.js:10-22 | on goals, assists, appearance and goals conceded alone, the simplified formula and the full one agree before rounding |
| GameManager.CleanSheetFieldsDiffer | scripts/gameManager.js:16 | the simplified formula reads the goalkeeper bonus from `clean_sheet` and the full one does not, so the same object scores 5 and 0 |
| GameManager.StartedIff | scripts/gameManager.js:39-44 | a club has started exactly when it plays, home or away, in a fixture whose kick-off is not after the clock |
| GameManager.StartedClubs | scripts/gameManager.js:36-44 | the loop collects exactly the started clubs |
| GameManager.ToLock | scripts/gameManager.js:51-53 | a player id is listed exactly when a player of a started club has it |
| GameManager.LockRows | scripts/gameManager.js:55-61 | the update keeps the number of roster rows |
| GameManager.LockIsMonotone | scripts/gameManager.js:56-60 | locking changes only `locked`, sets it exactly on the listed players' rows for the week, and never unlocks a row |
| GameManager.LockIsIdempotent | scripts/gameManager.js:56-60 | locking a second time changes nothing |
| GameManager.LockStartedPlayers | scripts/gameManager.js:34-63 | with no started club, or no club rows, nothing is written; otherwise the started clubs' players are locked for the week |
| GameManager.Lineup | scripts/gameManager.js:70 | a fixture's lineup entries, home side first, a missing lineup contributing none |
| GameManager.PlayerRow | scripts/gameManager.js:71-79 | a lineup entry's row has its (team, player, week) key and the points `calcPoints` gives for its stats (`{}` when missing) and position name (`''` when missing), on the tenth grid |
| GameManager.PlayerRows | scripts/gameManager.js:70-80 | one row per lineup entry, in lineup order |
| GameManager.TotalsUpdate | scripts/gameManager.js:90-111 | a live matchup's update writes that matchup's scores and does not complete it |
| GameManager.UpsertLineup | scripts/gameManager.js:70-80 | the inner loop upserts the lineup's rows one by one |
| GameManager.UpdateScores | scripts/gameManager.js:66-113 | every lineup row of the week is upserted, then each live matchup gets one update whose scores are the two teams' weekly sums in the updated table |
| GameManager.WeekStepIsForward | scripts/gameManager.js:119-135 | an upcoming week is sent live exactly when its lock time has passed, and a live week is closed exactly when every fixture is finished; no row is both sent live and closed, and a complete week is left alone |
| GameManager.NoFixturesCloseLiveWeek | scripts/gameManager.js:129-133 | a live week whose feed lists no fixtures is run and then closed |
| GameManager.ManageWeeks | scripts/gameManager.js:116-136 | the loop makes the requests of each gameweek row in turn |
| GameManager.WeekStepsIsForward | scripts/gameManager.js:116-136 | over a whole pass, a go-live names a row read as upcoming and due at its own clock reading, a run names a row read as live, and a close names a row read as live whose fixtures are all finished |
| WeekManager.UpperChar | scripts/weekManager.js:33 | upper-casing maps `a`..`z` to `A`..`Z` and leaves other characters alone |
| WeekManager.Upper | scripts/weekManager.js:33 | a string is upper-cased letter by letter |
| WeekManager.UpperFixesUpper | scripts/weekManager.js:33 | a string without lower-case letters is its own upper case |
| WeekManager.UpperIdempotent | scripts/weekManager.js:33 | upper-casing twice is upper-casing once |
| WeekManager.AllFixturesFinished | scripts/weekManager.js:25-37 | the week is finished exactly when the feed answered with a non-empty list whose every status, upper-cased, is one of the seven finished statuses |
| WeekManager.CaseInsensitive | scripts/weekManager.js:33 | the completion check gives the same answer for statuses in any letter case |
| WeekManager.Tick | scripts/weekManager.js:39-58 | a failed gameweek query requests nothing; otherwise the loop makes each row's requests in turn |
| WeekManager.TickIsForward | scripts/weekManager.js:44-53 | a tick only sends live the weeks it read and only closes weeks it read as live whose fixtures have all finished, and it never runs a live week |
| WeekManager.TickStepNeverSkipsLive | scripts/weekManager.js:45-53 | no row is both sent live and closed in one tick, and a row is closed exactly when it is live and its fixtures are finished |
| WeekManager.CompletionChecksDisagree | scripts/weekManager.js:31-33 | the two week drivers disagree: with no fixtures the game manager closes the week and this check does not, and this check alone accepts `ft` and `ENDED` |
| WeekManager.GameManagerDoneImpliesFinished | scripts/weekManager.js:32-33 | a non-empty list the game manager accepts as finished is accepted here too |
| ScoreUpdater.CalculateFantasyPoints | src/pages/ScoreUpdater.js:5-42 | the page's step-by-step formula computes exactly the live scorer's points, rounded to hundredths |
| ScoreUpdater.MapStats | src/pages/ScoreUpdater.js:45-71 | an empty or missing response gives `null`, a first entry without statistics throws, and otherwise exactly six fields are filled from the first statistics entry: `goal`, `shot`, `assist`, `yellow_card` and `red_card` are its goals, shots, assists and cards with `null` read as 0, and `played` is 1 exactly when minutes were recorded |
| ScoreUpdater.MappedPoints | src/pages/ScoreUpdater.js:62-70 | a mapped entry scores 8 per goal, 0.8 per shot, 4 per assist, 2 for playing, -1 per yellow and -4 per red, whatever the position |
| ScoreUpdater.GetFixtureIdForWeek | src/pages/ScoreUpdater.js:76-81 | every week maps to fixture 1035044 |
| ScoreUpdater.PlayerTally | src/pages/ScoreUpdater.js:116-128 | a player without player info adds 0; with info, no stats add 0, malformed stats abort the tally, and mapped stats add `calculateFantasyPoints` for the player's position, on the hundredth grid |
| ScoreUpdater.TeamTallyConcat | src/pages/ScoreUpdater.js:116-128 | a roster's score aborts exactly when one of its parts aborts, and is otherwise the sum of the parts' scores |
| ScoreUpdater.SkippedPlayersAddNothing | src/pages/ScoreUpdater.js:123 | players without player info add nothing to their team's score |
| ScoreUpdater.TeamTally | src/pages/ScoreUpdater.js:116-128 | a roster's score, player by player, aborted once a player's statistics throw |
| ScoreUpdater.TeamScore | src/pages/ScoreUpdater.js:113-128 | the team loop computes the roster's score, or aborts where the mapping throws |
| ScoreUpdater.MatchupUpdate | src/pages/ScoreUpdater.js:103-148 | a matchup is written exactly when both rosters were read and neither team loop throws; the write is for its id, carries the two teams' scores and marks it complete |
| ScoreUpdater.Matchups | src/pages/ScoreUpdater.js:102-149 | the loop over the matchups: each update in turn, stopping at the first throw |
| ScoreUpdater.EveryMatchupCompleted | src/pages/ScoreUpdater.js:102-149 | writes follow the matchups in order, each one once, with both teams' scores and marked complete; a click that does not throw writes every matchup, and one that throws stops at the first matchup whose update throws |
| ScoreUpdater.UpdateScores | src/pages/ScoreUpdater.js:87-152 | a `null` matchups answer means no writes and the "No matchups found" message; otherwise the writes are those of the click, and the success message appears exactly when nothing threw, also for an empty list |
| ScoreUpdater.ScoreMatchup | src/pages/ScoreUpdater.js:104-148 | one iteration's write, or throw, is that of the matchup function |
| ScoreUpdater.ThrowStops | src/pages/ScoreUpdater.js:102-149 | once a matchup throws, no later matchup is written |
| League.CharIndex | src/pages/League.js:12 | a draw from [0, 1) selects the alphabet position `floor(draw * 62)` |
| League.CharIndexOnto | src/pages/League.js:9-12 | every one of the 62 characters is selected by some draw |
| League.GenerateInviteCode | src/pages/League.js:8-15 | the code has the requested length, and each character is the alphabet character its draw selects |
| League.NewLeagueCode | src/pages/League.js:173 | the code league creation stores has the default length of 8 characters, each selected by its draw |
| League.FirstLegStep | src/pages/League.js:61-80 | one more round extends the first leg by that round's matchups |
| League.PushRound | src/pages/League.js:62-76 | the inner loop appends the round's matchups: slot `i` against slot `n-1-i`, skipping the bye |
| League.PlayFirstLeg | src/pages/League.js:55-80 | the round loop produces the first leg and leaves the week counter one past its last round |
| League.GenerateMatchups | src/pages/League.js:17-100 | the guards run in order: failed check, existing schedule, failed team query, fewer than two teams; past them the inserted rows are the whole season |
| League.JoinLeague | src/pages/League.js:192-224 | a join succeeds exactly when the league exists and its team count is known and below 8; a full league is refused |
| League.CreateTeam | src/pages/League.js:226-262 | a team row is inserted exactly when user, league and name are present and the user has no team in the league yet |
| League.TeamsOfAppend | src/pages/League.js:237-241 | inserting a row adds one to the count of its user's teams in its league and changes no other count |
| League.CreateKeepsOneTeamPerUser | src/pages/League.js:237-255 | creating teams through the handler never gives a user two teams in one league |
| Schedule.Padded | src/pages/League.js:51-53 | the team list gets one `null` bye exactly when the team count is odd, which makes the slot count even |
| Schedule.IndexAt | src/pages/League.js:78 | the slot `k` of round `r` holds padded index `1 + ((k - 1 - r) mod (n - 1))` for `k >= 1`, and index 0 stays in slot 0 |
| Schedule.SlotOf | src/pages/League.js:78 | the slot a padded index occupies in round `r` |
| Schedule.IndexAtSlotOf | src/pages/League.js:78 | the slot of an index holds that index |
| Schedule.SlotOfIndexAt | src/pages/League.js:78 | the index in a slot has that slot |
| Schedule.Rotate | src/pages/League.js:78 | `splice(1, 0, pop())` keeps slot 0, moves the last slot to slot 1 and shifts the rest one along |
| Schedule.Rotation | src/pages/League.js:61-80 | the round-`r` arrangement has as many slots as the padded list |
| Schedule.Rounds | src/pages/League.js:61-80 | one entry per round |
| Schedule.ReturnLeg | src/pages/League.js:82-87 | the return leg has one matchup per first-leg matchup |
| Schedule.PairCountAppend | src/pages/League.js:66-74 | the meetings of two teams in two consecutive blocks add up |
| Schedule.HomeCountAppend | src/pages/League.js:66-74 | the home games of a team against another in two consecutive blocks add up |
| Schedule.InWeekAppend | src/pages/League.js:68 | the games of a week in two consecutive blocks are those of the first, then those of the second |
| Schedule.PairCountSplits | src/pages/League.js:85-86 | the meetings of two teams split into the games each of them hosts |
| ScheduleFacts.AppearancesAppend | src/pages/League.js:66-74 | the games of a team in two consecutive blocks add up |
| ScheduleFacts.SlotAppearances | src/pages/League.js:63-65 | a team plays at most once in a slot pair, and only in the pair of its own slot |
| ScheduleFacts.RoundAppearances | src/pages/League.js:62-76 | a team plays at most once in the first slot pairs of a round, and not before its own pair |
| ScheduleFacts.RoundAbsent | src/pages/League.js:62-76 | a team that is not in the arrangement never plays |
| ScheduleFacts.SlotPairCount | src/pages/League.js:63-65 | two teams meet in a slot pair exactly when they fill its two slots |
| ScheduleFacts.RoundPairCount | src/pages/League.js:62-76 | two teams meet in the first slot pairs of a round exactly when their slots mirror each other and that pair is among them |
| ScheduleFacts.RoundWeek | src/pages/League.js:68 | every game of a round is played in that round's week |
| ScheduleFacts.RotateRotation | src/pages/League.js:78 | rotating the round-`r` arrangement gives the closed form of round `r + 1` |
| ScheduleFacts.MeetFixed | src/pages/League.js:61-80 | the fixed team meets padded index `j` in round `n - 1 - j` and no other |
| ScheduleFacts.MeetRoundHalves | src/pages/League.js:61-80 | the meeting round halves `m - ja - jb` modulo the odd `m = n - 1` |
| ScheduleFacts.MirroredWhenHalved | src/pages/League.js:61-80 | two rotating teams sit in mirrored slots exactly in the halving round |
| ScheduleFacts.MeetRotating | src/pages/League.js:61-80 | two rotating teams sit in mirrored slots in exactly one round |
| ScheduleFacts.MeetRoundUnique | src/pages/League.js:61-80 | two distinct padded indices sit in mirrored slots exactly in their meeting round |
| ScheduleFacts.MeetsOnce | src/pages/League.js:61-80 | two distinct padded indices sit in mirrored slots in their meeting round and in no other round |
| ScheduleFacts.RotationUnique | src/pages/League.js:78 | in every round a team sits in exactly one slot |
| ScheduleFacts.RotationAbsent | src/pages/League.js:78 | a team outside the list sits in no slot of any round |
| ScheduleFacts.RotationIsMatching | src/pages/League.js:61-80 | no team plays twice in a round |
| ScheduleFacts.FullRoundPairCount | src/pages/League.js:62-76 | two teams in different slots meet in a full round exactly when their slots mirror each other |
| ScheduleFacts.RotationSlots | src/pages/League.js:61-80 | in every round two distinct teams are seated apart, in mirrored slots exactly in their meeting round |
| ScheduleFacts.RotationPairCountAt | src/pages/League.js:61-80 | two teams meet in round `r` exactly when they sit in mirrored slots |
| ScheduleFacts.RotationWeekAppearances | src/pages/League.js:61-80 | a round plays in its own week only, and no team plays twice in it |
| ScheduleFacts.FlattenPairCount | src/pages/League.js:66 | a pair that meets in one round only meets once in the rounds laid end to end |
| ScheduleFacts.FlattenWeekAppearances | src/pages/League.js:66 | when round `k` plays in week `k + 1` with no team twice, no team plays twice in a week of the leg |
| ScheduleFacts.RoundsPairCount | src/pages/League.js:61-80 | the per-round meeting count, for a round as the leg lists it |
| ScheduleFacts.LegMeetsOnce | src/pages/League.js:61-80 | teams in mirrored slots in exactly one round meet once in the leg |
| ScheduleFacts.LegPairsOnce | src/pages/League.js:61-80 | over the first leg, any two distinct padded teams meet exactly once |
| ScheduleFacts.LegOncePerWeek | src/pages/League.js:61-80 | no team plays twice in a week of the first leg, and no week outside it holds one of its games |
| ScheduleFacts.PaddedDistinct | src/pages/League.js:51-53 | distinct team ids padded with one bye stay distinct |
| ScheduleFacts.FirstLegPairsOnce | src/pages/League.js:17-80 | in the first leg every two distinct teams of the league meet exactly once |
| ScheduleFacts.FirstLegOncePerWeek | src/pages/League.js:17-80 | no team plays twice in a week of the first leg |
| ScheduleFacts.ReturnLegMirrors | src/pages/League.js:82-87 | the return leg hosts each first-leg game the other way round |
| ScheduleFacts.SeasonHostsOnce | src/pages/League.js:17-100 | over the season each team hosts each other team exactly once |
| ScheduleFacts.AppearancesAtMostLength | src/pages/League.js:66-74 | a team takes part in at most as many games as there are |
| ScheduleFacts.ReturnLegWeeks | src/pages/League.js:82-87 | `week++` per return-leg game gives each game a week of its own, counting from the first return week |
| ScheduleFacts.SeasonOncePerWeek | src/pages/League.js:17-100 | over the whole season no team plays twice in one week |
| ScheduleFacts.RoundLength | src/pages/League.js:62-76 | the slot pairs of a round yield one game each, except the pair holding the bye |
| ScheduleFacts.ByeSlot | src/pages/League.js:52-53 | the slot the bye occupies in a round, none for an even team count |
| ScheduleFacts.RotationBye | src/pages/League.js:52-53 | in every round the bye's slot is the only empty slot |
| ScheduleFacts.FlattenLength | src/pages/League.js:66 | rounds of equal size laid end to end hold rounds times size games |
| ScheduleFacts.RoundsLength | src/pages/League.js:62-76 | every round holds half the padded slots in games, one fewer when a bye pads the teams |
| ScheduleFacts.LegSize | src/pages/League.js:55-56 | rounds times games per round is `n(n-1)/2` for `n` teams, odd or even |
| ScheduleFacts.FirstLegLength | src/pages/League.js:58-80 | the first leg holds `n(n-1)/2` games for `n` teams |
| ScheduleFacts.SeasonLength | src/pages/League.js:58-88 | the season holds two legs of `n(n-1)/2` games each |
| ScheduleFacts.RoundPending | src/pages/League.js:66-74 | every game a round pushes is pending with both scores `null` |
| ScheduleFacts.FlattenPending | src/pages/League.js:66 | rounds of pending games laid end to end are pending |
| ScheduleFacts.SeasonPending | src/pages/League.js:66-88 | every row `generateMatchups` inserts starts pending with both scores `null` |
| CurrentMatchup.LowerChar | src/pages/CurrentMatchup.js:9 | lower-casing maps `A`..`Z` to `a`..`z` and leaves other characters alone |
| CurrentMatchup.Lower | src/pages/CurrentMatchup.js:9 | a string is lower-cased letter by letter |
| CurrentMatchup.DropRun | src/pages/CurrentMatchup.js:9 | dropping a leading run of non-slug characters leaves a suffix that starts with a slug character |
| CurrentMatchup.Collapse | src/pages/CurrentMatchup.js:9 | the replacement keeps the input's `[a-z0-9]` characters in order and adds only dashes, never two in a row; it keeps a leading slug character, and is empty exactly when its input is |
| CurrentMatchup.CollapseDashes | src/pages/CurrentMatchup.js:9 | the replacement holds a dash exactly when its input holds a character outside `[a-z0-9]` |
| CurrentMatchup.Slug | src/pages/CurrentMatchup.js:9 | `club.toLowerCase().replace(/[^a-z0-9]+/g, '-')` |
| CurrentMatchup.CollapseFixes | src/pages/CurrentMatchup.js:9 | a string already in slug form is left as it is |
| CurrentMatchup.SlugIdempotent | src/pages/CurrentMatchup.js:9 | slugging a slug changes nothing |
| CurrentMatchup.CrestSrc | src/pages/CurrentMatchup.js:8-9 | a missing or empty club has no crest; otherwise the crest is `/crests/<slug>.png` |
| CurrentMatchup.CrestShape | src/pages/CurrentMatchup.js:8-9 | the crest path holds only slug characters and single dashes between its fixed parts |
| CurrentMatchup.PosIndex | src/pages/CurrentMatchup.js:5 | `POS_ORDER.indexOf` finds a position's place, and gives -1 exactly for a position outside the list |
| CurrentMatchup.BeforeTransitive | src/pages/CurrentMatchup.js:29-33 | the comparator's order is transitive |
| CurrentMatchup.ConsOrdered | src/pages/CurrentMatchup.js:29-33 | a player that may precede all of an ordered list may head it |
| CurrentMatchup.BoundHoldsAfterInsert | src/pages/CurrentMatchup.js:29-33 | a player that may precede a list and a newcomer may precede any rearrangement of both |
| CurrentMatchup.BeforeHeadBeforeAll | src/pages/CurrentMatchup.js:29-33 | a player strictly before the head of an ordered list comes before all of it |
| CurrentMatchup.Insert | src/pages/CurrentMatchup.js:29-33 | inserting into an ordered list gives an ordered list of the same players plus the new one |
| CurrentMatchup.Sort | src/pages/CurrentMatchup.js:29-33 | the sort orders by position index, then by name key, and is a permutation |
| CurrentMatchup.OrderPlayers | src/pages/CurrentMatchup.js:26-33 | the ordered list is sorted by the comparator and holds exactly the given players (none for `null`) |
| CurrentMatchup.UnknownPositionsFirst | src/pages/CurrentMatchup.js:30-32 | players whose position is not in `POS_ORDER` come before every listed position |
| CurrentMatchup.Group | src/pages/CurrentMatchup.js:38 | a group holds exactly the players of its position |
| CurrentMatchup.PosRows | src/pages/CurrentMatchup.js:46-52 | a position contributes as many rows as its longer side has players |
| CurrentMatchup.PairByPosition | src/pages/CurrentMatchup.js:35-55 | the nested loops build the rows of every position in `POS_ORDER`, in order |
| CurrentMatchup.SomesPadded | src/pages/CurrentMatchup.js:49-50 | a column of a side's players padded with `null` lists exactly those players |
| CurrentMatchup.PosRowsColumns | src/pages/CurrentMatchup.js:46-52 | each column of a position's rows lists that side's players of the position, in order |
| CurrentMatchup.PairingKeepsSides | src/pages/CurrentMatchup.js:35-55 | the left column lists the left players grouped by position, and the right column the right players, nothing lost or duplicated |
| CurrentMatchup.ByPositionMembers | src/pages/CurrentMatchup.js:36-40 | a player is shown exactly when their position is in `POS_ORDER` |
| CurrentMatchup.MyTotal | src/pages/CurrentMatchup.js:171-175 | the team's total is its own side's score, a missing one reading as 0, and 0 without a matchup |
| CurrentMatchup.OppTotal | src/pages/CurrentMatchup.js:176-179 | the opponent's total is the other side's score, 0 when missing or without a matchup |
| CurrentMatchup.SidesAgree | src/pages/CurrentMatchup.js:171-179 | each side's total is the other side's opponent total |
| CurrentMatchup.LeftLeads | src/pages/CurrentMatchup.js:181 | the left side is shown leading exactly when it is not behind |
| CurrentMatchup.TieLeadsBothWays | src/pages/CurrentMatchup.js:181 | on a tie both teams' pages show their own side leading |
| CurrentMatchup.CellPoints | src/pages/CurrentMatchup.js:232-233 | an empty side has no points, a player without a live-points entry shows 0, and the others show their entry |
| DraftCenter.CountClubPositive | src/pages/DraftCenter.js:59-62 | a club has a positive count exactly when a squad player plays for it |
| DraftCenter.CountClub | src/pages/DraftCenter.js:79 | how many squad players play for a club, at most the squad size |
| DraftCenter.ClubCounts | src/pages/DraftCenter.js:59-62 | the loop counts each club's players, and every listed club has a positive count |
| DraftCenter.Ids | src/pages/DraftCenter.js:56 | the squad's ids, position by position |
| DraftCenter.AvailablePlayers | src/pages/DraftCenter.js:65-69 | a player is offered exactly when they are not in the squad and the squad holds fewer than two of their club |
| DraftCenter.AddGuard | src/pages/DraftCenter.js:72-83 | a full squad is refused first, then a third player of one club; otherwise the insert goes ahead |
| DraftCenter.AddKeepsLimits | src/pages/DraftCenter.js:72-90 | a squad within the size and per-club limits stays within them after an add the guards allow |
| DraftCenter.Without | src/pages/DraftCenter.js:95-99 | the delete removes exactly the rows of this player in this team |
| DraftCenter.DropKeepsOtherTeams | src/pages/DraftCenter.js:93-102 | dropping a player leaves every other team's rows unchanged |
| DraftCenter.Rows | src/pages/DraftCenter.js:42-45 | a team's rows, in order |
| DraftCenter.TeamPlayers.constructor | src/pages/DraftCenter.js:42-45 | the table starts with the given rows |
| DraftCenter.TeamPlayers.AddPlayer | src/pages/DraftCenter.js:72-90 | a refused add reports the guard's message and writes nothing; a failed insert reports the error; otherwise one row for the team and player is appended |
| DraftCenter.TeamPlayers.DropPlayer | src/pages/DraftCenter.js:93-102 | a successful delete removes the (team, player) rows, and a failed one changes nothing |
| LiveDraft.PositionLimit | src/pages/LiveDraft.js:5 | only GK, DEF, MID, FW and FLEX have limits, each at least 1 |
| LiveDraft.CountByPosition | src/pages/LiveDraft.js:60-66 | the reduce counts each position's players, and lists exactly the positions present |
| LiveDraft.CountPos | src/pages/LiveDraft.js:60-66 | how many players play a position, at most the squad size |
| LiveDraft.OccursOnce | src/pages/LiveDraft.js:60-66 | a position occurs once in a list without repeats when it is listed, else not at all |
| LiveDraft.SumCountsStep | src/pages/LiveDraft.js:60-66 | one more player adds one to the count of their position |
| LiveDraft.CountsSumToSize | src/pages/LiveDraft.js:60-66 | over a list naming each position once, the counts add up to the squad size |
| LiveDraft.ZeroCounts | src/pages/LiveDraft.js:60-66 | an empty squad counts nothing |
| LiveDraft.ValidatePick | src/pages/LiveDraft.js:68-77 | the checks run in order: a taken player, a full team, then a position at its limit; the message names the limit and the position |
| LiveDraft.UnlimitedPositions | src/pages/LiveDraft.js:73 | a position without a limit never stops a pick into a team with room |
| LiveDraft.DraftBoard.constructor | src/pages/LiveDraft.js:11-12 | the board starts with the taken ids and an empty squad, which is valid |
| LiveDraft.DraftBoard.HandlePick | src/pages/LiveDraft.js:79-95 | a refused pick shows the validator's message and a failed insert shows a failure, both changing nothing; a successful pick appends the player to both lists and keeps the squad within its limits |
| LiveDraft.AvailableExcludesTaken | src/pages/LiveDraft.js:97 | a player is offered exactly when not taken |
| Matchups.FirstPending | src/pages/Matchups.js:45 | `findIndex` finds the first pending matchup, and gives -1 exactly when none is pending |
| Matchups.InitialIndex | src/pages/Matchups.js:43-47 | the first matchup shown is the first pending one, else the last one, else index 0 |
| Matchups.ScoreDisplay | src/pages/Matchups.js:102 | a missing score shows a dash, and a present one shows its value |
| Matchups.MyScore | src/pages/Matchups.js:93 | the team's own score: team 1's when it is at home, team 2's otherwise |
| Matchups.OppScore | src/pages/Matchups.js:94 | the other side's score |
| Matchups.StatusLabel | src/pages/Matchups.js:107 | the label is "Upcoming" exactly for a pending matchup, and "Completed" otherwise |
| Matchups.ScoresBySide | src/pages/Matchups.js:90-94 | the opponent's score is the opponent's own score, and the scores agree with the current-matchup page once a missing score reads as 0 |
| Matchups.Navigator.constructor | src/pages/Matchups.js:5-7 | the page starts with no matchups and index 0 |
| Matchups.Navigator.Load | src/pages/Matchups.js:26-49 | without a team the list is emptied; otherwise it holds the query's rows and the index is the initial one |
| Matchups.Navigator.Previous | src/pages/Matchups.js:111 | Previous moves one back and never below 0, keeping the index in range |
| Matchups.Navigator.Next | src/pages/Matchups.js:117 | Next moves one forward and never past the last matchup, keeping the index in range |
| BundesligaTest.PlayerIdsOf | src/pages/BundesligaTest.js:43-51 | an id is listed exactly when a roster row of a listed team has it |
| BundesligaTest.DraftedIds | src/pages/BundesligaTest.js:14-57 | a failed players query keeps the ids shown before; otherwise a failed or empty team query, or a failed drafted query, gives no ids, and else the ids are those drafted by the league's teams |
| BundesligaTest.OtherLeaguesIgnored | src/pages/BundesligaTest.js:43-46 | rows of teams outside the league never mark a player as drafted |
| BundesligaTest.LeagueDraft.constructor | src/pages/BundesligaTest.js:7-8 | the page starts with the given rows and the toggle off |
| BundesligaTest.LeagueDraft.HandleDraftPick | src/pages/BundesligaTest.js:59-94 | the checks run in order: no team, already drafted, failed insert, each changing nothing; a successful pick appends one row and flips the refetch toggle |
| BundesligaTest.PickedPlayerLeavesPool | src/pages/BundesligaTest.js:83-97 | after a successful pick and the refetch, the player is drafted and no longer offered |

## Left out

- The store, the feeds and the RPCs (`go_live`, `close_week`) are not executed. Their answers are parameters, and the writes are returned as effects or kept in class fields.
- Numbers are exact reals rather than IEEE doubles, so floating-point error in sums such as `0.1 + 0.2` is not modelled.
- The scripts' timers (`setInterval`), `async` interleavings, realtime channels and React rendering are not modelled. `isRunning` is the only concurrency state, and it is modelled as a flag.
- `Math.random()` is a sequence of draws from [0, 1).
- `new Date()` is an integer clock, given per row in `manageWeeks` and once per tick in `tick`.
- `toLowerCase`, `toUpperCase` and the slug pattern cover ASCII letters only. Non-ASCII case mapping is not modelled.
- CurrentMatchup.OrderPlayers: `localeCompare` on names is a caller-supplied integer key. Ties between equal keys are not ordered further, and sort stability is not stated.
- Ids are integers, and JavaScript's falsiness of the id 0 is not modelled. The generator's `team1 && team2` is read as "not the bye", and `!info?.api_id` is modelled only through `HasApiId`.
- Rows inserted into `team_players` carry `week: null` and `locked: false`, as the table's column defaults are assumed to be.
- GameManager.ManageWeeks returns a `RunLiveWeek` request where the source calls `lockStartedPlayers` and `updateScores`. Those two are modelled as separate members.
- Gameweek statuses other than `upcoming`, `live` and `complete` are not modelled.
- The `goals`, `shots`, `games` and `cards` groups of an API-Football statistics entry are assumed present. Only the missing first `statistics` entry is modelled as a throw.
- Thrown errors in `scoreLoop` other than the modelled failures are not modelled (for example a failing update or upsert).
- GameManager.ManageWeeks: the gameweeks are a sequence, so the `null` answer on which the source's `for…of` throws is not modelled.
- GameManager.ManageWeeks: the fixtures feed `fixturesOf` cannot fail. In the source, `getFixtures` has no `catch`, so a failed fetch or `res.json()` throws out of `lockStartedPlayers`, `updateScores` or the completion check. That throw ends the whole pass: the week gets no `close_week` and no later row is processed. The model instead makes every live row's `RunLiveWeek` and, when due, `CloseWeek` request, and goes on to the later rows.
- GameManager.LockStartedPlayers: a `null` players answer, on which `players.filter` throws, is a `None` that leaves the rows unchanged. In the source that throw also ends the rest of the `manageWeeks` pass, which the model does not capture.
- GameManager.UpdateScores: a `null` matchups answer, which throws in the source, is not modelled. The matchups are a sequence.
- The rendering of event icons, loading states and messages other than the modelled outcomes is not modelled.
- The draft start and the realtime draft order are not modelled. They are store writes without logic of their own.
- Tables.Upsert: the upserts in `scoreLoop` and `updateLivePoints` name no conflict target, so their conflict key is taken to be (team, player, week), the unique constraint the table is assumed to have. That constraint is not part of this model.
- GameManager.LockRows: the update's `in`/`eq` filter is applied to the roster rows passed in, so rows the store might hold elsewhere are not modelled.
