/**
  The live scorer (scripts/liveScorer.js): the fantasy-point formula, the per-week
  cache of fixture ids, the per-team aggregation and the single-flight scoring pass
  that writes matchup scores and upserts per-player live points.

  The fixture feed, the per-player statistics feed and the roster query are
  parameters: `fetchFixtures(week)` is what the fixture list request for a week
  answered, `feed(apiId, fixtureId)` what the statistics request answered and
  `rosterOf(teamId)` the team's roster query result (`None` on a query error).
*/
module LiveScorer {
  import opened Common
  import opened JsMath
  import opened Stats
  import opened Tables

  const Goalkeeper: string := "Goalkeeper"

  // ---------------------------------------------------------------------------
  // The formula

  /**
    The weight of one counted statistic, for a goalkeeper or an outfield player.
    The two flags (`played`, `no_goal_conceded`) are bonuses, not weights.
  */
  function Weight(f: StatField, keeper: bool): real {
    match f
    case Goal => 8.0
    case Shot => 0.8
    case Assist => 4.0
    case PassLeadingToShot => 0.4
    case MileageKm => if keeper then 0.4 else 0.2
    case SuccessfulPass => 0.125
    case MissedPass => -0.2
    case FoulHandball => -0.5
    case WasFouled => 0.75
    case Offside => -0.75
    case PenaltyWon => 4.0
    case PenaltyMissed => -4.0
    case OwnGoal => -4.0
    case FoulLeadingToPenalty => -4.0
    case YellowCard => -1.0
    case SecondYellow => -2.0
    case RedCard => -4.0
    case GoalConceded => if keeper then -1.0 else -0.5
    case PenaltySaved => if keeper then 10.0 else 0.0
    case ShotSaved => if keeper then 2.5 else 0.0
    case Interception => 1.0
    case DuelWon => 0.8
    case DuelLost => -0.5
    case DribbledPast => 1.0
    case Played => 0.0
    case NoGoalConceded => 0.0
    case CleanSheet => 0.0
  }

  /** The unrounded points of `calculateFantasyPoints`, term by term as the source adds them. */
  function RawPoints(s: Stats, position: string): real {
    var keeper := position == Goalkeeper;
    Stat(s, Goal) * 8.0
    + Stat(s, Shot) * 0.8
    + Stat(s, Assist) * 4.0
    + Stat(s, PassLeadingToShot) * 0.4
    + Stat(s, MileageKm) * (if keeper then 0.4 else 0.2)
    + Stat(s, SuccessfulPass) * 0.125
    + Stat(s, MissedPass) * -0.2
    + Stat(s, FoulHandball) * -0.5
    + Stat(s, WasFouled) * 0.75
    + Stat(s, Offside) * -0.75
    + Stat(s, PenaltyWon) * 4.0
    + Stat(s, PenaltyMissed) * -4.0
    + Stat(s, OwnGoal) * -4.0
    + Stat(s, FoulLeadingToPenalty) * -4.0
    + (if Truthy(s, Played) then 2.0 else 0.0)
    + Stat(s, YellowCard) * -1.0
    + Stat(s, SecondYellow) * -2.0
    + Stat(s, RedCard) * -4.0
    + (if keeper then
         Stat(s, GoalConceded) * -1.0
         + Stat(s, PenaltySaved) * 10.0
         + Stat(s, ShotSaved) * 2.5
         + (if Truthy(s, NoGoalConceded) then 5.0 else 0.0)
       else
         Stat(s, GoalConceded) * -0.5)
    + Stat(s, Interception) * 1.0
    + Stat(s, DuelWon) * 0.8
    + Stat(s, DuelLost) * -0.5
    + Stat(s, DribbledPast) * 1.0
  }

  /** `calculateFantasyPoints(stats, position)`: the raw points to the nearest hundredth, ties upward. */
  function CalculateFantasyPoints(s: Stats, position: string): (r: real)
    ensures OnGrid(r, 100)
    ensures RawPoints(s, position) * 100.0 - 0.5 < r * 100.0 <= RawPoints(s, position) * 100.0 + 0.5
  {
    RoundTo(RawPoints(s, position), 100)
  }

  /**
    The points of a statistics object holding one counted field: that field's
    weight times its value.
  */
  lemma SingleStatPoints(f: StatField, v: real, position: string)
    requires f != Played && f != NoGoalConceded
    ensures RawPoints(map[f := v], position) == Weight(f, position == Goalkeeper) * v
  {
    if f.Goal? || f.Shot? || f.Assist? || f.PassLeadingToShot? || f.MileageKm? || f.SuccessfulPass? || f.MissedPass? {
      ScoringStatPoints(f, v, position);
    } else if f.FoulHandball? || f.WasFouled? || f.Offside? || f.PenaltyWon? || f.PenaltyMissed? || f.OwnGoal? || f.FoulLeadingToPenalty? {
      DisciplineStatPoints(f, v, position);
    } else if f.YellowCard? || f.SecondYellow? || f.RedCard? || f.GoalConceded? || f.PenaltySaved? || f.ShotSaved? {
      DefendingStatPoints(f, v, position);
    } else {
      DuelStatPoints(f, v, position);
    }
  }

  /** `SingleStatPoints` for the attacking fields. */
  lemma ScoringStatPoints(f: StatField, v: real, position: string)
    requires f.Goal? || f.Shot? || f.Assist? || f.PassLeadingToShot? || f.MileageKm? || f.SuccessfulPass? || f.MissedPass?
    ensures RawPoints(map[f := v], position) == Weight(f, position == Goalkeeper) * v
  {
    match f
    case Goal =>
    case Shot =>
    case Assist =>
    case PassLeadingToShot =>
    case MileageKm =>
    case SuccessfulPass =>
    case MissedPass =>
  }

  /** `SingleStatPoints` for the foul and card fields. */
  lemma DisciplineStatPoints(f: StatField, v: real, position: string)
    requires f.FoulHandball? || f.WasFouled? || f.Offside? || f.PenaltyWon? || f.PenaltyMissed? || f.OwnGoal? || f.FoulLeadingToPenalty?
    ensures RawPoints(map[f := v], position) == Weight(f, position == Goalkeeper) * v
  {
    match f
    case FoulHandball =>
    case WasFouled =>
    case Offside =>
    case PenaltyWon =>
    case PenaltyMissed =>
    case OwnGoal =>
    case FoulLeadingToPenalty =>
  }

  /** `SingleStatPoints` for the defending fields. */
  lemma DefendingStatPoints(f: StatField, v: real, position: string)
    requires f.YellowCard? || f.SecondYellow? || f.RedCard? || f.GoalConceded? || f.PenaltySaved? || f.ShotSaved?
    ensures RawPoints(map[f := v], position) == Weight(f, position == Goalkeeper) * v
  {
    match f
    case YellowCard =>
    case SecondYellow =>
    case RedCard =>
    case GoalConceded =>
    case PenaltySaved =>
    case ShotSaved =>
  }

  /** `SingleStatPoints` for the duel fields and the unweighted clean sheet. */
  lemma DuelStatPoints(f: StatField, v: real, position: string)
    requires f.Interception? || f.DuelWon? || f.DuelLost? || f.DribbledPast? || f.CleanSheet?
    ensures RawPoints(map[f := v], position) == Weight(f, position == Goalkeeper) * v
  {
    match f
    case Interception =>
    case DuelWon =>
    case DuelLost =>
    case DribbledPast =>
    case CleanSheet =>
  }

  /** Statistics that agree on every field and flag score the same. */
  lemma SameStatsSamePoints(s: Stats, t: Stats, position: string)
    requires forall g :: Stat(s, g) == Stat(t, g)
    requires Truthy(s, Played) == Truthy(t, Played) && Truthy(s, NoGoalConceded) == Truthy(t, NoGoalConceded)
    ensures RawPoints(s, position) == RawPoints(t, position)
  {
  }

  /** An absent field counts exactly as a zero. */
  lemma AbsentCountsZero(s: Stats, position: string, f: StatField)
    ensures RawPoints(s - {f}, position) == RawPoints(s[f := 0.0], position)
  {
    assert forall g :: Stat(s - {f}, g) == Stat(s[f := 0.0], g);
    SameStatsSamePoints(s - {f}, s[f := 0.0], position);
  }

  /** `played` adds exactly 2 when it is set and nothing otherwise. */
  lemma PlayedAddsTwo(s: Stats, position: string, v: real)
    ensures RawPoints(s[Played := v], position) == RawPoints(s - {Played}, position) + (if v != 0.0 then 2.0 else 0.0)
  {
  }

  /** `no_goal_conceded` adds 5 for a goalkeeper who has it set, and nothing for anyone else. */
  lemma CleanSheetBonus(s: Stats, position: string, v: real)
    ensures RawPoints(s[NoGoalConceded := v], position)
      == RawPoints(s - {NoGoalConceded}, position) + (if position == Goalkeeper && v != 0.0 then 5.0 else 0.0)
  {
  }

  /**
    The position matters only as goalkeeper or not: a goalkeeper gets 0.2 more per
    kilometre, loses 0.5 more per goal conceded, and alone scores saved penalties,
    saved shots and the clean-sheet bonus.
  */
  lemma KeeperDifference(s: Stats, other: string)
    requires other != Goalkeeper
    ensures RawPoints(s, Goalkeeper) - RawPoints(s, other)
      == Stat(s, MileageKm) * 0.2 - Stat(s, GoalConceded) * 0.5 + Stat(s, PenaltySaved) * 10.0
         + Stat(s, ShotSaved) * 2.5 + (if Truthy(s, NoGoalConceded) then 5.0 else 0.0)
  {
  }

  /** An empty statistics object scores nothing. */
  lemma NoStatsNoPoints(position: string)
    ensures CalculateFantasyPoints(map[], position) == 0.0
  {
    RoundToUnique(0.0, 100, 0.0);
  }

  // ---------------------------------------------------------------------------
  // Per-team aggregation

  /** What the statistics request for one player and fixture answered. */
  datatype StatsPayload = StatsFetchFailed | StatsBody(data: Option<Stats>)

  /** `fetchStatsForFixture`: the fixture's points, 0 when the request failed or carried no data. */
  function FixturePoints(payload: StatsPayload, position: string): (r: real)
    ensures OnGrid(r, 100)
    ensures payload.StatsFetchFailed? || payload.data.None? ==> r == 0.0
    ensures payload.StatsBody? && payload.data.Some? ==> r == CalculateFantasyPoints(payload.data.value, position)
  {
    match payload
    case StatsFetchFailed => 0.0
    case StatsBody(data) =>
      if data.None? then 0.0 else CalculateFantasyPoints(data.value, position)
  }

  /** The `bundesliga_players` part of a roster row. */
  datatype ApiPlayer = ApiPlayer(apiId: Option<int>, position: string)

  /** A roster row of the scorer's `team_players` query. */
  datatype RosterRow = RosterRow(playerId: int, info: Option<ApiPlayer>)

  /** `info?.api_id` is truthy: the row has player info with a non-null, non-zero API id. */
  predicate HasApiId(row: RosterRow) {
    row.info.Some? && row.info.value.apiId.Some? && row.info.value.apiId.value != 0
  }

  /** One `perPlayer` entry. */
  datatype PlayerScore = PlayerScore(playerId: int, points: real)

  /** The player's points summed over fixtures `ids`. */
  function FixturesSum(apiId: int, position: string, ids: seq<int>, feed: (int, int) -> StatsPayload): real {
    if ids == [] then 0.0
    else FixturesSum(apiId, position, ids[..|ids| - 1], feed) + FixturePoints(feed(apiId, ids[|ids| - 1]), position)
  }

  /** The points of one roster row: 0 without an API id, else its fixtures' sum to two decimals. */
  function PlayerPoints(row: RosterRow, ids: seq<int>, feed: (int, int) -> StatsPayload): (r: real)
    ensures OnGrid(r, 100)
    ensures !HasApiId(row) ==> r == 0.0
    ensures HasApiId(row) ==>
              var sum := FixturesSum(row.info.value.apiId.value, row.info.value.position, ids, feed);
              sum * 100.0 - 0.5 < r * 100.0 <= sum * 100.0 + 0.5
  {
    if !HasApiId(row) then 0.0
    else RoundTo(FixturesSum(row.info.value.apiId.value, row.info.value.position, ids, feed), 100)
  }

  /** `perPlayer`: one entry per roster row, in roster order; none when the query failed. */
  function PerPlayer(rows: Option<seq<RosterRow>>, ids: seq<int>, feed: (int, int) -> StatsPayload): (ps: seq<PlayerScore>)
    ensures rows.None? ==> ps == []
    ensures rows.Some? ==> |ps| == |rows.value|
    ensures rows.Some? ==> forall i :: 0 <= i < |ps| ==>
              ps[i].playerId == rows.value[i].playerId && ps[i].points == PlayerPoints(rows.value[i], ids, feed)
  {
    if rows.None? then []
    else seq(|rows.value|, i requires 0 <= i < |rows.value| =>
               PlayerScore(rows.value[i].playerId, PlayerPoints(rows.value[i], ids, feed)))
  }

  /** `perPlayer.reduce((a, b) => a + (b.points || 0), 0)`. */
  function SumPoints(ps: seq<PlayerScore>): real {
    if ps == [] then 0.0 else SumPoints(ps[..|ps| - 1]) + ps[|ps| - 1].points
  }

  /** A total of rounded points is itself on the hundredth grid. */
  lemma {:induction false} SumOnGrid(ps: seq<PlayerScore>)
    requires forall i :: 0 <= i < |ps| ==> OnGrid(ps[i].points, 100)
    ensures OnGrid(SumPoints(ps), 100)
  {
    if ps != [] {
      SumOnGrid(ps[..|ps| - 1]);
      OnGridAdd(SumPoints(ps[..|ps| - 1]), ps[|ps| - 1].points, 100);
    } else {
      assert SumPoints(ps) * 100.0 == 0.0;
    }
  }

  /** The team total of the scorer is on the hundredth grid. */
  lemma TeamTotalOnGrid(rows: Option<seq<RosterRow>>, ids: seq<int>, feed: (int, int) -> StatsPayload)
    ensures OnGrid(SumPoints(PerPlayer(rows, ids, feed)), 100)
  {
    var ps := PerPlayer(rows, ids, feed);
    assert forall i :: 0 <= i < |ps| ==> OnGrid(ps[i].points, 100);
    SumOnGrid(ps);
  }

  /**
    `scoreTeamForWeek(teamId, week, fixtureIds)` with the roster query result `rows`:
    one entry per roster row, and the total their sum; nothing on a query error or
    an empty roster.
  */
  method ScoreTeamForWeek(rows: Option<seq<RosterRow>>, fixtureIds: seq<int>, feed: (int, int) -> StatsPayload)
    returns (total: real, perPlayer: seq<PlayerScore>)
    ensures perPlayer == PerPlayer(rows, fixtureIds, feed)
    ensures total == SumPoints(perPlayer)
    ensures rows.None? || rows.value == [] ==> total == 0.0 && perPlayer == []
  {
    if rows.None? || |rows.value| == 0 {
      return 0.0, [];
    }
    var roster := rows.value;
    perPlayer := [];
    var k := 0;
    while k < |roster|
      invariant 0 <= k <= |roster|
      invariant perPlayer == PerPlayer(Some(roster[..k]), fixtureIds, feed)
    {
      var r := roster[k];
      if !HasApiId(r) {
        perPlayer := perPlayer + [PlayerScore(r.playerId, 0.0)];
      } else {
        var info := r.info.value;
        var sum := 0.0;
        var j := 0;
        while j < |fixtureIds|
          invariant 0 <= j <= |fixtureIds|
          invariant sum == FixturesSum(info.apiId.value, info.position, fixtureIds[..j], feed)
        {
          assert fixtureIds[..j + 1][..j] == fixtureIds[..j];
          sum := sum + FixturePoints(feed(info.apiId.value, fixtureIds[j]), info.position);
          j := j + 1;
        }
        assert fixtureIds[..j] == fixtureIds;
        perPlayer := perPlayer + [PlayerScore(r.playerId, RoundTo(sum, 100))];
      }
      k := k + 1;
    }
    assert roster[..k] == roster;
    total := SumPoints(perPlayer);
  }

  // ---------------------------------------------------------------------------
  // The scoring pass

  /** What the fixture list request for a week answered. */
  datatype FixtureResponse = FixturesFetchFailed | FixturesBody(data: Option<seq<int>>)

  /** The ids `getFixtureIdsForWeek(week)` returns with cache `cache`. */
  function LookupIds(cache: map<int, seq<int>>, week: int, response: FixtureResponse): seq<int> {
    if week in cache then cache[week]
    else if response.FixturesFetchFailed? then []
    else response.data.GetOr([])
  }

  /** The cache after `getFixtureIdsForWeek(week)`: a fetched answer is stored, a failure is not. */
  function CacheAfter(cache: map<int, seq<int>>, week: int, response: FixtureResponse): map<int, seq<int>> {
    if week in cache || response.FixturesFetchFailed? then cache
    else cache[week := response.data.GetOr([])]
  }

  /**
    A cached week is never refetched: whatever later requests answer, lookups of
    that week keep returning the first stored ids, and the entry never changes.
  */
  lemma CacheIsSticky(cache: map<int, seq<int>>, week: int, other: int, response: FixtureResponse, later: FixtureResponse)
    requires week in cache
    ensures week in CacheAfter(cache, other, response)
    ensures CacheAfter(cache, other, response)[week] == cache[week]
    ensures LookupIds(CacheAfter(cache, other, response), week, later) == cache[week]
  {
  }

  /** A successful fetch is cached, even an empty or missing list; a failure leaves the week unset. */
  lemma FetchIsCached(cache: map<int, seq<int>>, week: int, response: FixtureResponse)
    requires week !in cache
    ensures week in CacheAfter(cache, week, response) <==> response.FixturesBody?
    ensures response.FixturesBody? ==> CacheAfter(cache, week, response)[week] == LookupIds(cache, week, response)
  {
  }

  /** One write of the scoring pass. */
  datatype Effect =
    | ScoreWrite(matchupId: int, team1Score: real, team2Score: real)  // one update of both scores
    | PointsUpsert(rows: seq<LivePointsRow>)                          // one batch upsert

  /** The `player_live_points` rows upserted for a team's `perPlayer` entries. */
  function LiveRows(teamId: int, week: int, ps: seq<PlayerScore>): (rows: seq<LivePointsRow>)
    ensures |rows| == |ps|
    ensures forall i :: 0 <= i < |ps| ==>
              rows[i].key == LiveKey(teamId, ps[i].playerId, week) && rows[i].points == Some(ps[i].points)
  {
    seq(|ps|, i requires 0 <= i < |ps| => LivePointsRow(LiveKey(teamId, ps[i].playerId, week), Some(ps[i].points)))
  }

  /** The upserted rows add up to the team total written to the matchup. */
  lemma {:induction false} LiveRowsSum(teamId: int, week: int, ps: seq<PlayerScore>)
    ensures PointsSum(LiveRows(teamId, week, ps)) == SumPoints(ps)
  {
    if ps != [] {
      var n := |ps| - 1;
      assert LiveRows(teamId, week, ps)[..n] == LiveRows(teamId, week, ps[..n]);
      LiveRowsSum(teamId, week, ps[..n]);
    }
  }

  /** The writes for one matchup: the paired score update, then each non-empty upsert. */
  function MatchEffects(m: MatchupRow, ids: seq<int>, rosterOf: int -> Option<seq<RosterRow>>, feed: (int, int) -> StatsPayload): seq<Effect> {
    var p1 := PerPlayer(rosterOf(m.team1Id), ids, feed);
    var p2 := PerPlayer(rosterOf(m.team2Id), ids, feed);
    [ScoreWrite(m.id, SumPoints(p1), SumPoints(p2))]
      + (if |p1| > 0 then [PointsUpsert(LiveRows(m.team1Id, m.week, p1))] else [])
      + (if |p2| > 0 then [PointsUpsert(LiveRows(m.team2Id, m.week, p2))] else [])
  }

  /**
    Each matchup gets exactly one score write, and each written score is the sum of
    the live points upserted for that team in the same pass (0 when none are).
  */
  lemma MatchWriteAgreesWithUpserts(m: MatchupRow, ids: seq<int>, rosterOf: int -> Option<seq<RosterRow>>, feed: (int, int) -> StatsPayload)
    ensures var e := MatchEffects(m, ids, rosterOf, feed);
      && e[0].ScoreWrite? && e[0].matchupId == m.id
      && (forall k :: 1 <= k < |e| ==> e[k].PointsUpsert?)
      && e[0].team1Score == PointsSum(LiveRows(m.team1Id, m.week, PerPlayer(rosterOf(m.team1Id), ids, feed)))
      && e[0].team2Score == PointsSum(LiveRows(m.team2Id, m.week, PerPlayer(rosterOf(m.team2Id), ids, feed)))
  {
    LiveRowsSum(m.team1Id, m.week, PerPlayer(rosterOf(m.team1Id), ids, feed));
    LiveRowsSum(m.team2Id, m.week, PerPlayer(rosterOf(m.team2Id), ids, feed));
  }

  /** The writes of a pass so far and the fixture cache it leaves. */
  datatype Pass = Pass(effects: seq<Effect>, cache: map<int, seq<int>>)

  /** The pass over matchups `ms`, starting from cache `cache`. */
  function RunMatchups(ms: seq<MatchupRow>, cache: map<int, seq<int>>, fetchFixtures: int -> FixtureResponse,
                       rosterOf: int -> Option<seq<RosterRow>>, feed: (int, int) -> StatsPayload): Pass
  {
    if ms == [] then Pass([], cache)
    else
      var before := RunMatchups(ms[..|ms| - 1], cache, fetchFixtures, rosterOf, feed);
      var m := ms[|ms| - 1];
      var ids := LookupIds(before.cache, m.week, fetchFixtures(m.week));
      Pass(before.effects + MatchEffects(m, ids, rosterOf, feed), CacheAfter(before.cache, m.week, fetchFixtures(m.week)))
  }

  /** One more matchup extends the pass by its writes and its cache step. */
  lemma RunMatchupsStep(ms: seq<MatchupRow>, i: int, cache: map<int, seq<int>>, fetchFixtures: int -> FixtureResponse,
                        rosterOf: int -> Option<seq<RosterRow>>, feed: (int, int) -> StatsPayload)
    requires 0 <= i < |ms|
    ensures var before := RunMatchups(ms[..i], cache, fetchFixtures, rosterOf, feed);
            var ids := LookupIds(before.cache, ms[i].week, fetchFixtures(ms[i].week));
            RunMatchups(ms[..i + 1], cache, fetchFixtures, rosterOf, feed)
              == Pass(before.effects + MatchEffects(ms[i], ids, rosterOf, feed), CacheAfter(before.cache, ms[i].week, fetchFixtures(ms[i].week)))
  {
    assert ms[..i + 1][..i] == ms[..i];
  }

  /** The matchup ids of the score writes among `es`, in order. */
  function WrittenIds(es: seq<Effect>): seq<int> {
    if es == [] then []
    else WrittenIds(es[..|es| - 1]) + (if es[|es| - 1].ScoreWrite? then [es[|es| - 1].matchupId] else [])
  }

  lemma {:induction false} WrittenIdsAppend(a: seq<Effect>, b: seq<Effect>)
    ensures WrittenIds(a + b) == WrittenIds(a) + WrittenIds(b)
  {
    if b != [] {
      var n := |b| - 1;
      assert (a + b)[..|a| + n] == a + b[..n];
      WrittenIdsAppend(a, b[..n]);
    } else {
      assert a + b == a;
    }
  }

  /** The ids of `ms`, in order. */
  function MatchupIds(ms: seq<MatchupRow>): seq<int> {
    seq(|ms|, i requires 0 <= i < |ms| => ms[i].id)
  }

  /** The writes for one matchup hold one score write, for that matchup. */
  lemma MatchEffectsWriteOnce(m: MatchupRow, ids: seq<int>, rosterOf: int -> Option<seq<RosterRow>>, feed: (int, int) -> StatsPayload)
    ensures WrittenIds(MatchEffects(m, ids, rosterOf, feed)) == [m.id]
  {
    var e := MatchEffects(m, ids, rosterOf, feed);
    MatchWriteAgreesWithUpserts(m, ids, rosterOf, feed);
    WrittenIdsAppend([e[0]], e[1..]);
    assert e == [e[0]] + e[1..];
    NoWrites(e[1..]);
    assert [e[0]][..0] == [];
  }

  /** A pass writes the scores of every matchup it was given exactly once, in the order of the query. */
  lemma {:induction false} PassWritesEachMatchupOnce(ms: seq<MatchupRow>, cache: map<int, seq<int>>, fetchFixtures: int -> FixtureResponse,
                                                      rosterOf: int -> Option<seq<RosterRow>>, feed: (int, int) -> StatsPayload)
    ensures WrittenIds(RunMatchups(ms, cache, fetchFixtures, rosterOf, feed).effects) == MatchupIds(ms)
  {
    if ms != [] {
      var n := |ms| - 1;
      var before := RunMatchups(ms[..n], cache, fetchFixtures, rosterOf, feed);
      PassWritesEachMatchupOnce(ms[..n], cache, fetchFixtures, rosterOf, feed);
      var ids := LookupIds(before.cache, ms[n].week, fetchFixtures(ms[n].week));
      WrittenIdsAppend(before.effects, MatchEffects(ms[n], ids, rosterOf, feed));
      MatchEffectsWriteOnce(ms[n], ids, rosterOf, feed);
      MatchupIdsStep(ms);
    }
  }

  lemma MatchupIdsStep(ms: seq<MatchupRow>)
    requires ms != []
    ensures MatchupIds(ms) == MatchupIds(ms[..|ms| - 1]) + [ms[|ms| - 1].id]
  {
    var n := |ms| - 1;
    var a, b := MatchupIds(ms), MatchupIds(ms[..n]) + [ms[n].id];
    assert |a| == |b|;
    forall i | 0 <= i < |a|
      ensures a[i] == b[i]
    {
      if i < n {
        assert b[i] == MatchupIds(ms[..n])[i] == ms[..n][i].id;
      }
    }
  }

  /** The cache a pass leaves keeps every week it started with, unchanged. */
  lemma {:induction false} PassKeepsCache(ms: seq<MatchupRow>, cache: map<int, seq<int>>, fetchFixtures: int -> FixtureResponse,
                                          rosterOf: int -> Option<seq<RosterRow>>, feed: (int, int) -> StatsPayload, w: int)
    requires w in cache
    ensures w in RunMatchups(ms, cache, fetchFixtures, rosterOf, feed).cache
    ensures RunMatchups(ms, cache, fetchFixtures, rosterOf, feed).cache[w] == cache[w]
  {
    if ms != [] {
      var n := |ms| - 1;
      PassKeepsCache(ms[..n], cache, fetchFixtures, rosterOf, feed, w);
      var before := RunMatchups(ms[..n], cache, fetchFixtures, rosterOf, feed);
      CacheIsSticky(before.cache, w, ms[n].week, fetchFixtures(ms[n].week), fetchFixtures(ms[n].week));
    }
  }

  lemma {:induction false} NoWrites(es: seq<Effect>)
    requires forall k :: 0 <= k < |es| ==> es[k].PointsUpsert?
    ensures WrittenIds(es) == []
  {
    if es != [] {
      NoWrites(es[..|es| - 1]);
    }
  }

  /** The scorer's module state: the fixture cache and the single-flight flag. */
  class Scorer {
    var isRunning: bool
    var fixtureCache: map<int, seq<int>>

    constructor ()
      ensures !isRunning && fixtureCache == map[]
    {
      isRunning := false;
      fixtureCache := map[];
    }

    /**
      `getFixtureIdsForWeek(week)`, where `response` is what the request would answer;
      it is only consulted when the week is not cached.
    */
    method GetFixtureIdsForWeek(week: int, response: FixtureResponse) returns (ids: seq<int>)
      modifies this`fixtureCache
      ensures ids == LookupIds(old(fixtureCache), week, response)
      ensures fixtureCache == CacheAfter(old(fixtureCache), week, response)
    {
      if week in fixtureCache {
        return fixtureCache[week];
      }
      match response
      case FixturesFetchFailed =>
        ids := [];
      case FixturesBody(data) =>
        fixtureCache := fixtureCache[week := data.GetOr([])];
        ids := fixtureCache[week];
    }

    /** One iteration of the pass: the fixture ids of the matchup's week, both teams scored, the writes. */
    method ScoreMatchup(m: MatchupRow, fetchFixtures: int -> FixtureResponse,
                        rosterOf: int -> Option<seq<RosterRow>>, feed: (int, int) -> StatsPayload)
      returns (step: seq<Effect>)
      modifies this`fixtureCache
      ensures step == MatchEffects(m, LookupIds(old(fixtureCache), m.week, fetchFixtures(m.week)), rosterOf, feed)
      ensures fixtureCache == CacheAfter(old(fixtureCache), m.week, fetchFixtures(m.week))
    {
      var fixtureIds := GetFixtureIdsForWeek(m.week, fetchFixtures(m.week));
      var total1, per1 := ScoreTeamForWeek(rosterOf(m.team1Id), fixtureIds, feed);
      var total2, per2 := ScoreTeamForWeek(rosterOf(m.team2Id), fixtureIds, feed);
      step := [ScoreWrite(m.id, total1, total2)];
      if |per1| > 0 {
        step := step + [PointsUpsert(LiveRows(m.team1Id, m.week, per1))];
      }
      if |per2| > 0 {
        step := step + [PointsUpsert(LiveRows(m.team2Id, m.week, per2))];
      }
    }

    /** The loop of `scoreLoop` over a non-empty list of matchups. */
    method RunPass(ms: seq<MatchupRow>, fetchFixtures: int -> FixtureResponse,
                   rosterOf: int -> Option<seq<RosterRow>>, feed: (int, int) -> StatsPayload)
      returns (effects: seq<Effect>)
      modifies this`fixtureCache
      ensures Pass(effects, fixtureCache) == RunMatchups(ms, old(fixtureCache), fetchFixtures, rosterOf, feed)
    {
      effects := [];
      var i := 0;
      while i < |ms|
        invariant 0 <= i <= |ms|
        invariant Pass(effects, fixtureCache) == RunMatchups(ms[..i], old(fixtureCache), fetchFixtures, rosterOf, feed)
      {
        RunMatchupsStep(ms, i, old(fixtureCache), fetchFixtures, rosterOf, feed);
        var step := ScoreMatchup(ms[i], fetchFixtures, rosterOf, feed);
        effects := effects + step;
        i := i + 1;
      }
      assert ms[..i] == ms;
    }

    /**
      `scoreLoop()` over the non-complete matchups `matchups` (`None` on a query error).
      A pass already running makes it a no-op; otherwise it runs the pass and clears
      the flag on every exit.
    */
    method ScoreLoop(matchups: Option<seq<MatchupRow>>, fetchFixtures: int -> FixtureResponse,
                     rosterOf: int -> Option<seq<RosterRow>>, feed: (int, int) -> StatsPayload)
      returns (effects: seq<Effect>)
      modifies this
      ensures old(isRunning) ==> effects == [] && isRunning && fixtureCache == old(fixtureCache)
      ensures !old(isRunning) ==> !isRunning
      ensures !old(isRunning) ==>
        Pass(effects, fixtureCache) == RunMatchups(matchups.GetOr([]), old(fixtureCache), fetchFixtures, rosterOf, feed)
    {
      if isRunning {
        return [];
      }
      isRunning := true;
      effects := [];
      if matchups.None? || |matchups.value| == 0 {
        isRunning := false;
        return;
      }
      effects := RunPass(matchups.value, fetchFixtures, rosterOf, feed);
      isRunning := false;
    }
  }
}
