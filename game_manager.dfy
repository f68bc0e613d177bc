/**
  The game manager (scripts/gameManager.js): the simplified point formula, locking
  the roster rows of players whose club has kicked off, writing per-player live
  points and matchup totals, and the week driver.

  The fixture feed answers with `data || []`, so each fetch is a plain sequence of
  fixtures; clock reads and the rows the store returns are parameters.
*/
module GameManager {
  import opened Common
  import opened JsMath
  import opened Stats
  import opened Tables
  import LiveScorer

  // ---------------------------------------------------------------------------
  // The formula

  /** The unrounded points of `calcPoints`. */
  function CalcRaw(s: Stats, position: string): real {
    Stat(s, Goal) * 8.0
    + Stat(s, Assist) * 4.0
    + (if Truthy(s, Played) then 2.0 else 0.0)
    + (if position == "Goalkeeper" then
         (if Truthy(s, CleanSheet) then 5.0 else 0.0) - Stat(s, GoalConceded) * 1.0
       else
         - Stat(s, GoalConceded) * 0.5)
  }

  /** `calcPoints(stats, pos)`: the raw points to the nearest tenth, ties upward. */
  function CalcPoints(s: Stats, position: string): (r: real)
    ensures OnGrid(r, 10)
    ensures CalcRaw(s, position) * 10.0 - 0.5 < r * 10.0 <= CalcRaw(s, position) * 10.0 + 0.5
  {
    RoundTo(CalcRaw(s, position), 10)
  }

  /**
    On statistics holding only goals, assists, `played` and goals conceded, the
    simplified formula agrees with the live scorer's full one before rounding.
  */
  lemma CalcAgreesWithLiveScorer(s: Stats, position: string)
    requires forall f :: f in s ==> f == Goal || f == Assist || f == Played || f == GoalConceded
    ensures CalcRaw(s, position) == LiveScorer.RawPoints(s, position)
  {
  }

  /**
    A goalkeeper's clean sheet is read from `clean_sheet` here and from
    `no_goal_conceded` by the live scorer: with only a clean sheet recorded the
    two formulas part ways.
  */
  lemma CleanSheetFieldsDiffer()
    ensures CalcRaw(map[CleanSheet := 1.0], "Goalkeeper") == 5.0
    ensures LiveScorer.RawPoints(map[CleanSheet := 1.0], "Goalkeeper") == 0.0
  {
  }

  // ---------------------------------------------------------------------------
  // Locking started players

  /** A lineup entry of a fixture. */
  datatype LineupPlayer = LineupPlayer(teamId: int, playerId: int, stats: Option<Stats>, positionName: Option<string>)

  /** A fixture of the feed; `starting_at` is read as an integer timestamp. */
  datatype Fixture = Fixture(
    startingAt: int, localTeamId: int, visitorTeamId: int, status: string,
    localLineup: Option<seq<LineupPlayer>>, visitorLineup: Option<seq<LineupPlayer>>)

  /** A `bundesliga_players` row as the lock step reads it. */
  datatype ClubPlayer = ClubPlayer(id: int, apiTeamId: int)

  /** The clubs of fixtures that have kicked off by `now`. */
  function Started(fixtures: seq<Fixture>, now: int): set<int> {
    if fixtures == [] then {}
    else
      var f := fixtures[|fixtures| - 1];
      Started(fixtures[..|fixtures| - 1], now) + (if f.startingAt <= now then {f.localTeamId, f.visitorTeamId} else {})
  }

  /** A club has started exactly when it plays in a fixture whose kick-off is not after `now`. */
  lemma {:induction false} StartedIff(fixtures: seq<Fixture>, now: int, club: int)
    ensures club in Started(fixtures, now)
      <==> exists i :: 0 <= i < |fixtures| && fixtures[i].startingAt <= now
                       && (fixtures[i].localTeamId == club || fixtures[i].visitorTeamId == club)
  {
    if fixtures != [] {
      var n := |fixtures| - 1;
      StartedIff(fixtures[..n], now, club);
      if club in Started(fixtures[..n], now) {
        var i :| 0 <= i < n && fixtures[..n][i].startingAt <= now
                 && (fixtures[..n][i].localTeamId == club || fixtures[..n][i].visitorTeamId == club);
        assert fixtures[i] == fixtures[..n][i];
      }
      if exists i :: 0 <= i < |fixtures| && fixtures[i].startingAt <= now
                     && (fixtures[i].localTeamId == club || fixtures[i].visitorTeamId == club) {
        var i :| 0 <= i < |fixtures| && fixtures[i].startingAt <= now
                 && (fixtures[i].localTeamId == club || fixtures[i].visitorTeamId == club);
        if i < n {
          assert fixtures[..n][i] == fixtures[i];
        }
      }
    }
  }

  /** The loop of `lockStartedPlayers` that collects both clubs of every started fixture. */
  method StartedClubs(fixtures: seq<Fixture>, now: int) returns (started: set<int>)
    ensures started == Started(fixtures, now)
  {
    started := {};
    var i := 0;
    while i < |fixtures|
      invariant 0 <= i <= |fixtures|
      invariant started == Started(fixtures[..i], now)
    {
      var f := fixtures[i];
      assert fixtures[..i + 1][..i] == fixtures[..i];
      if f.startingAt <= now {
        started := started + {f.localTeamId};
        started := started + {f.visitorTeamId};
      }
      i := i + 1;
    }
    assert fixtures[..i] == fixtures;
  }

  /** `players.filter(p => startedTeams.has(p.api_team_id)).map(p => p.id)`. */
  function ToLock(players: seq<ClubPlayer>, started: set<int>): (ids: seq<int>)
    ensures forall id :: id in ids <==> exists i :: 0 <= i < |players| && players[i].apiTeamId in started && players[i].id == id
  {
    if players == [] then []
    else
      var p := players[|players| - 1];
      ToLock(players[..|players| - 1], started) + (if p.apiTeamId in started then [p.id] else [])
  }

  /** `update({ locked: true }).in('player_id', toLock).eq('week', week)` on `team_players`. */
  function LockRows(rows: seq<RosterAssignment>, toLock: seq<int>, week: int): (rows': seq<RosterAssignment>)
    ensures |rows'| == |rows|
  {
    seq(|rows|, i requires 0 <= i < |rows| =>
          if rows[i].playerId in toLock && rows[i].week == Some(week) then rows[i].(locked := true) else rows[i])
  }

  /**
    The lock step only ever sets `locked`, and exactly on the rows of listed players
    for this week: no other column and no other row changes, and nothing is unlocked.
  */
  lemma LockIsMonotone(rows: seq<RosterAssignment>, toLock: seq<int>, week: int)
    ensures forall i :: 0 <= i < |rows| ==>
      var r, r' := rows[i], LockRows(rows, toLock, week)[i];
      && r'.teamId == r.teamId && r'.playerId == r.playerId && r'.week == r.week
      && (r'.locked <==> r.locked || (r.playerId in toLock && r.week == Some(week)))
  {
  }

  /** Locking again changes nothing. */
  lemma LockIsIdempotent(rows: seq<RosterAssignment>, toLock: seq<int>, week: int)
    ensures LockRows(LockRows(rows, toLock, week), toLock, week) == LockRows(rows, toLock, week)
  {
    var once := LockRows(rows, toLock, week);
    assert forall i :: 0 <= i < |rows| ==> LockRows(once, toLock, week)[i] == once[i];
  }

  /**
    `lockStartedPlayers(week)`: `fixtures` is the week's feed, `now` the clock, and
    `players` the club query (`None` for a `null` answer, on which the source's
    `players.filter` throws; a query with no rows is `Some([])`). Without a started
    club, or with nobody to lock, no row is written.
  */
  method LockStartedPlayers(week: int, fixtures: seq<Fixture>, now: int, players: Option<seq<ClubPlayer>>,
                            rows: seq<RosterAssignment>)
    returns (rows': seq<RosterAssignment>)
    ensures |Started(fixtures, now)| == 0 || players.None? ==> rows' == rows
    ensures |Started(fixtures, now)| > 0 && players.Some? ==>
              rows' == LockRows(rows, ToLock(players.value, Started(fixtures, now)), week)
  {
    var started := StartedClubs(fixtures, now);
    rows' := rows;
    if |started| > 0 {
      if players.None? {
        return;
      }
      var toLock := ToLock(players.value, started);
      if |toLock| > 0 {
        rows' := LockRows(rows, toLock, week);
      } else {
        assert LockRows(rows, toLock, week) == rows;
      }
    }
  }

  // ---------------------------------------------------------------------------
  // Live points and matchup totals

  /** `[...(f.localteam?.lineup || []), ...(f.visitorteam?.lineup || [])]`. */
  function Lineup(f: Fixture): seq<LineupPlayer> {
    f.localLineup.GetOr([]) + f.visitorLineup.GetOr([])
  }

  /** The live-points row upserted for a lineup entry: `stats || {}` and `position?.name || ''`. */
  function PlayerRow(p: LineupPlayer, week: int): (row: LivePointsRow)
    ensures row.key == LiveKey(p.teamId, p.playerId, week)
    ensures row.points.Some? && OnGrid(row.points.value, 10)
    ensures row.points == Some(CalcPoints(p.stats.GetOr(map[]), p.positionName.GetOr("")))
  {
    LivePointsRow(LiveKey(p.teamId, p.playerId, week), Some(CalcPoints(p.stats.GetOr(map[]), p.positionName.GetOr(""))))
  }

  /** The rows upserted for lineup `ps`, in order. */
  function PlayerRows(ps: seq<LineupPlayer>, week: int): (rows: seq<LivePointsRow>)
    ensures |rows| == |ps|
    ensures forall i :: 0 <= i < |ps| ==> rows[i] == PlayerRow(ps[i], week)
  {
    seq(|ps|, i requires 0 <= i < |ps| => PlayerRow(ps[i], week))
  }

  /** The rows upserted for every lineup entry of `fixtures`, fixture by fixture. */
  function LineupRows(fixtures: seq<Fixture>, week: int): seq<LivePointsRow> {
    if fixtures == [] then []
    else LineupRows(fixtures[..|fixtures| - 1], week) + PlayerRows(Lineup(fixtures[|fixtures| - 1]), week)
  }

  /** The score update `updateScores` writes for a live matchup: each side's weekly live points. */
  function TotalsUpdate(t: seq<LivePointsRow>, m: MatchupRow, week: int): (u: ScoreUpdate)
    ensures u.matchupId == m.id && !u.completes
    ensures u.team1Score == TeamWeekPoints(t, m.team1Id, week) && u.team2Score == TeamWeekPoints(t, m.team2Id, week)
  {
    ScoreUpdate(m.id, TeamWeekPoints(t, m.team1Id, week), TeamWeekPoints(t, m.team2Id, week), false)
  }

  /** Upserting a lineup's rows one by one. */
  method UpsertLineup(t: seq<LivePointsRow>, ps: seq<LineupPlayer>, week: int) returns (t': seq<LivePointsRow>)
    requires KeysUnique(t)
    ensures t' == UpsertAll(t, PlayerRows(ps, week))
  {
    t' := t;
    var j := 0;
    while j < |ps|
      invariant 0 <= j <= |ps|
      invariant t' == UpsertAll(t, PlayerRows(ps[..j], week))
    {
      assert PlayerRows(ps[..j + 1], week)[..j] == PlayerRows(ps[..j], week);
      t' := Upsert(t', PlayerRow(ps[j], week));
      j := j + 1;
    }
    assert ps[..j] == ps;
  }

  /**
    `updateScores(week)`: upserts a live-points row for every lineup entry of the
    week's fixtures into `t`, then writes, for each live matchup of the week
    (`matchups`, as the query returned them), both teams' weekly totals.
  */
  method UpdateScores(week: int, fixtures: seq<Fixture>, t: seq<LivePointsRow>, matchups: seq<MatchupRow>)
    returns (t': seq<LivePointsRow>, updates: seq<ScoreUpdate>)
    requires KeysUnique(t)
    ensures t' == UpsertAll(t, LineupRows(fixtures, week))
    ensures |updates| == |matchups|
    ensures forall k :: 0 <= k < |matchups| ==> updates[k] == TotalsUpdate(t', matchups[k], week)
  {
    t' := t;
    var i := 0;
    while i < |fixtures|
      invariant 0 <= i <= |fixtures|
      invariant t' == UpsertAll(t, LineupRows(fixtures[..i], week))
    {
      assert fixtures[..i + 1][..i] == fixtures[..i];
      UpsertAllConcat(t, LineupRows(fixtures[..i], week), PlayerRows(Lineup(fixtures[i]), week));
      t' := UpsertLineup(t', Lineup(fixtures[i]), week);
      i := i + 1;
    }
    assert fixtures[..i] == fixtures;
    updates := [];
    var k := 0;
    while k < |matchups|
      invariant 0 <= k <= |matchups| && |updates| == k
      invariant forall j :: 0 <= j < k ==> updates[j] == TotalsUpdate(t', matchups[j], week)
    {
      updates := updates + [TotalsUpdate(t', matchups[k], week)];
      k := k + 1;
    }
  }

  // ---------------------------------------------------------------------------
  // The week driver

  /** The statuses `manageWeeks` accepts as finished. */
  const DoneStatuses: set<string> := {"FT", "AET", "FT_PEN", "CANCELLED", "POSTPONED"}

  /** `fixtures.every(f => [...].includes(f.status))`: vacuously true on no fixtures. */
  predicate AllDone(fixtures: seq<Fixture>) {
    forall i :: 0 <= i < |fixtures| ==> fixtures[i].status in DoneStatuses
  }

  /** What `manageWeeks` requests for one gameweek row, read at clock `now`. */
  function WeekStep(gw: Gameweek, now: int, fixtures: seq<Fixture>): seq<WeekRequest> {
    (if gw.status == WeekStatus.Upcoming && gw.lockAt <= now then [GoLive(gw.week)] else [])
    + (if gw.status == WeekStatus.Live then
         [RunLiveWeek(gw.week)] + (if AllDone(fixtures) then [CloseWeek(gw.week)] else [])
       else [])
  }

  /**
    Decisions read the status of the row as fetched: an upcoming week can only be
    sent live, a live week can only be run and closed, and no row is both sent live
    and closed in one pass. A complete week is left alone.
  */
  lemma WeekStepIsForward(gw: Gameweek, now: int, fixtures: seq<Fixture>)
    ensures GoLive(gw.week) in WeekStep(gw, now, fixtures) <==> gw.status == WeekStatus.Upcoming && gw.lockAt <= now
    ensures CloseWeek(gw.week) in WeekStep(gw, now, fixtures) <==> gw.status == WeekStatus.Live && AllDone(fixtures)
    ensures !(GoLive(gw.week) in WeekStep(gw, now, fixtures) && CloseWeek(gw.week) in WeekStep(gw, now, fixtures))
    ensures gw.status == WeekStatus.Complete ==> WeekStep(gw, now, fixtures) == []
  {
  }

  /** A live week whose feed lists no fixtures is closed. */
  lemma NoFixturesCloseLiveWeek(gw: Gameweek, now: int)
    requires gw.status == WeekStatus.Live
    ensures WeekStep(gw, now, []) == [RunLiveWeek(gw.week), CloseWeek(gw.week)]
  {
  }

  /** The requests for rows `weeks`, row by row. */
  function WeekSteps(weeks: seq<Gameweek>, nows: seq<int>, fixturesOf: int -> seq<Fixture>): seq<WeekRequest>
    requires |nows| == |weeks|
  {
    if weeks == [] then []
    else
      var n := |weeks| - 1;
      WeekSteps(weeks[..n], nows[..n], fixturesOf) + WeekStep(weeks[n], nows[n], fixturesOf(weeks[n].week))
  }

  /**
    A pass only moves weeks forward: a request to go live names an upcoming row
    that is due, a run names a live row, and a close names a live row whose
    fixtures are all done.
  */
  lemma {:induction false} WeekStepsIsForward(weeks: seq<Gameweek>, nows: seq<int>, fixturesOf: int -> seq<Fixture>,
                                             r: WeekRequest)
    requires |nows| == |weeks| && r in WeekSteps(weeks, nows, fixturesOf)
    ensures r.GoLive? ==> exists i :: 0 <= i < |weeks| && weeks[i].week == r.week
                                      && weeks[i].status == WeekStatus.Upcoming && weeks[i].lockAt <= nows[i]
    ensures r.RunLiveWeek? ==> exists i :: 0 <= i < |weeks| && weeks[i].week == r.week && weeks[i].status == WeekStatus.Live
    ensures r.CloseWeek? ==> exists i :: 0 <= i < |weeks| && weeks[i].week == r.week && weeks[i].status == WeekStatus.Live
                                         && AllDone(fixturesOf(r.week))
  {
    var n := |weeks| - 1;
    assert weeks != [];
    if r in WeekSteps(weeks[..n], nows[..n], fixturesOf) {
      WeekStepsIsForward(weeks[..n], nows[..n], fixturesOf, r);
      if r.GoLive? {
        var i :| 0 <= i < n && weeks[..n][i].week == r.week
                 && weeks[..n][i].status == WeekStatus.Upcoming && weeks[..n][i].lockAt <= nows[..n][i];
        assert weeks[i] == weeks[..n][i] && nows[i] == nows[..n][i];
      }
      if r.RunLiveWeek? {
        var i :| 0 <= i < n && weeks[..n][i].week == r.week && weeks[..n][i].status == WeekStatus.Live;
        assert weeks[i] == weeks[..n][i];
      }
      if r.CloseWeek? {
        var i :| 0 <= i < n && weeks[..n][i].week == r.week && weeks[..n][i].status == WeekStatus.Live
                 && AllDone(fixturesOf(r.week));
        assert weeks[i] == weeks[..n][i];
      }
    }
  }

  /**
    `manageWeeks()`: one pass over the gameweek rows. The clock is read once per row
    (`nows`), and `fixturesOf(week)` is the feed the completion check fetches.
  */
  method ManageWeeks(weeks: seq<Gameweek>, nows: seq<int>, fixturesOf: int -> seq<Fixture>)
    returns (requests: seq<WeekRequest>)
    requires |nows| == |weeks|
    ensures requests == WeekSteps(weeks, nows, fixturesOf)
  {
    requests := [];
    var i := 0;
    while i < |weeks|
      invariant 0 <= i <= |weeks|
      invariant requests == WeekSteps(weeks[..i], nows[..i], fixturesOf)
    {
      var gw, now := weeks[i], nows[i];
      assert weeks[..i + 1][..i] == weeks[..i] && nows[..i + 1][..i] == nows[..i];
      if gw.status == WeekStatus.Upcoming && gw.lockAt <= now {
        requests := requests + [GoLive(gw.week)];
      }
      if gw.status == WeekStatus.Live {
        requests := requests + [RunLiveWeek(gw.week)];
        var fixtures := fixturesOf(gw.week);
        var allDone := forall j :: 0 <= j < |fixtures| ==> fixtures[j].status in DoneStatuses;
        if allDone {
          requests := requests + [CloseWeek(gw.week)];
        }
      }
      i := i + 1;
    }
    assert weeks[..i] == weeks && nows[..i] == nows;
  }
}
