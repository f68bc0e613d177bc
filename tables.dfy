/**
  Rows of the hosted tables the engine and the pages read and write: `matchups`,
  `player_live_points`, `team_players` and `gameweeks`. The store itself is not
  modelled; each operation receives the rows a query returned and states the rows
  it writes.
*/
module Tables {
  import opened Common

  /** `matchups.status`. */
  datatype MatchStatus = Pending | Live | Complete

  /** A stored `matchups` row; scores are `null` until first written. */
  datatype MatchupRow = MatchupRow(
    id: int, leagueId: int, week: int,
    team1Id: int, team2Id: int,
    team1Score: Option<real>, team2Score: Option<real>,
    status: MatchStatus)

  /** A `matchups` row as the schedule generator inserts it (the id is assigned by the store). */
  datatype NewMatchup = NewMatchup(
    leagueId: int, week: int,
    team1Id: int, team2Id: int,
    team1Score: Option<real>, team2Score: Option<real>,
    status: MatchStatus)

  /** `gameweeks.status`. */
  datatype WeekStatus = Upcoming | Live | Complete

  /** A `gameweeks` row; `lock_at` is read as an integer timestamp. */
  datatype Gameweek = Gameweek(week: int, status: WeekStatus, lockAt: int)

  /** A `team_players` row: a roster assignment, optionally scoped to a week. */
  datatype RosterAssignment = RosterAssignment(teamId: int, playerId: int, week: Option<int>, locked: bool)

  /**
    The key on which `player_live_points` upserts are taken to conflict. The
    upserts name no conflict target, so this rests on the table's unique
    constraint, which is not part of this model.
  */
  datatype LiveKey = LiveKey(teamId: int, playerId: int, week: int)

  /** A `player_live_points` row; `points` may be `null` in rows the engine did not write. */
  datatype LivePointsRow = LivePointsRow(key: LiveKey, points: Option<real>)

  /** The keys of a `player_live_points` table are unique. */
  predicate KeysUnique(t: seq<LivePointsRow>) {
    forall i, j :: 0 <= i < j < |t| ==> t[i].key != t[j].key
  }

  /**
    The points stored under `k` (`null` points read as 0), taken from the last row
    with that key; `None` exactly when no row has the key.
  */
  function Find(t: seq<LivePointsRow>, k: LiveKey): (r: Option<real>)
    ensures r.None? <==> forall i :: 0 <= i < |t| ==> t[i].key != k
    ensures r.Some? ==> exists i :: 0 <= i < |t| && t[i].key == k && r.value == t[i].points.GetOr(0.0)
                          && forall j :: i < j < |t| ==> t[j].key != k
  {
    if t == [] then None
    else if t[|t| - 1].key == k then Some(t[|t| - 1].points.GetOr(0.0))
    else
      var prefix := t[..|t| - 1];
      assert forall i :: 0 <= i < |prefix| ==> prefix[i] == t[i];
      Find(prefix, k)
  }

  /**
    `upsert(row)` on `player_live_points`: the row with the same key is replaced,
    otherwise the row is appended.
  */
  function Upsert(t: seq<LivePointsRow>, row: LivePointsRow): (t': seq<LivePointsRow>)
    requires KeysUnique(t)
    ensures KeysUnique(t')
    ensures |t'| == |t| || |t'| == |t| + 1
    ensures forall i :: 0 <= i < |t| ==> t'[i] == (if t[i].key == row.key then row else t[i])
    ensures |t'| == |t| + 1 <==> (forall i :: 0 <= i < |t| ==> t[i].key != row.key)
    ensures |t'| == |t| + 1 ==> t'[|t|] == row
  {
    if exists i :: 0 <= i < |t| && t[i].key == row.key then
      seq(|t|, i requires 0 <= i < |t| => if t[i].key == row.key then row else t[i])
    else
      t + [row]
  }

  /** Upserting the same rows again changes nothing: overwrite, not accumulation. */
  lemma UpsertIdempotent(t: seq<LivePointsRow>, row: LivePointsRow)
    requires KeysUnique(t)
    ensures Upsert(Upsert(t, row), row) == Upsert(t, row)
  {
    var t1 := Upsert(t, row);
    assert exists i :: 0 <= i < |t1| && t1[i].key == row.key by {
      if |t1| == |t| + 1 {
        assert t1[|t|].key == row.key;
      } else {
        var i :| 0 <= i < |t| && t[i].key == row.key;
        assert t1[i].key == row.key;
      }
    }
  }

  /** After an upsert the key holds exactly the upserted value. */
  lemma UpsertThenFind(t: seq<LivePointsRow>, row: LivePointsRow, k: LiveKey)
    requires KeysUnique(t)
    ensures Find(Upsert(t, row), k) == if k == row.key then Some(row.points.GetOr(0.0)) else Find(t, k)
  {
    var t' := Upsert(t, row);
    if |t'| == |t| + 1 {
      assert t'[..|t|] == t;
    } else {
      var n := |t| - 1;
      assert KeysUnique(t[..n]);
      if t[n].key == row.key {
        assert t'[..n] == t[..n];
      } else {
        var i :| 0 <= i < |t| && t[i].key == row.key;
        assert t'[..n] == Upsert(t[..n], row);
        UpsertThenFind(t[..n], row, k);
      }
    }
  }

  /** `rows.reduce((a, b) => a + Number(b.points || 0), 0)`: a `null` score adds 0. */
  function PointsSum(rows: seq<LivePointsRow>): real {
    if rows == [] then 0.0 else PointsSum(rows[..|rows| - 1]) + rows[|rows| - 1].points.GetOr(0.0)
  }

  /** The `player_live_points` table after upserting `rows` one by one. */
  function UpsertAll(t: seq<LivePointsRow>, rows: seq<LivePointsRow>): (t': seq<LivePointsRow>)
    requires KeysUnique(t)
    ensures KeysUnique(t')
  {
    if rows == [] then t else Upsert(UpsertAll(t, rows[..|rows| - 1]), rows[|rows| - 1])
  }

  lemma {:induction false} UpsertAllConcat(t: seq<LivePointsRow>, a: seq<LivePointsRow>, b: seq<LivePointsRow>)
    requires KeysUnique(t)
    ensures UpsertAll(t, a + b) == UpsertAll(UpsertAll(t, a), b)
  {
    if b == [] {
      assert a + b == a;
    } else {
      assert (a + b)[..|a + b| - 1] == a + b[..|b| - 1];
      UpsertAllConcat(t, a, b[..|b| - 1]);
    }
  }

  /** The points of a team's `player_live_points` rows for a week: the aggregation query and its sum. */
  function TeamWeekPoints(t: seq<LivePointsRow>, teamId: int, week: int): (r: real)
    ensures (forall i :: 0 <= i < |t| ==> t[i].key.teamId != teamId || t[i].key.week != week) ==> r == 0.0
  {
    if t == [] then 0.0
    else
      TeamWeekPoints(t[..|t| - 1], teamId, week)
        + (if t[|t| - 1].key.teamId == teamId && t[|t| - 1].key.week == week then t[|t| - 1].points.GetOr(0.0) else 0.0)
  }

  /** What row `r` adds to the weekly sum of `teamId`. */
  function Share(r: LivePointsRow, teamId: int, week: int): real {
    if r.key.teamId == teamId && r.key.week == week then r.points.GetOr(0.0) else 0.0
  }

  lemma AppendShare(t: seq<LivePointsRow>, row: LivePointsRow, teamId: int, week: int)
    ensures TeamWeekPoints(t + [row], teamId, week) == TeamWeekPoints(t, teamId, week) + Share(row, teamId, week)
  {
    assert (t + [row])[..|t|] == t;
  }

  lemma ReplaceLastShare(t: seq<LivePointsRow>, row: LivePointsRow, teamId: int, week: int)
    requires t != [] && t[|t| - 1].key == row.key
    ensures TeamWeekPoints(t[..|t| - 1] + [row], teamId, week)
      == TeamWeekPoints(t, teamId, week) + Share(row, teamId, week) - Share(t[|t| - 1], teamId, week)
  {
    AppendShare(t[..|t| - 1], row, teamId, week);
  }

  /**
    Upserting a row moves its team's weekly total by the new points minus the points
    the key held before (0 when it was absent): an upsert overwrites, it never
    counts a player twice.
  */
  lemma {:induction false} UpsertShiftsTeamPoints(t: seq<LivePointsRow>, row: LivePointsRow, teamId: int, week: int)
    requires KeysUnique(t)
    ensures TeamWeekPoints(Upsert(t, row), teamId, week)
      == TeamWeekPoints(t, teamId, week)
         + (if row.key.teamId == teamId && row.key.week == week
            then row.points.GetOr(0.0) - Find(t, row.key).GetOr(0.0) else 0.0)
  {
    var t' := Upsert(t, row);
    if |t'| == |t| + 1 {
      assert t' == t + [row];
      AppendShare(t, row, teamId, week);
    } else {
      var n := |t| - 1;
      assert KeysUnique(t[..n]);
      if t[n].key == row.key {
        assert t' == t[..n] + [row];
        ReplaceLastShare(t, row, teamId, week);
      } else {
        assert t'[..n] == Upsert(t[..n], row);
        UpsertShiftsTeamPoints(t[..n], row, teamId, week);
      }
    }
  }

  /** A `players` row as the pages read it. */
  datatype Player = Player(id: int, name: string, position: string, club: string)

  /** `players.filter(p => !ids.includes(p.id))`: the players whose id is not listed. */
  function Undrafted(players: seq<Player>, ids: seq<int>): (r: seq<Player>)
    ensures forall p :: p in r <==> p in players && p.id !in ids
    ensures |r| <= |players|
  {
    if players == [] then []
    else
      var n := |players| - 1;
      Undrafted(players[..n], ids) + (if players[n].id !in ids then [players[n]] else [])
  }

  /** The other side of a matchup, seen from team `me`: team 1 unless `me` is team 1. */
  function OpponentOf(m: MatchupRow, me: int): (opp: int)
    ensures opp == m.team1Id || opp == m.team2Id
    ensures me == m.team1Id ==> opp == m.team2Id
    ensures me != m.team1Id ==> opp == m.team1Id
  {
    if m.team1Id == me then m.team2Id else m.team1Id
  }

  /**
    For a participant of a matchup between two different teams, the opponent is
    the other team, and the opponent's opponent is the participant.
  */
  lemma OpponentIsOtherSide(m: MatchupRow, me: int)
    requires me == m.team1Id || me == m.team2Id
    requires m.team1Id != m.team2Id
    ensures OpponentOf(m, me) != me
    ensures OpponentOf(m, OpponentOf(m, me)) == me
  {
  }

  /** One `matchups` update of both scores, optionally also marking the matchup complete. */
  datatype ScoreUpdate = ScoreUpdate(matchupId: int, team1Score: real, team2Score: real, completes: bool)

  /** A week transition or step a week driver requests. */
  datatype WeekRequest =
    | GoLive(week: int)       // the `go_live` procedure
    | RunLiveWeek(week: int)  // lock started players, then update scores
    | CloseWeek(week: int)    // the `close_week` procedure
}
