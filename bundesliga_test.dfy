/**
  The league draft page (src/pages/BundesligaTest.js): the ids already drafted in
  the league, the players still available, and the pick handler with its guards.
  Query results and whether the store accepted the insert are parameters; the
  `team_players` table and the `pickMade` toggle are the state of a `LeagueDraft`.
*/
module BundesligaTest {
  import opened Common
  import opened Tables

  /** The `player_id`s of the rows whose team is listed, in row order. */
  function PlayerIdsOf(rows: seq<RosterAssignment>, teamIds: seq<int>): (ids: seq<int>)
    ensures forall id :: id in ids <==> exists i :: 0 <= i < |rows| && rows[i].teamId in teamIds && rows[i].playerId == id
  {
    if rows == [] then []
    else
      var n := |rows| - 1;
      var rest := PlayerIdsOf(rows[..n], teamIds);
      assert forall i :: 0 <= i < n ==> rows[..n][i] == rows[i];
      rest + (if rows[n].teamId in teamIds then [rows[n].playerId] else [])
  }

  /**
    `draftedPlayerIds` after `fetchDraftData`: `prev` are the ids shown before,
    `playersOk` whether the players query succeeded (on its error the handler
    returns before touching the drafted ids), `teams` the league's team ids
    (`None` when that query failed), `rows` the `team_players` table and
    `draftedOk` whether the drafted query succeeded.
  */
  function DraftedIds(prev: seq<int>, playersOk: bool, teams: Option<seq<int>>, rows: seq<RosterAssignment>,
                      draftedOk: bool): (ids: seq<int>)
    ensures !playersOk ==> ids == prev
    ensures playersOk && (teams.None? || |teams.value| == 0 || !draftedOk) ==> ids == []
    ensures playersOk && teams.Some? && |teams.value| > 0 && draftedOk ==>
              forall id :: id in ids <==> exists i :: 0 <= i < |rows| && rows[i].teamId in teams.value && rows[i].playerId == id
  {
    if !playersOk then prev
    else if teams.None? || |teams.value| == 0 || !draftedOk then []
    else PlayerIdsOf(rows, teams.value)
  }

  /** Rows of teams outside the league never mark a player as drafted. */
  lemma OtherLeaguesIgnored(prev: seq<int>, teams: seq<int>, rows: seq<RosterAssignment>, row: RosterAssignment)
    requires |teams| > 0 && row.teamId !in teams
    ensures DraftedIds(prev, true, Some(teams), rows + [row], true) == DraftedIds(prev, true, Some(teams), rows, true)
  {
    assert (rows + [row])[..|rows|] == rows;
  }

  /** What `handleDraftPick` shows. */
  datatype PickMessage = TeamNotFound | AlreadyDrafted | DraftFailed | Drafted

  /** The league's `team_players` table and the page's refetch toggle. */
  class LeagueDraft {
    var rows: seq<RosterAssignment>
    var pickMade: bool

    constructor (rows0: seq<RosterAssignment>)
      ensures rows == rows0 && !pickMade
    {
      rows := rows0;
      pickMade := false;
    }

    /**
      `handleDraftPick(playerId)`: `team` is the user's team in the league (`None`
      when not found), `drafted` the page's drafted ids and `insertOk` whether the
      store accepted the insert. Only a successful insert toggles `pickMade`.
    */
    method HandleDraftPick(team: Option<int>, drafted: seq<int>, playerId: int, insertOk: bool)
      returns (msg: PickMessage)
      modifies this
      ensures team.None? ==> msg == TeamNotFound
      ensures team.Some? && playerId in drafted ==> msg == AlreadyDrafted
      ensures team.Some? && playerId !in drafted && !insertOk ==> msg == DraftFailed
      ensures msg != Drafted ==> rows == old(rows) && pickMade == old(pickMade)
      ensures msg == Drafted <==> team.Some? && playerId !in drafted && insertOk
      ensures msg == Drafted ==>
                rows == old(rows) + [RosterAssignment(team.value, playerId, None, false)] && pickMade == !old(pickMade)
    {
      if team.None? {
        return TeamNotFound;
      }
      if playerId in drafted {
        return AlreadyDrafted;
      }
      if !insertOk {
        return DraftFailed;
      }
      rows := rows + [RosterAssignment(team.value, playerId, None, false)];
      pickMade := !pickMade;
      msg := Drafted;
    }
  }

  /**
    After a successful pick and the refetch it triggers, the player is drafted and
    no longer offered.
  */
  lemma PickedPlayerLeavesPool(prev: seq<int>, teams: seq<int>, rows: seq<RosterAssignment>, team: int, playerId: int, players: seq<Player>)
    requires team in teams
    ensures playerId in DraftedIds(prev, true, Some(teams), rows + [RosterAssignment(team, playerId, None, false)], true)
    ensures forall p :: p in Undrafted(players, DraftedIds(prev, true, Some(teams), rows + [RosterAssignment(team, playerId, None, false)], true))
              ==> p.id != playerId
  {
    var rows' := rows + [RosterAssignment(team, playerId, None, false)];
    assert rows'[|rows|].teamId in teams && rows'[|rows|].playerId == playerId;
  }
}
