/**
  The squad builder (src/pages/DraftCenter.js): per-club counts of the squad, the
  players still available to it, and the add and drop handlers with their guards.
  The squad shown on the page is a parameter; the `team_players` table the handlers
  write to is the state of a `TeamPlayers` object. Whether the store accepted an
  insert or a delete is a parameter.
*/
module DraftCenter {
  import opened Common
  import opened Tables

  /** `TEAM_SIZE`: the largest squad. */
  const TeamSize := 8

  /** The most players of one club a squad may hold. */
  const ClubLimit := 2

  /** How many players of the squad play for `club`. */
  function CountClub(squad: seq<Player>, club: string): (c: nat)
    ensures c <= |squad|
  {
    if squad == [] then 0
    else CountClub(squad[..|squad| - 1], club) + (if squad[|squad| - 1].club == club then 1 else 0)
  }

  /** A club appears in the counts exactly when some squad player plays for it. */
  lemma {:induction false} CountClubPositive(squad: seq<Player>, club: string)
    ensures CountClub(squad, club) > 0 <==> exists i :: 0 <= i < |squad| && squad[i].club == club
  {
    if squad != [] {
      var n := |squad| - 1;
      CountClubPositive(squad[..n], club);
      if exists i :: 0 <= i < n && squad[..n][i].club == club {
        var i :| 0 <= i < n && squad[..n][i].club == club;
        assert squad[i].club == club;
      }
      if exists i :: 0 <= i < |squad| && squad[i].club == club {
        var i :| 0 <= i < |squad| && squad[i].club == club;
        if i < n {
          assert squad[..n][i].club == club;
        }
      }
    }
  }

  /** The `forEach` that builds `clubCounts`. */
  method ClubCounts(squad: seq<Player>) returns (counts: map<string, nat>)
    ensures forall c :: CountOf(counts, c) == CountClub(squad, c)
    ensures forall c :: c in counts ==> counts[c] > 0
  {
    counts := map[];
    var i := 0;
    while i < |squad|
      invariant 0 <= i <= |squad|
      invariant forall c :: CountOf(counts, c) == CountClub(squad[..i], c)
      invariant forall c :: c in counts ==> counts[c] > 0
    {
      var p := squad[i];
      assert squad[..i + 1][..i] == squad[..i];
      counts := counts[p.club := CountOf(counts, p.club) + 1];
      i := i + 1;
    }
    assert squad[..i] == squad;
  }

  /** The ids of the squad's players. */
  function Ids(squad: seq<Player>): (ids: seq<int>)
    ensures |ids| == |squad|
    ensures forall i :: 0 <= i < |squad| ==> ids[i] == squad[i].id
  {
    seq(|squad|, i requires 0 <= i < |squad| => squad[i].id)
  }

  /** `availablePlayers`: players not in the squad whose club the squad holds fewer than two of. */
  function AvailablePlayers(players: seq<Player>, squad: seq<Player>): (r: seq<Player>)
    ensures forall p :: p in r <==> p in players && p.id !in Ids(squad) && CountClub(squad, p.club) < ClubLimit
    ensures |r| <= |players|
  {
    if players == [] then []
    else
      var n := |players| - 1;
      var p := players[n];
      AvailablePlayers(players[..n], squad)
        + (if p.id !in Ids(squad) && CountClub(squad, p.club) < ClubLimit then [p] else [])
  }

  /** What `handleAddPlayer` reports. */
  datatype AddMessage = MaxTeamSize | MaxPerClub | AddFailed | PlayerAdded

  /** The two guards of `handleAddPlayer`, size first: `None` lets the insert go ahead. */
  function AddGuard(squad: seq<Player>, player: Player): (refusal: Option<AddMessage>)
    ensures refusal == Some(MaxTeamSize) <==> |squad| >= TeamSize
    ensures refusal == Some(MaxPerClub) <==> |squad| < TeamSize && CountClub(squad, player.club) >= ClubLimit
    ensures refusal.None? <==> |squad| < TeamSize && CountClub(squad, player.club) < ClubLimit
  {
    if |squad| >= TeamSize then Some(MaxTeamSize)
    else if CountClub(squad, player.club) >= ClubLimit then Some(MaxPerClub)
    else None
  }

  /** A squad within the size and per-club limits. */
  ghost predicate WithinLimits(squad: seq<Player>) {
    |squad| <= TeamSize && forall c :: CountClub(squad, c) <= ClubLimit
  }

  /** A squad within the limits stays within them after an add the guards let through. */
  lemma AddKeepsLimits(squad: seq<Player>, player: Player)
    requires WithinLimits(squad)
    requires AddGuard(squad, player).None?
    ensures WithinLimits(squad + [player])
  {
    forall c
      ensures CountClub(squad + [player], c) <= ClubLimit
    {
      assert (squad + [player])[..|squad|] == squad;
    }
  }

  /** The `team_players` rows with the (team, player) row removed. */
  function Without(rows: seq<RosterAssignment>, teamId: int, playerId: int): (r: seq<RosterAssignment>)
    ensures forall row :: row in r <==> row in rows && !(row.teamId == teamId && row.playerId == playerId)
    ensures |r| <= |rows|
  {
    if rows == [] then []
    else
      var n := |rows| - 1;
      Without(rows[..n], teamId, playerId)
        + (if rows[n].teamId == teamId && rows[n].playerId == playerId then [] else [rows[n]])
  }

  /** Dropping a player from a team leaves every other team's rows alone. */
  lemma {:induction false} DropKeepsOtherTeams(rows: seq<RosterAssignment>, teamId: int, playerId: int, other: int)
    requires other != teamId
    ensures Rows(Without(rows, teamId, playerId), other) == Rows(rows, other)
  {
    if rows != [] {
      var n := |rows| - 1;
      DropKeepsOtherTeams(rows[..n], teamId, playerId, other);
      var w := Without(rows[..n], teamId, playerId);
      if !(rows[n].teamId == teamId && rows[n].playerId == playerId) {
        assert (w + [rows[n]])[..|w|] == w;
      } else {
        assert Without(rows, teamId, playerId) == w + [] == w;
        assert Rows(rows, other) == Rows(rows[..n], other) + [] == Rows(rows[..n], other);
      }
    }
  }

  /** The rows of team `teamId`, in order. */
  function Rows(rows: seq<RosterAssignment>, teamId: int): seq<RosterAssignment> {
    if rows == [] then []
    else Rows(rows[..|rows| - 1], teamId) + (if rows[|rows| - 1].teamId == teamId then [rows[|rows| - 1]] else [])
  }

  /** The `team_players` table the page writes to. */
  class TeamPlayers {
    var rows: seq<RosterAssignment>

    constructor (rows0: seq<RosterAssignment>)
      ensures rows == rows0
    {
      rows := rows0;
    }

    /**
      `handleAddPlayer(player)` for team `teamId`, with the squad the page shows;
      `insertOk` is whether the store accepted the insert.
    */
    method AddPlayer(teamId: int, squad: seq<Player>, player: Player, insertOk: bool) returns (msg: AddMessage)
      modifies this
      ensures AddGuard(squad, player).Some? ==> msg == AddGuard(squad, player).value && rows == old(rows)
      ensures AddGuard(squad, player).None? && !insertOk ==> msg == AddFailed && rows == old(rows)
      ensures AddGuard(squad, player).None? && insertOk ==>
                msg == PlayerAdded && rows == old(rows) + [RosterAssignment(teamId, player.id, None, false)]
    {
      if |squad| >= TeamSize {
        return MaxTeamSize;
      }
      var clubNum := CountClub(squad, player.club);
      if clubNum >= ClubLimit {
        return MaxPerClub;
      }
      if !insertOk {
        return AddFailed;
      }
      rows := rows + [RosterAssignment(teamId, player.id, None, false)];
      msg := PlayerAdded;
    }

    /** `handleDropPlayer(playerId)` for team `teamId`; `deleteOk` is whether the store accepted the delete. */
    method DropPlayer(teamId: int, playerId: int, deleteOk: bool) returns (dropped: bool)
      modifies this
      ensures dropped == deleteOk
      ensures deleteOk ==> rows == Without(old(rows), teamId, playerId)
      ensures !deleteOk ==> rows == old(rows)
    {
      if deleteOk {
        rows := Without(rows, teamId, playerId);
      }
      dropped := deleteOk;
    }
  }
}
