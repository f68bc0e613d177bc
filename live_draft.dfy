/**
  The live draft page (src/pages/LiveDraft.js): per-position counts of a squad, the
  pick validator with its position limits, and the pick handler that appends to the
  page's lists of taken players and of the user's players. Whether the store
  accepted the pick's insert is a parameter.
*/
module LiveDraft {
  import opened Common
  import opened Tables

  /** `TEAM_SIZE`. */
  const TeamSize := 11

  /** `POSITION_LIMITS[pos]`: positions without an entry are unlimited. */
  function PositionLimit(pos: string): (limit: Option<nat>)
    ensures limit.Some? <==> pos in {"GK", "DEF", "MID", "FW", "FLEX"}
    ensures limit.Some? ==> limit.value >= 1
  {
    if pos == "GK" then Some(1)
    else if pos == "DEF" then Some(3)
    else if pos == "MID" then Some(3)
    else if pos == "FW" then Some(1)
    else if pos == "FLEX" then Some(3)
    else None
  }

  /** How many of `players` play `pos`. */
  function CountPos(players: seq<Player>, pos: string): (c: nat)
    ensures c <= |players|
  {
    if players == [] then 0
    else CountPos(players[..|players| - 1], pos) + (if players[|players| - 1].position == pos then 1 else 0)
  }

  /** `countByPosition(players)`: the reduce that tallies positions. */
  method CountByPosition(players: seq<Player>) returns (counts: map<string, nat>)
    ensures forall pos :: CountOf(counts, pos) == CountPos(players, pos)
    ensures forall pos :: pos in counts <==> exists i :: 0 <= i < |players| && players[i].position == pos
  {
    counts := map[];
    var i := 0;
    while i < |players|
      invariant 0 <= i <= |players|
      invariant forall pos :: CountOf(counts, pos) == CountPos(players[..i], pos)
      invariant forall pos :: pos in counts <==> exists j :: 0 <= j < i && players[j].position == pos
    {
      var pos := players[i].position;
      assert players[..i + 1][..i] == players[..i];
      counts := counts[pos := CountOf(counts, pos) + 1];
      i := i + 1;
    }
    assert players[..i] == players;
  }

  /** The counts of the positions `positions`, added up. */
  function SumCounts(players: seq<Player>, positions: seq<string>): nat {
    if positions == [] then 0
    else SumCounts(players, positions[..|positions| - 1]) + CountPos(players, positions[|positions| - 1])
  }

  /** How often `pos` occurs in `positions`. */
  function Occurrences(positions: seq<string>, pos: string): nat {
    if positions == [] then 0
    else Occurrences(positions[..|positions| - 1], pos) + (if positions[|positions| - 1] == pos then 1 else 0)
  }

  lemma {:induction false} OccursOnce(positions: seq<string>, pos: string)
    requires NoDup(positions)
    ensures Occurrences(positions, pos) == (if pos in positions then 1 else 0)
  {
    if positions != [] {
      var n := |positions| - 1;
      OccursOnce(positions[..n], pos);
      assert positions == positions[..n] + [positions[n]];
    }
  }

  /** One more player adds one to the count of each listed occurrence of their position. */
  lemma {:induction false} SumCountsStep(players: seq<Player>, positions: seq<string>)
    requires players != []
    ensures SumCounts(players, positions)
      == SumCounts(players[..|players| - 1], positions) + Occurrences(positions, players[|players| - 1].position)
  {
    if positions != [] {
      SumCountsStep(players, positions[..|positions| - 1]);
    }
  }

  /** Over a list naming every position of the squad once, the counts add up to the squad size. */
  lemma {:induction false} CountsSumToSize(players: seq<Player>, positions: seq<string>)
    requires NoDup(positions)
    requires forall i :: 0 <= i < |players| ==> players[i].position in positions
    ensures SumCounts(players, positions) == |players|
  {
    if players == [] {
      ZeroCounts(positions);
    } else {
      var n := |players| - 1;
      CountsSumToSize(players[..n], positions);
      SumCountsStep(players, positions);
      OccursOnce(positions, players[n].position);
    }
  }

  lemma {:induction false} ZeroCounts(positions: seq<string>)
    ensures SumCounts([], positions) == 0
  {
    if positions != [] {
      ZeroCounts(positions[..|positions| - 1]);
    }
  }

  /** Why `validatePick` refuses a pick. */
  datatype PickError = AlreadyTaken | TeamFull | PositionMax(limit: nat, pos: string)

  /** `validatePick(player)`: the first failing check, in the source's order. */
  function ValidatePick(taken: seq<int>, mine: seq<Player>, player: Player): (err: Option<PickError>)
    ensures err == Some(AlreadyTaken) <==> player.id in taken
    ensures err == Some(TeamFull) <==> player.id !in taken && |mine| >= TeamSize
    ensures err.Some? && err.value.PositionMax? <==>
              player.id !in taken && |mine| < TeamSize && PositionLimit(player.position).Some?
              && CountPos(mine, player.position) >= PositionLimit(player.position).value
    ensures err.Some? && err.value.PositionMax? ==>
              err.value.pos == player.position && err.value.limit == PositionLimit(player.position).value
  {
    if player.id in taken then Some(AlreadyTaken)
    else if |mine| >= TeamSize then Some(TeamFull)
    else
      var limit := PositionLimit(player.position);
      if limit.Some? && CountPos(mine, player.position) >= limit.value then Some(PositionMax(limit.value, player.position))
      else None
  }

  /** A position outside `POSITION_LIMITS` never stops a pick into a squad with room. */
  lemma UnlimitedPositions(taken: seq<int>, mine: seq<Player>, player: Player)
    requires player.position !in {"GK", "DEF", "MID", "FW", "FLEX"}
    requires player.id !in taken && |mine| < TeamSize
    ensures ValidatePick(taken, mine, player).None?
  {
  }

  /** What `handlePick` shows: a validation message or the insert's failure. */
  datatype PickMessage = Refused(error: PickError) | PickFailed

  /** The page's draft state. */
  class DraftBoard {
    var takenPlayerIds: seq<int>
    var myPlayers: seq<Player>

    /**
      The squad is within the size and position limits, every own player is among
      the taken ones, and no player is held twice.
    */
    ghost predicate Valid()
      reads this
    {
      && |myPlayers| <= TeamSize
      && (forall i :: 0 <= i < |myPlayers| ==> myPlayers[i].id in takenPlayerIds)
      && (forall i, j :: 0 <= i < j < |myPlayers| ==> myPlayers[i].id != myPlayers[j].id)
      && (forall pos :: PositionLimit(pos).Some? ==> CountPos(myPlayers, pos) <= PositionLimit(pos).value)
    }

    constructor (taken: seq<int>)
      ensures takenPlayerIds == taken && myPlayers == []
      ensures Valid()
    {
      takenPlayerIds := taken;
      myPlayers := [];
    }

    /** `handlePick(player)`; `insertOk` is whether the store accepted the pick. */
    method HandlePick(player: Player, insertOk: bool) returns (msg: Option<PickMessage>)
      modifies this
      ensures ValidatePick(old(takenPlayerIds), old(myPlayers), player).Some? ==>
                msg == Some(Refused(ValidatePick(old(takenPlayerIds), old(myPlayers), player).value))
                && takenPlayerIds == old(takenPlayerIds) && myPlayers == old(myPlayers)
      ensures ValidatePick(old(takenPlayerIds), old(myPlayers), player).None? && !insertOk ==>
                msg == Some(PickFailed) && takenPlayerIds == old(takenPlayerIds) && myPlayers == old(myPlayers)
      ensures ValidatePick(old(takenPlayerIds), old(myPlayers), player).None? && insertOk ==>
                msg.None? && takenPlayerIds == old(takenPlayerIds) + [player.id] && myPlayers == old(myPlayers) + [player]
      ensures old(Valid()) ==> Valid()
    {
      var error := ValidatePick(takenPlayerIds, myPlayers, player);
      if error.Some? {
        return Some(Refused(error.value));
      }
      if !insertOk {
        return Some(PickFailed);
      }
      ghost var oldMine := myPlayers;
      takenPlayerIds := takenPlayerIds + [player.id];
      myPlayers := myPlayers + [player];
      assert myPlayers[..|oldMine|] == oldMine;
      msg := None;
    }
  }

  /** `availablePlayers`: no taken player is offered, and every other player is. */
  lemma AvailableExcludesTaken(players: seq<Player>, taken: seq<int>, p: Player)
    requires p in players
    ensures p in Undrafted(players, taken) <==> p.id !in taken
  {
  }
}
