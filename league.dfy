/**
  The league page (src/pages/League.js): the invite-code generator, the season
  schedule generator and the guards on joining a league and creating a team.
  Query results arrive as parameters: `None` stands for a query that returned an
  error, and `Math.random()` is a sequence of draws from `[0, 1)`.
*/
module League {
  import opened Common
  import opened Tables
  import opened Schedule
  import opened ScheduleFacts

  // ---------------------------------------------------------------------------
  // Invite codes

  /** The 62 characters an invite code is drawn from. */
  const Alphabet: string := "abcdefghijklmnopqrstuvwxyzABCDEFGHIJKLMNOPQRSTUVWXYZ0123456789"

  /** `Math.floor(Math.random() * chars.length)`: the alphabet position a draw from `[0, 1)` selects. */
  function CharIndex(draw: real): (k: int)
    requires 0.0 <= draw < 1.0
    ensures 0 <= k < |Alphabet|
    ensures k as real <= draw * |Alphabet| as real < k as real + 1.0
  {
    (draw * |Alphabet| as real).Floor
  }

  /** Every alphabet position is selected by some draw: no character is out of reach. */
  lemma CharIndexOnto(k: int)
    requires 0 <= k < |Alphabet|
    ensures 0.0 <= k as real / |Alphabet| as real < 1.0
    ensures CharIndex(k as real / |Alphabet| as real) == k
  {
    var n := |Alphabet| as real;
    assert (k as real / n) * n == k as real;
  }

  /** `generateInviteCode(length)`: one alphabet character per draw. */
  method GenerateInviteCode(length: nat, draws: seq<real>) returns (code: string)
    requires |draws| == length
    requires forall i :: 0 <= i < |draws| ==> 0.0 <= draws[i] < 1.0
    ensures |code| == length
    ensures forall i :: 0 <= i < length ==> code[i] == Alphabet[CharIndex(draws[i])]
    ensures forall i :: 0 <= i < length ==> code[i] in Alphabet
  {
    code := "";
    var i := 0;
    while i < length
      invariant 0 <= i <= length && |code| == i
      invariant forall j :: 0 <= j < i ==> code[j] == Alphabet[CharIndex(draws[j])]
    {
      code := code + [Alphabet[CharIndex(draws[i])]];
      i := i + 1;
    }
  }

  /** The default `length` of `generateInviteCode`, which league creation relies on. */
  const InviteCodeLength: nat := 8

  /** The invite code `handleCreate` stores with a new league: `generateInviteCode()` with its default length. */
  method NewLeagueCode(draws: seq<real>) returns (code: string)
    requires |draws| == InviteCodeLength
    requires forall i :: 0 <= i < |draws| ==> 0.0 <= draws[i] < 1.0
    ensures |code| == 8
    ensures forall i :: 0 <= i < |code| ==> code[i] == Alphabet[CharIndex(draws[i])]
  {
    code := GenerateInviteCode(InviteCodeLength, draws);
  }

  // ---------------------------------------------------------------------------
  // The season schedule

  /** What `generateMatchups` ends with. */
  datatype ScheduleOutcome =
    | CheckFailed         // the existing-schedule query failed
    | AlreadyScheduled    // the league already has a matchup
    | TeamsUnavailable    // the teams query failed or returned nothing
    | NotEnoughTeams      // fewer than two teams
    | Generated(schedule: seq<NewMatchup>)  // the rows handed to the insert

  /** One more round extends the first leg by that round's matchups. */
  lemma FirstLegStep(p: seq<Option<int>>, league: int, r: int)
    requires Arrangement(p) && 0 <= r < |p| - 1
    ensures FirstLeg(p, league, r + 1) == FirstLeg(p, league, r) + RoundMatches(Rotation(p, r), league, r + 1, |p| / 2)
  {
    var rs := Rounds(p, league, r + 1);
    assert rs[..r] == Rounds(p, league, r);
  }

  /**
    The inner loop of `generateMatchups`: pairs slot `i` with slot `n - 1 - i` for
    `i < half` and pushes a matchup whenever neither side is the bye.
  */
  method PushRound(schedule: seq<NewMatchup>, roundTeams: seq<Option<int>>, leagueId: int, week: int, half: int)
    returns (pushed: seq<NewMatchup>)
    requires Arrangement(roundTeams) && half == |roundTeams| / 2
    ensures pushed == schedule + RoundMatches(roundTeams, leagueId, week, half)
  {
    pushed := schedule;
    var i := 0;
    while i < half
      invariant 0 <= i <= half
      invariant pushed == schedule + RoundMatches(roundTeams, leagueId, week, i)
    {
      var team1 := roundTeams[i];
      var team2 := roundTeams[|roundTeams| - 1 - i];
      if team1.Some? && team2.Some? {
        pushed := pushed + [PendingMatchup(leagueId, week, team1.value, team2.value)];
      }
      i := i + 1;
    }
  }

  /**
    The round loop of `generateMatchups` over the padded team list: each round
    pushes its matchups and rotates every slot but the first. Ends with the first
    leg and the week the return leg starts in.
  */
  method PlayFirstLeg(padded: seq<Option<int>>, leagueId: int) returns (schedule: seq<NewMatchup>, week: int)
    requires Arrangement(padded)
    ensures schedule == FirstLeg(padded, leagueId, |padded| - 1)
    ensures week == |padded|
  {
    var roundTeams := padded;
    var rounds := |roundTeams| - 1;
    var half := |roundTeams| / 2;
    schedule := [];
    week := 1;
    var r := 0;
    while r < rounds
      invariant 0 <= r <= rounds && week == r + 1
      invariant roundTeams == Rotation(padded, r)
      invariant schedule == FirstLeg(padded, leagueId, r)
    {
      schedule := PushRound(schedule, roundTeams, leagueId, week, half);
      // roundTeams.splice(1, 0, roundTeams.pop())
      ghost var prev := roundTeams;
      var last := roundTeams[|roundTeams| - 1];
      roundTeams := roundTeams[..|roundTeams| - 1];
      roundTeams := [roundTeams[0], last] + roundTeams[1..];
      assert roundTeams == Rotate(prev);
      RotateRotation(padded, r);
      FirstLegStep(padded, leagueId, r);
      week := week + 1;
      r := r + 1;
    }
  }

  /**
    `generateMatchups(leagueId)`. `existing` is the number of matchups the league
    already has and `teams` the league's team ids, each `None` when its query failed.
    The guards run in the source's order; past them the schedule is the season of
    the circle method, built by the same nested loops and rotation.
  */
  method GenerateMatchups(leagueId: int, existing: Option<nat>, teams: Option<seq<int>>)
    returns (out: ScheduleOutcome)
    ensures existing.None? ==> out == CheckFailed
    ensures existing.Some? && existing.value > 0 ==> out == AlreadyScheduled
    ensures existing == Some(0) && teams.None? ==> out == TeamsUnavailable
    ensures existing == Some(0) && teams.Some? && |teams.value| < 2 ==> out == NotEnoughTeams
    ensures existing == Some(0) && teams.Some? && |teams.value| >= 2 ==> out == Generated(Season(teams.value, leagueId))
  {
    if existing.None? {
      return CheckFailed;
    }
    if existing.value > 0 {
      return AlreadyScheduled;
    }
    if teams.None? {
      return TeamsUnavailable;
    }
    var teamIds := teams.value;
    if |teamIds| < 2 {
      return NotEnoughTeams;
    }

    var roundTeams: seq<Option<int>> := seq(|teamIds|, j requires 0 <= j < |teamIds| => Some(teamIds[j]));
    if |teamIds| % 2 != 0 {
      roundTeams := roundTeams + [None];
    }
    assert roundTeams == Padded(teamIds);

    var schedule, week := PlayFirstLeg(roundTeams, leagueId);
    var more := ReturnLeg(schedule, week);
    schedule := schedule + more;
    out := Generated(schedule);
  }

  // ---------------------------------------------------------------------------
  // Joining a league and creating a team

  /** A league holds at most this many teams when a user joins it. */
  const MaxTeams := 8

  /** What `handleJoinLeague` ends with. */
  datatype JoinOutcome = LeagueNotFound | SizeUnknown | LeagueFull | Joined(leagueId: int)

  /**
    `handleJoinLeague`: `found` is the league the invite code names and `teamCount`
    the number of its teams, each `None` when its query failed.
  */
  function JoinLeague(found: Option<int>, teamCount: Option<nat>): (out: JoinOutcome)
    ensures out.Joined? <==> found.Some? && teamCount.Some? && teamCount.value < MaxTeams
    ensures out.Joined? ==> out.leagueId == found.value
    ensures out == LeagueFull <==> found.Some? && teamCount.Some? && teamCount.value >= MaxTeams
    ensures out == LeagueNotFound <==> found.None?
  {
    if found.None? then LeagueNotFound
    else if teamCount.None? then SizeUnknown
    else if teamCount.value >= MaxTeams then LeagueFull
    else Joined(found.value)
  }

  /** A `teams` row. */
  datatype TeamRow = TeamRow(name: string, userId: string, leagueId: string)

  /** What `handleCreateTeam` ends with. */
  datatype CreateOutcome = MissingFields | TeamCheckFailed | AlreadyHasTeam | Insert(row: TeamRow)

  /**
    `handleCreateTeam`: an empty string stands for a missing user, league or name;
    `existing` is the number of teams the user already has in the league, `None`
    when that query failed.
  */
  function CreateTeam(userId: string, leagueId: string, teamName: string, existing: Option<nat>): (out: CreateOutcome)
    ensures out.Insert? <==> userId != "" && leagueId != "" && teamName != "" && existing == Some(0)
    ensures out.Insert? ==> out.row == TeamRow(teamName, userId, leagueId)
    ensures out == MissingFields <==> userId == "" || leagueId == "" || teamName == ""
    ensures out == AlreadyHasTeam <==> userId != "" && leagueId != "" && teamName != "" && existing.Some? && existing.value > 0
  {
    if userId == "" || leagueId == "" || teamName == "" then MissingFields
    else if existing.None? then TeamCheckFailed
    else if existing.value > 0 then AlreadyHasTeam
    else Insert(TeamRow(teamName, userId, leagueId))
  }

  /** How many rows the one-team-per-user query returns: the user's teams in the league. */
  function TeamsOf(rows: seq<TeamRow>, userId: string, leagueId: string): nat {
    if rows == [] then 0
    else
      TeamsOf(rows[..|rows| - 1], userId, leagueId)
        + (if rows[|rows| - 1].userId == userId && rows[|rows| - 1].leagueId == leagueId then 1 else 0)
  }

  /** No user has two teams in one league. */
  ghost predicate OneTeamPerUser(rows: seq<TeamRow>) {
    forall userId, leagueId :: TeamsOf(rows, userId, leagueId) <= 1
  }

  /** The `teams` table after the outcome's insert, if any. */
  function AfterCreate(rows: seq<TeamRow>, out: CreateOutcome): seq<TeamRow> {
    if out.Insert? then rows + [out.row] else rows
  }

  lemma {:induction false} TeamsOfAppend(rows: seq<TeamRow>, row: TeamRow, userId: string, leagueId: string)
    ensures TeamsOf(rows + [row], userId, leagueId)
      == TeamsOf(rows, userId, leagueId) + (if row.userId == userId && row.leagueId == leagueId then 1 else 0)
  {
    assert (rows + [row])[..|rows|] == rows;
  }

  /**
    Creating teams one after another through `handleCreateTeam` never gives a user
    a second team in a league.
  */
  lemma CreateKeepsOneTeamPerUser(rows: seq<TeamRow>, userId: string, leagueId: string, teamName: string)
    requires OneTeamPerUser(rows)
    ensures OneTeamPerUser(AfterCreate(rows, CreateTeam(userId, leagueId, teamName, Some(TeamsOf(rows, userId, leagueId)))))
  {
    var out := CreateTeam(userId, leagueId, teamName, Some(TeamsOf(rows, userId, leagueId)));
    if out.Insert? {
      forall u, l
        ensures TeamsOf(rows + [out.row], u, l) <= 1
      {
        TeamsOfAppend(rows, out.row, u, l);
      }
    }
  }
}
