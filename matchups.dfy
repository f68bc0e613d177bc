/**
  The matchups page (src/pages/Matchups.js): which of the team's matchups is shown
  first, the Previous and Next buttons that move through them, and how the shown
  matchup's scores and status are displayed.
*/
module Matchups {
  import opened Common
  import opened Tables
  import CurrentMatchup

  /** `findIndex(m => m.status === 'pending')`: -1 when no matchup is pending. */
  function FirstPending(ms: seq<MatchupRow>): (k: int)
    ensures -1 <= k < |ms|
    ensures k >= 0 ==> ms[k].status == Pending && forall j :: 0 <= j < k ==> ms[j].status != Pending
    ensures k == -1 <==> forall j :: 0 <= j < |ms| ==> ms[j].status != Pending
  {
    if ms == [] then -1
    else if ms[0].status == Pending then 0
    else
      var k := FirstPending(ms[1..]);
      assert forall j :: 1 <= j < |ms| ==> ms[j] == ms[1..][j - 1];
      if k == -1 then -1 else k + 1
  }

  /** The index shown first: the first pending matchup, else the last one, else 0. */
  function InitialIndex(ms: Option<seq<MatchupRow>>): (k: int)
    ensures ms.None? || |ms.value| == 0 ==> k == 0
    ensures ms.Some? && |ms.value| > 0 ==> 0 <= k < |ms.value|
    ensures ms.Some? && |ms.value| > 0 && ms.value[k].status != Pending ==>
              k == |ms.value| - 1 && forall j :: 0 <= j < |ms.value| ==> ms.value[j].status != Pending
    ensures ms.Some? && |ms.value| > 0 && ms.value[k].status == Pending ==>
              forall j :: 0 <= j < k ==> ms.value[j].status != Pending
  {
    if ms.None? || |ms.value| == 0 then 0
    else
      var k := FirstPending(ms.value);
      if k == -1 then |ms.value| - 1 else k
  }

  /** `typeof score === 'number' ? score : '-'`. */
  datatype ScoreText = Dash | Points(value: real)

  function ScoreDisplay(score: Option<real>): (t: ScoreText)
    ensures t == Dash <==> score.None?
    ensures t.Points? ==> t.value == score.value
  {
    if score.None? then Dash else Points(score.value)
  }

  /** The status line: upcoming only while pending, completed otherwise, a live matchup included. */
  function StatusLabel(status: MatchStatus): (text: string)
    ensures text == "Upcoming" <==> status == Pending
    ensures text == "Completed" <==> status != Pending
  {
    if status == Pending then "Upcoming" else "Completed"
  }

  /** `myScore`: team 1's score when the team is at home, team 2's otherwise. */
  function MyScore(m: MatchupRow, teamId: int): Option<real> {
    if m.team1Id == teamId then m.team1Score else m.team2Score
  }

  /** `oppScore`: the other one. */
  function OppScore(m: MatchupRow, teamId: int): Option<real> {
    if m.team1Id == teamId then m.team2Score else m.team1Score
  }

  /**
    The opponent's score is the opponent's own score, and this page agrees with the
    current-matchup page once a missing score is read as 0.
  */
  lemma ScoresBySide(m: MatchupRow, teamId: int)
    requires teamId == m.team1Id || teamId == m.team2Id
    requires m.team1Id != m.team2Id
    ensures OppScore(m, teamId) == MyScore(m, OpponentOf(m, teamId))
    ensures MyScore(m, teamId) == OppScore(m, OpponentOf(m, teamId))
    ensures CurrentMatchup.MyTotal(Some(m), teamId) == MyScore(m, teamId).GetOr(0.0)
    ensures CurrentMatchup.OppTotal(Some(m), teamId) == OppScore(m, teamId).GetOr(0.0)
  {
  }

  /** The page's list of matchups and the index of the one shown. */
  class Navigator {
    var matchups: seq<MatchupRow>
    var currentIndex: int

    /** A shown list has the index inside it. */
    predicate Valid()
      reads this
    {
      |matchups| > 0 ==> 0 <= currentIndex < |matchups|
    }

    constructor ()
      ensures matchups == [] && currentIndex == 0
      ensures Valid()
    {
      matchups := [];
      currentIndex := 0;
    }

    /**
      The load step of `fetchData`: without a team the list is emptied and the
      index kept; otherwise the list is the query's rows and the index the initial one.
    */
    method Load(hasTeam: bool, rows: Option<seq<MatchupRow>>)
      modifies this
      ensures !hasTeam ==> matchups == [] && currentIndex == old(currentIndex)
      ensures hasTeam ==> matchups == rows.GetOr([]) && currentIndex == InitialIndex(rows)
      ensures Valid()
    {
      if !hasTeam {
        matchups := [];
        return;
      }
      var nextIdx := InitialIndex(rows);
      matchups := rows.GetOr([]);
      currentIndex := nextIdx;
    }

    /** The Previous button: one back, never below 0. */
    method Previous()
      requires |matchups| > 0
      modifies this`currentIndex
      ensures currentIndex == if old(currentIndex) - 1 >= 0 then old(currentIndex) - 1 else 0
      ensures old(Valid()) ==> Valid()
    {
      var back := currentIndex - 1;
      currentIndex := if back >= 0 then back else 0;
    }

    /** The Next button: one forward, never past the last matchup. */
    method Next()
      requires |matchups| > 0
      modifies this`currentIndex
      ensures currentIndex == if old(currentIndex) + 1 <= |matchups| - 1 then old(currentIndex) + 1 else |matchups| - 1
      ensures old(Valid()) ==> Valid()
    {
      var forward := currentIndex + 1;
      currentIndex := if forward <= |matchups| - 1 then forward else |matchups| - 1;
    }
  }
}
