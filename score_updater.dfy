/**
  The score updater page (src/pages/ScoreUpdater.js): a second copy of the point
  formula, the mapping from the player-statistics API to the formula's fields, and
  the button handler that scores every matchup of the league and marks it complete.

  The roster query, the player-info query and the statistics request are
  parameters. A statistics reply whose first entry has no statistics makes the
  handler throw; the model carries that as an aborted pass.
*/
module ScoreUpdater {
  import opened Common
  import opened JsMath
  import opened Stats
  import opened Tables
  import LiveScorer

  /**
    This page's `calculateFantasyPoints`, accumulated statement by statement into
    `pts`. It is the live scorer's formula: both copies return the same points.
  */
  method CalculateFantasyPoints(s: Stats, position: string) returns (r: real)
    ensures r == LiveScorer.CalculateFantasyPoints(s, position)
    ensures OnGrid(r, 100)
  {
    var pts := 0.0;
    pts := pts + Stat(s, Goal) * 8.0;
    pts := pts + Stat(s, Shot) * 0.8;
    pts := pts + Stat(s, Assist) * 4.0;
    pts := pts + Stat(s, PassLeadingToShot) * 0.4;
    if position == "Goalkeeper" {
      pts := pts + Stat(s, MileageKm) * 0.4;
    } else {
      pts := pts + Stat(s, MileageKm) * 0.2;
    }
    pts := pts + Stat(s, SuccessfulPass) * 0.125;
    pts := pts + Stat(s, MissedPass) * -0.2;
    pts := pts + Stat(s, FoulHandball) * -0.5;
    pts := pts + Stat(s, WasFouled) * 0.75;
    pts := pts + Stat(s, Offside) * -0.75;
    pts := pts + Stat(s, PenaltyWon) * 4.0;
    pts := pts + Stat(s, PenaltyMissed) * -4.0;
    pts := pts + Stat(s, OwnGoal) * -4.0;
    pts := pts + Stat(s, FoulLeadingToPenalty) * -4.0;
    pts := pts + (if Truthy(s, Played) then 2.0 else 0.0);
    pts := pts + Stat(s, YellowCard) * -1.0;
    pts := pts + Stat(s, SecondYellow) * -2.0;
    pts := pts + Stat(s, RedCard) * -4.0;
    if position == "Goalkeeper" {
      pts := pts + Stat(s, GoalConceded) * -1.0;
      pts := pts + Stat(s, PenaltySaved) * 10.0;
      pts := pts + Stat(s, ShotSaved) * 2.5;
      pts := pts + (if Truthy(s, NoGoalConceded) then 5.0 else 0.0);
    } else {
      pts := pts + Stat(s, GoalConceded) * -0.5;
    }
    pts := pts + Stat(s, Interception) * 1.0;
    pts := pts + Stat(s, DuelWon) * 0.8;
    pts := pts + Stat(s, DuelLost) * -0.5;
    pts := pts + Stat(s, DribbledPast) * 1.0;
    assert pts == LiveScorer.RawPoints(s, position);
    r := RoundTo(pts, 100);
  }

  // ---------------------------------------------------------------------------
  // The statistics API

  /** The fields of one `statistics` entry the mapping reads; `None` is `null`. */
  datatype ApiStatistics = ApiStatistics(
    goalsTotal: Option<real>, shotsTotal: Option<real>, goalsAssists: Option<real>,
    minutes: Option<real>, cardsYellow: Option<real>, cardsRed: Option<real>)

  /** The reply's `response`: one entry per player, each with its `statistics` list. */
  datatype StatsReply = StatsReply(response: Option<seq<seq<ApiStatistics>>>)

  /** What `fetchPlayerStats` ends with. */
  datatype Fetched =
    | NoStats             // an empty or missing response: `null`
    | Malformed           // the first entry has no statistics: the mapping throws
    | Mapped(stats: Stats)

  /** `x || 0` on a number that may be `null`. */
  function OrZero(x: Option<real>): real {
    x.GetOr(0.0)
  }

  /** The six fields the page fills in; `played` is 1 exactly when minutes were recorded. */
  function Mapping(a: ApiStatistics): Stats {
    map[Goal := OrZero(a.goalsTotal), Shot := OrZero(a.shotsTotal), Assist := OrZero(a.goalsAssists),
        Played := if a.minutes.Some? && a.minutes.value > 0.0 then 1.0 else 0.0,
        YellowCard := OrZero(a.cardsYellow), RedCard := OrZero(a.cardsRed)]
  }

  /** `fetchPlayerStats`: the first response entry's first statistics, mapped. */
  function MapStats(reply: StatsReply): (f: Fetched)
    ensures f == NoStats <==> reply.response.None? || |reply.response.value| == 0
    ensures f == Malformed <==> reply.response.Some? && |reply.response.value| > 0 && |reply.response.value[0]| == 0
    ensures f.Mapped? ==> f.stats.Keys == {Goal, Shot, Assist, Played, YellowCard, RedCard}
    ensures f.Mapped? ==> (f.stats[Played] == 1.0 <==> reply.response.value[0][0].minutes.Some? && reply.response.value[0][0].minutes.value > 0.0)
    ensures f.Mapped? ==> f.stats[Played] == 0.0 || f.stats[Played] == 1.0
    ensures f.Mapped? ==>
              var a := reply.response.value[0][0];
              f.stats[Goal] == a.goalsTotal.GetOr(0.0) && f.stats[Shot] == a.shotsTotal.GetOr(0.0)
              && f.stats[Assist] == a.goalsAssists.GetOr(0.0) && f.stats[YellowCard] == a.cardsYellow.GetOr(0.0)
              && f.stats[RedCard] == a.cardsRed.GetOr(0.0)
  {
    match reply.response
    case None => NoStats
    case Some(entries) =>
      if |entries| == 0 then NoStats
      else if |entries[0]| == 0 then Malformed
      else Mapped(Mapping(entries[0][0]))
  }

  /**
    What a mapped statistics entry scores before rounding: the formula restricted
    to goals, shots, assists, appearance and cards, the same for every position.
  */
  lemma MappedPoints(a: ApiStatistics, position: string)
    ensures LiveScorer.RawPoints(Mapping(a), position)
      == OrZero(a.goalsTotal) * 8.0 + OrZero(a.shotsTotal) * 0.8 + OrZero(a.goalsAssists) * 4.0
         + (if a.minutes.Some? && a.minutes.value > 0.0 then 2.0 else 0.0)
         - OrZero(a.cardsYellow) - OrZero(a.cardsRed) * 4.0
  {
    var s := Mapping(a);
    assert forall f :: f !in {Goal, Shot, Assist, Played, YellowCard, RedCard} ==> Stat(s, f) == 0.0;
    assert !Truthy(s, NoGoalConceded);
    assert Stat(s, Goal) == OrZero(a.goalsTotal) && Stat(s, Shot) == OrZero(a.shotsTotal);
    assert Stat(s, Assist) == OrZero(a.goalsAssists) && Stat(s, YellowCard) == OrZero(a.cardsYellow);
    assert Stat(s, RedCard) == OrZero(a.cardsRed);
    assert Truthy(s, Played) <==> a.minutes.Some? && a.minutes.value > 0.0;
  }

  /** The fixture every week is scored against. */
  const DemoFixture := 1035044

  /** `getFixtureIdForWeek(week)`. */
  function GetFixtureIdForWeek(week: int): (id: int)
    ensures id == DemoFixture
  {
    DemoFixture
  }

  // ---------------------------------------------------------------------------
  // Scoring the league's matchups

  /** A team's running score, or the throw that ends the handler. */
  datatype Tally = Total(points: real) | Aborted

  /** One roster player's contribution in week `week`; `None` info means the player is skipped. */
  function PlayerTally(info: Option<LiveScorer.ApiPlayer>, week: int, statsOf: (Option<int>, int) -> StatsReply): (t: Tally)
    ensures info.None? ==> t == Total(0.0)
    ensures t.Total? ==> OnGrid(t.points, 100)
    ensures info.Some? ==>
              var f := MapStats(statsOf(info.value.apiId, GetFixtureIdForWeek(week)));
              (f == NoStats ==> t == Total(0.0)) && (f == Malformed ==> t == Aborted)
              && (f.Mapped? ==> t == Total(LiveScorer.CalculateFantasyPoints(f.stats, info.value.position)))
  {
    if info.None? then Total(0.0)
    else
      match MapStats(statsOf(info.value.apiId, GetFixtureIdForWeek(week)))
      case NoStats => Total(0.0)
      case Malformed => Aborted
      case Mapped(s) => Total(LiveScorer.CalculateFantasyPoints(s, info.value.position))
  }

  /** The score of the players `ps`, summed in order; aborted once any player aborts. */
  function TeamTally(ps: seq<int>, week: int, infoOf: int -> Option<LiveScorer.ApiPlayer>,
                     statsOf: (Option<int>, int) -> StatsReply): Tally
  {
    if ps == [] then Total(0.0)
    else
      var n := |ps| - 1;
      var prev := TeamTally(ps[..n], week, infoOf, statsOf);
      var last := PlayerTally(infoOf(ps[n]), week, statsOf);
      if prev.Aborted? || last.Aborted? then Aborted else Total(prev.points + last.points)
  }

  /** A team's score is the sum of its two parts' scores when neither aborts. */
  lemma {:induction false} TeamTallyConcat(a: seq<int>, b: seq<int>, week: int,
                                          infoOf: int -> Option<LiveScorer.ApiPlayer>, statsOf: (Option<int>, int) -> StatsReply)
    ensures TeamTally(a + b, week, infoOf, statsOf).Aborted?
        <==> TeamTally(a, week, infoOf, statsOf).Aborted? || TeamTally(b, week, infoOf, statsOf).Aborted?
    ensures TeamTally(a + b, week, infoOf, statsOf).Total? ==>
      TeamTally(a + b, week, infoOf, statsOf).points
        == TeamTally(a, week, infoOf, statsOf).points + TeamTally(b, week, infoOf, statsOf).points
  {
    if b == [] {
      assert a + b == a;
    } else {
      var n := |b| - 1;
      assert (a + b)[..|a| + n] == a + b[..n];
      assert (a + b)[|a| + n] == b[n];
      TeamTallyConcat(a, b[..n], week, infoOf, statsOf);
    }
  }

  /** Players without player info add nothing to their team's score. */
  lemma {:induction false} SkippedPlayersAddNothing(ps: seq<int>, week: int,
                                                   infoOf: int -> Option<LiveScorer.ApiPlayer>, statsOf: (Option<int>, int) -> StatsReply)
    requires forall i :: 0 <= i < |ps| ==> infoOf(ps[i]).None?
    ensures TeamTally(ps, week, infoOf, statsOf) == Total(0.0)
  {
    if ps != [] {
      SkippedPlayersAddNothing(ps[..|ps| - 1], week, infoOf, statsOf);
    }
  }

  /** The team loop of `updateScores`: adds up the players' points in roster order. */
  method TeamScore(ps: seq<int>, week: int, infoOf: int -> Option<LiveScorer.ApiPlayer>,
                   statsOf: (Option<int>, int) -> StatsReply) returns (t: Tally)
    ensures t == TeamTally(ps, week, infoOf, statsOf)
  {
    var points := 0.0;
    var i := 0;
    while i < |ps|
      invariant 0 <= i <= |ps|
      invariant TeamTally(ps[..i], week, infoOf, statsOf) == Total(points)
    {
      assert ps[..i + 1][..i] == ps[..i];
      var info := infoOf(ps[i]);
      if info.Some? {
        var fixtureId := GetFixtureIdForWeek(week);
        var fetched := MapStats(statsOf(info.value.apiId, fixtureId));
        if fetched.Malformed? {
          assert TeamTally(ps[..i + 1], week, infoOf, statsOf) == Aborted;
          TeamTallyConcat(ps[..i + 1], ps[i + 1..], week, infoOf, statsOf);
          assert ps[..i + 1] + ps[i + 1..] == ps;
          return Aborted;
        }
        if fetched.Mapped? {
          var pts := CalculateFantasyPoints(fetched.stats, info.value.position);
          points := points + pts;
        }
      }
      i := i + 1;
    }
    assert ps[..i] == ps;
    t := Total(points);
  }

  /** What the handler does for one matchup: a completing score write, or `None` when it throws. */
  function MatchupUpdate(m: MatchupRow, rosterOf: int -> Option<seq<int>>, infoOf: int -> Option<LiveScorer.ApiPlayer>,
                         statsOf: (Option<int>, int) -> StatsReply): (u: Option<ScoreUpdate>)
    ensures u.Some? <==>
      rosterOf(m.team1Id).Some? && rosterOf(m.team2Id).Some?
      && TeamTally(rosterOf(m.team1Id).value, m.week, infoOf, statsOf).Total?
      && TeamTally(rosterOf(m.team2Id).value, m.week, infoOf, statsOf).Total?
    ensures u.Some? ==> u.value.matchupId == m.id && u.value.completes
    ensures u.Some? ==>
      u.value.team1Score == TeamTally(rosterOf(m.team1Id).value, m.week, infoOf, statsOf).points
      && u.value.team2Score == TeamTally(rosterOf(m.team2Id).value, m.week, infoOf, statsOf).points
  {
    var r1, r2 := rosterOf(m.team1Id), rosterOf(m.team2Id);
    if r1.None? || r2.None? then None
    else
      var t1 := TeamTally(r1.value, m.week, infoOf, statsOf);
      var t2 := TeamTally(r2.value, m.week, infoOf, statsOf);
      if t1.Aborted? || t2.Aborted? then None
      else Some(ScoreUpdate(m.id, t1.points, t2.points, true))
  }

  /** The writes of one click over matchups `ms`, and whether the handler threw. */
  datatype Run = Run(writes: seq<ScoreUpdate>, threw: bool)

  function Matchups(ms: seq<MatchupRow>, rosterOf: int -> Option<seq<int>>, infoOf: int -> Option<LiveScorer.ApiPlayer>,
                    statsOf: (Option<int>, int) -> StatsReply): Run
  {
    if ms == [] then Run([], false)
    else
      var n := |ms| - 1;
      var prev := Matchups(ms[..n], rosterOf, infoOf, statsOf);
      if prev.threw then prev
      else
        match MatchupUpdate(ms[n], rosterOf, infoOf, statsOf)
        case None => Run(prev.writes, true)
        case Some(u) => Run(prev.writes + [u], false)
  }

  /**
    Matchups are written in order, each once, with both teams' scores and marked
    complete, whatever its previous status; a click that does not throw writes every
    matchup, and one that throws stops at the first matchup whose update throws.
  */
  lemma {:induction false} EveryMatchupCompleted(ms: seq<MatchupRow>, rosterOf: int -> Option<seq<int>>,
                                                infoOf: int -> Option<LiveScorer.ApiPlayer>, statsOf: (Option<int>, int) -> StatsReply)
    ensures |Matchups(ms, rosterOf, infoOf, statsOf).writes| <= |ms|
    ensures !Matchups(ms, rosterOf, infoOf, statsOf).threw ==> |Matchups(ms, rosterOf, infoOf, statsOf).writes| == |ms|
    ensures forall k :: 0 <= k < |Matchups(ms, rosterOf, infoOf, statsOf).writes| ==>
      Matchups(ms, rosterOf, infoOf, statsOf).writes[k].matchupId == ms[k].id
      && Matchups(ms, rosterOf, infoOf, statsOf).writes[k].completes
      && MatchupUpdate(ms[k], rosterOf, infoOf, statsOf) == Some(Matchups(ms, rosterOf, infoOf, statsOf).writes[k])
    ensures Matchups(ms, rosterOf, infoOf, statsOf).threw ==>
      |Matchups(ms, rosterOf, infoOf, statsOf).writes| < |ms|
      && MatchupUpdate(ms[|Matchups(ms, rosterOf, infoOf, statsOf).writes|], rosterOf, infoOf, statsOf).None?
  {
    if ms != [] {
      EveryMatchupCompleted(ms[..|ms| - 1], rosterOf, infoOf, statsOf);
    }
  }

  /** The message the page shows once the handler is done. */
  datatype Message = Calculating | NoMatchupsFound | ScoresUpdated

  /**
    `updateScores`: `matchups` is the league's matchup query (`None` when it
    returned no data). A throw leaves the writes made so far and the
    "calculating" message in place.
  */
  method UpdateScores(matchups: Option<seq<MatchupRow>>, rosterOf: int -> Option<seq<int>>,
                      infoOf: int -> Option<LiveScorer.ApiPlayer>, statsOf: (Option<int>, int) -> StatsReply)
    returns (writes: seq<ScoreUpdate>, msg: Message)
    ensures matchups.None? ==> writes == [] && msg == NoMatchupsFound
    ensures matchups.Some? ==>
      var run := Matchups(matchups.value, rosterOf, infoOf, statsOf);
      writes == run.writes && (msg == ScoresUpdated <==> !run.threw) && (msg == Calculating <==> run.threw)
  {
    msg := Calculating;
    writes := [];
    if matchups.None? {
      msg := NoMatchupsFound;
      return;
    }
    var ms := matchups.value;
    var i := 0;
    while i < |ms|
      invariant 0 <= i <= |ms|
      invariant Matchups(ms[..i], rosterOf, infoOf, statsOf) == Run(writes, false)
    {
      var m := ms[i];
      assert ms[..i + 1][..i] == ms[..i];
      var u := ScoreMatchup(m, rosterOf, infoOf, statsOf);
      if u.None? {
        ThrowStops(ms, i + 1, rosterOf, infoOf, statsOf);
        return;
      }
      writes := writes + [u.value];
      i := i + 1;
    }
    assert ms[..i] == ms;
    msg := ScoresUpdated;
  }

  /** Both team loops of one matchup and its score write. */
  method ScoreMatchup(m: MatchupRow, rosterOf: int -> Option<seq<int>>, infoOf: int -> Option<LiveScorer.ApiPlayer>,
                      statsOf: (Option<int>, int) -> StatsReply) returns (u: Option<ScoreUpdate>)
    ensures u == MatchupUpdate(m, rosterOf, infoOf, statsOf)
  {
    var team1players := rosterOf(m.team1Id);
    var team2players := rosterOf(m.team2Id);
    if team1players.None? {
      return None;
    }
    var team1Points := TeamScore(team1players.value, m.week, infoOf, statsOf);
    if team1Points.Aborted? || team2players.None? {
      return None;
    }
    var team2Points := TeamScore(team2players.value, m.week, infoOf, statsOf);
    if team2Points.Aborted? {
      return None;
    }
    u := Some(ScoreUpdate(m.id, team1Points.points, team2Points.points, true));
  }

  /** Once a prefix throws, the whole click has thrown with that prefix's writes. */
  lemma {:induction false} ThrowStops(ms: seq<MatchupRow>, i: int, rosterOf: int -> Option<seq<int>>,
                                     infoOf: int -> Option<LiveScorer.ApiPlayer>, statsOf: (Option<int>, int) -> StatsReply)
    requires 0 <= i <= |ms| && Matchups(ms[..i], rosterOf, infoOf, statsOf).threw
    ensures Matchups(ms, rosterOf, infoOf, statsOf) == Matchups(ms[..i], rosterOf, infoOf, statsOf)
    decreases |ms| - i
  {
    if i < |ms| {
      assert ms[..i + 1][..i] == ms[..i];
      ThrowStops(ms, i + 1, rosterOf, infoOf, statsOf);
    } else {
      assert ms[..i] == ms;
    }
  }
}
