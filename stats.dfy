/**
  A player's per-fixture statistics as the scorers read them: a JavaScript object
  with optional numeric fields. A field that is absent (or `null`) reads as 0 under
  `stats.x || 0`, and a flag field counts as set when it is present and non-zero.
*/
module Stats {

  /** The statistic fields any of the scorers reads. */
  datatype StatField =
    | Goal | Shot | Assist | PassLeadingToShot | MileageKm | SuccessfulPass | MissedPass
    | FoulHandball | WasFouled | Offside | PenaltyWon | PenaltyMissed | OwnGoal
    | FoulLeadingToPenalty | Played | YellowCard | SecondYellow | RedCard | GoalConceded
    | PenaltySaved | ShotSaved | NoGoalConceded | Interception | DuelWon | DuelLost
    | DribbledPast | CleanSheet

  /** The fields present in one statistics object. */
  type Stats = map<StatField, real>

  /** `stats.f || 0`. */
  function Stat(s: Stats, f: StatField): real {
    if f in s then s[f] else 0.0
  }

  /** `stats.f ? ... : ...`: the field is present and non-zero. */
  predicate Truthy(s: Stats, f: StatField) {
    f in s && s[f] != 0.0
  }
}
