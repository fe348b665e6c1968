/** One stored match of one team, as the predictor reads it back from the database. */
module Matches {
  import opened Base

  datatype Side = Home | Away
  datatype MatchResult = Win | Draw | Lose
  datatype MatchStatus = NotStarted | Finished

  /** A match seen from one team's perspective. Every column of the stored row may be
      missing (`int | None` in the table), except the status. */
  datatype MatchRecord = MatchRecord(
    status: MatchStatus,
    side: Option<Side>,
    result: Option<MatchResult>,
    goalFor: Option<nat>,
    goalAgainst: Option<nat>,
    fouls: Option<nat>,
    shots: Option<nat>,
    shotsOffGoal: Option<nat>,
    shotsOnGoal: Option<nat>,
    possession: Option<nat>,
    livescoreXg: Option<real>)
}
