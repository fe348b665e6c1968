/** Building a stored match record of one team from the fixture row of the match
    provider and the per-side statistics of the live-score provider. */
module Extraction {
  import opened Base
  import opened Matches
  import Predictor
  import Statistics

  /** The columns of the provider's fixture row the builder reads. */
  datatype DataMatch = DataMatch(
    status: string,
    homeTeamId: int,
    winner: Option<string>,
    fullTimeHome: Option<nat>,
    fullTimeAway: Option<nat>)

  /** The statistics of one side from the live-score provider: fouls, shots off
      target, on target, blocked and off the woodwork, possession, and the optional
      xG entry. */
  datatype LiveSide = LiveSide(fls: nat, shof: nat, shon: nat, shbl: nat, shwd: nat, pss: nat, xg: Option<real>)

  /** The team plays at home exactly when it is the fixture's home team. */
  function SideFor(teamDataId: int, m: DataMatch): (side: Side)
    ensures side == Home <==> m.homeTeamId == teamDataId
  {
    if m.homeTeamId == teamDataId then Home else Away
  }

  /** The enum name of a side, as it appears in the winner column. */
  function SideName(side: Side): string {
    match side
    case Home => "HOME"
    case Away => "AWAY"
  }

  /** The live-score list holds the home side first and the away side second. */
  function LiveIndex(side: Side): nat {
    if side == Home then 0 else 1
  }

  /** Win when the winner names the team's side, draw when it is "DRAW", and loss for
      anything else, a missing winner included. */
  function ResultFor(side: Side, winner: Option<string>): (r: MatchResult)
    ensures r == Win <==> winner == Some(SideName(side) + "_TEAM")
    ensures r == Draw <==> winner == Some("DRAW")
    ensures r == Lose <==> winner != Some(SideName(side) + "_TEAM") && winner != Some("DRAW")
  {
    assert (SideName(side) + "_TEAM")[0] != "DRAW"[0];
    if winner == Some(SideName(side) + "_TEAM") then Win
    else if winner == Some("DRAW") then Draw
    else Lose
  }

  /** `_enrichment_match_statistics(match, data_match, livescore_match)`. */
  function Enrich(teamDataId: int, m: DataMatch, live: seq<LiveSide>): (r: MatchRecord)
    requires LiveIndex(SideFor(teamDataId, m)) < |live|
    ensures r.status == Finished <==> m.status == "FINISHED"
    ensures r.side == Some(SideFor(teamDataId, m))
    ensures r.result == Some(ResultFor(SideFor(teamDataId, m), m.winner))
    ensures r.goalFor == (if m.homeTeamId == teamDataId then m.fullTimeHome else m.fullTimeAway)
    ensures r.goalAgainst == (if m.homeTeamId == teamDataId then m.fullTimeAway else m.fullTimeHome)
    ensures var s := live[if m.homeTeamId == teamDataId then 0 else 1];
      && r.fouls == Some(s.fls)
      && r.shots == Some(s.shof + s.shon + s.shbl + s.shwd)
      && r.shotsOffGoal == Some(s.shof) && r.shotsOnGoal == Some(s.shon)
      && r.possession == Some(s.pss) && r.livescoreXg == s.xg
    ensures r.shotsOnGoal.value <= r.shots.value && r.shotsOffGoal.value <= r.shots.value
    ensures r.shotsOnGoal.value + r.shotsOffGoal.value <= r.shots.value
  {
    var side := SideFor(teamDataId, m);
    var s := live[LiveIndex(side)];
    MatchRecord(
      if m.status == "FINISHED" then Finished else NotStarted,
      Some(side),
      Some(ResultFor(side, m.winner)),
      if side == Home then m.fullTimeHome else m.fullTimeAway,
      if side == Home then m.fullTimeAway else m.fullTimeHome,
      Some(s.fls),
      Some(s.shof + s.shon + s.shbl + s.shwd),
      Some(s.shof),
      Some(s.shon),
      Some(s.pss),
      s.xg)
  }

  /** The same fixture seen by its home team and by its away team: goals swap, and
      the results mirror each other when the winner is one of the three known
      values; any other winner is a loss for both. */
  lemma PerspectivesMirror(homeId: int, awayId: int, m: DataMatch, live: seq<LiveSide>)
    requires m.homeTeamId == homeId && homeId != awayId && |live| >= 2
    ensures Enrich(homeId, m, live).goalFor == Enrich(awayId, m, live).goalAgainst
    ensures Enrich(homeId, m, live).goalAgainst == Enrich(awayId, m, live).goalFor
    ensures m.winner in {Some("HOME_TEAM"), Some("AWAY_TEAM"), Some("DRAW")} ==>
      (Enrich(homeId, m, live).result == Some(Win) <==> Enrich(awayId, m, live).result == Some(Lose))
      && (Enrich(homeId, m, live).result == Some(Draw) <==> Enrich(awayId, m, live).result == Some(Draw))
    ensures m.winner !in {Some("HOME_TEAM"), Some("AWAY_TEAM"), Some("DRAW")} ==>
      Enrich(homeId, m, live).result == Some(Lose) && Enrich(awayId, m, live).result == Some(Lose)
  {
    assert "HOME_TEAM" != "AWAY_TEAM" by { assert "HOME_TEAM"[0] != "AWAY_TEAM"[0]; }
    assert SideName(Home) + "_TEAM" == "HOME_TEAM";
    assert SideName(Away) + "_TEAM" == "AWAY_TEAM";
  }

  /** Builds the records of a list of fixtures for one team. */
  function EnrichAll(teamDataId: int, ms: seq<DataMatch>, lives: seq<seq<LiveSide>>): (rs: seq<MatchRecord>)
    requires |ms| == |lives|
    requires forall i :: 0 <= i < |ms| ==> LiveIndex(SideFor(teamDataId, ms[i])) < |lives[i]|
    ensures |rs| == |ms|
    ensures forall i :: 0 <= i < |rs| ==> rs[i] == Enrich(teamDataId, ms[i], lives[i])
  {
    seq(|ms|, i requires 0 <= i < |ms| => Enrich(teamDataId, ms[i], lives[i]))
  }

  /** Every built record has a side and a result, so downstream each side aggregate
      has exactly as many results as matches, and the team totals count every
      record. */
  lemma EnrichedRecordsAreComplete(teamDataId: int, ms: seq<DataMatch>, lives: seq<seq<LiveSide>>)
    requires |ms| == |lives|
    requires forall i :: 0 <= i < |ms| ==> LiveIndex(SideFor(teamDataId, ms[i])) < |lives[i]|
    ensures var g := Predictor.TransformData(EnrichAll(teamDataId, ms, lives));
      && Statistics.ResultsCoverMatches(g.home.counts)
      && Statistics.ResultsCoverMatches(g.away.counts)
      && Statistics.Totals(g).matchesPlayed == |ms|
  {
    var rs := EnrichAll(teamDataId, ms, lives);
    var home, away := Predictor.OnSide(rs, Home), Predictor.OnSide(rs, Away);
    Predictor.ResultsAccountedFor(home);
    Predictor.ResultsAccountedFor(away);
  }
}
