/** The predictor variant that works on provider rows (one row per fixture, columns
    for both sides) instead of stored per-team records: results come from the
    `score.winner` string, and the advantage is the unscaled rate gap. */
module LibsPredictor {
  import opened Base
  import opened Floats
  import Predictor
  import Simulation

  /** The per-side statistic columns of a provider row; a value is missing when the
      provider gave no number for it. */
  datatype SideColumns = SideColumns(attacks: Option<nat>, shotsTotal: Option<nat>, shotsOnGoal: Option<nat>, ballPossession: Option<nat>)

  /** One fixture as the provider reports it. */
  datatype DataRow = DataRow(
    homeTeamId: int,
    awayTeamId: int,
    winner: Option<string>,
    fullTimeHome: Option<nat>,
    fullTimeAway: Option<nat>,
    home: SideColumns,
    away: SideColumns)

  /** The side names the provider uses in `score.winner`. */
  function SideName(isHome: bool): string {
    if isHome then "HOME" else "AWAY"
  }

  function TeamWinner(isHome: bool): string {
    SideName(isHome) + "_TEAM"
  }

  const DrawWinner: string := "DRAW"

  /** The three winner values are pairwise different. */
  lemma WinnerValuesDistinct()
    ensures TeamWinner(true) != TeamWinner(false)
    ensures TeamWinner(true) != DrawWinner && TeamWinner(false) != DrawWinner
  {
    assert TeamWinner(true)[0] != TeamWinner(false)[0];
    assert |TeamWinner(true)| != |DrawWinner|;
  }

  /** How many rows name `w` as the winner. */
  function CountWinner(rows: seq<DataRow>, w: string): (n: nat)
    ensures n <= |rows|
  {
    if |rows| == 0 then 0
    else CountWinner(rows[..|rows| - 1], w) + (if rows[|rows| - 1].winner == Some(w) then 1 else 0)
  }

  /** Full-time goals of one side, missing counted as zero. */
  function SumGoals(rows: seq<DataRow>, isHome: bool): nat {
    if |rows| == 0 then 0
    else SumGoals(rows[..|rows| - 1], isHome)
         + OrZero(if isHome then rows[|rows| - 1].fullTimeHome else rows[|rows| - 1].fullTimeAway)
  }

  datatype StatColumn = Attacks | ShotsTotal | ShotsOnGoal

  function SideOf(r: DataRow, isHome: bool): SideColumns {
    if isHome then r.home else r.away
  }

  function Stat(c: SideColumns, col: StatColumn): Option<nat> {
    match col
    case Attacks => c.attacks
    case ShotsTotal => c.shotsTotal
    case ShotsOnGoal => c.shotsOnGoal
  }

  function SumStat(rows: seq<DataRow>, isHome: bool, col: StatColumn): nat {
    if |rows| == 0 then 0
    else SumStat(rows[..|rows| - 1], isHome, col) + OrZero(Stat(SideOf(rows[|rows| - 1], isHome), col))
  }

  function PossessionValues(rows: seq<DataRow>, isHome: bool): (vs: seq<Option<real>>)
    ensures |vs| == |rows|
  {
    seq(|rows|, i requires 0 <= i < |rows| =>
      var p := SideOf(rows[i], isHome).ballPossession;
      if p.Some? then Some(p.value as real) else None)
  }

  /** The side aggregate of a team. */
  datatype TeamSideStats = TeamSideStats(
    gf: nat, ga: nat, mp: nat, wins: nat, draws: nat, loses: nat,
    attacks: nat, shotsTotal: nat, shotsOnGoal: nat, possession: Float)

  /** `_aggregate_stats(stats, is_home)`: goals for from the team's own full-time
      column and against from the opponent's; wins, draws and losses from the winner
      string. The results never exceed the matches, and fill them exactly when every
      row names a winner the filters know. */
  function AggregateSide(rows: seq<DataRow>, isHome: bool): (s: TeamSideStats)
    ensures s.mp == |rows|
    ensures s.gf == SumGoals(rows, isHome) && s.ga == SumGoals(rows, !isHome)
    ensures s.wins == CountWinner(rows, TeamWinner(isHome))
    ensures s.draws == CountWinner(rows, DrawWinner)
    ensures s.loses == CountWinner(rows, TeamWinner(!isHome))
    ensures s.wins + s.draws + s.loses <= s.mp
    ensures s.wins + s.draws + s.loses == s.mp <==> forall i :: 0 <= i < |rows| ==> KnownWinner(rows[i])
  {
    SideResultsAccountedFor(rows, isHome);
    TeamSideStats(
      SumGoals(rows, isHome), SumGoals(rows, !isHome), |rows|,
      CountWinner(rows, TeamWinner(isHome)), CountWinner(rows, DrawWinner), CountWinner(rows, TeamWinner(!isHome)),
      SumStat(rows, isHome, Attacks), SumStat(rows, isHome, ShotsTotal), SumStat(rows, isHome, ShotsOnGoal),
      Scale(Predictor.MeanPresent(PossessionValues(rows, isHome)), 1.0 / 100.0))
  }

  /** The winner is one of the three values the side filters look for. */
  predicate KnownWinner(r: DataRow) {
    r.winner == Some(TeamWinner(true)) || r.winner == Some(TeamWinner(false)) || r.winner == Some(DrawWinner)
  }

  /** The three filters are disjoint, so the results never exceed the matches; a row
      with any other winner value, or none, counts in the matches only. */
  lemma {:induction false} SideResultsAccountedFor(rows: seq<DataRow>, isHome: bool)
    ensures CountWinner(rows, TeamWinner(isHome)) + CountWinner(rows, DrawWinner) + CountWinner(rows, TeamWinner(!isHome))
            <= |rows|
    ensures (CountWinner(rows, TeamWinner(isHome)) + CountWinner(rows, DrawWinner) + CountWinner(rows, TeamWinner(!isHome))
             == |rows|) <==> forall i :: 0 <= i < |rows| ==> KnownWinner(rows[i])
  {
    WinnerValuesDistinct();
    if |rows| > 0 {
      var p := rows[..|rows| - 1];
      SideResultsAccountedFor(p, isHome);
      var w := rows[|rows| - 1].winner;
      assert CountWinner(rows, TeamWinner(isHome)) + CountWinner(rows, DrawWinner) + CountWinner(rows, TeamWinner(!isHome))
             == CountWinner(p, TeamWinner(isHome)) + CountWinner(p, DrawWinner) + CountWinner(p, TeamWinner(!isHome))
                + (if KnownWinner(rows[|rows| - 1]) then 1 else 0);
      assert forall i :: 0 <= i < |p| ==> p[i] == rows[i];
      assert (forall i :: 0 <= i < |rows| ==> KnownWinner(rows[i]))
             <==> (forall i :: 0 <= i < |p| ==> KnownWinner(p[i])) && KnownWinner(rows[|rows| - 1]);
    }
  }

  /** The rows where the team played at home (`side` true) or away, in order. */
  function TeamRows(rows: seq<DataRow>, teamId: int, home: bool): (r: seq<DataRow>)
    ensures |r| <= |rows|
    ensures forall i :: 0 <= i < |r| ==> (if home then r[i].homeTeamId else r[i].awayTeamId) == teamId && r[i] in rows
    ensures forall i :: 0 <= i < |rows| && (if home then rows[i].homeTeamId else rows[i].awayTeamId) == teamId ==> rows[i] in r
  {
    if |rows| == 0 then []
    else
      var p := TeamRows(rows[..|rows| - 1], teamId, home);
      var last := rows[|rows| - 1];
      if (if home then last.homeTeamId else last.awayTeamId) == teamId then p + [last] else p
  }

  /** A team's totals over both sides, with the two side aggregates. */
  datatype TeamAllStats = TeamAllStats(gf: nat, ga: nat, mp: nat, wins: nat, draws: nat, loses: nat,
                                       home: TeamSideStats, away: TeamSideStats)

  /** `_transform_data(team, matches)`: the side aggregates of the team's home and
      away rows, with totals that are their sums; the total results never exceed the
      total matches. */
  function TransformData(teamId: int, rows: seq<DataRow>): (t: TeamAllStats)
    ensures t.home == AggregateSide(TeamRows(rows, teamId, true), true)
    ensures t.away == AggregateSide(TeamRows(rows, teamId, false), false)
    ensures t.mp == |TeamRows(rows, teamId, true)| + |TeamRows(rows, teamId, false)|
    ensures t.gf == t.home.gf + t.away.gf && t.ga == t.home.ga + t.away.ga
    ensures t.wins == t.home.wins + t.away.wins && t.draws == t.home.draws + t.away.draws
    ensures t.loses == t.home.loses + t.away.loses
    ensures t.wins + t.draws + t.loses <= t.mp
  {
    var h := AggregateSide(TeamRows(rows, teamId, true), true);
    var a := AggregateSide(TeamRows(rows, teamId, false), false);
    TeamAllStats(h.gf + a.gf, h.ga + a.ga, h.mp + a.mp, h.wins + a.wins, h.draws + a.draws, h.loses + a.loses, h, a)
  }

  /** Unless a row names the team on both sides, its matches are counted at most
      once. */
  lemma {:induction false} TeamRowsDisjoint(rows: seq<DataRow>, teamId: int)
    requires forall i :: 0 <= i < |rows| ==> !(rows[i].homeTeamId == teamId && rows[i].awayTeamId == teamId)
    ensures |TeamRows(rows, teamId, true)| + |TeamRows(rows, teamId, false)| <= |rows|
  {
    if |rows| > 0 {
      var p := rows[..|rows| - 1];
      assert forall i :: 0 <= i < |p| ==> p[i] == rows[i];
      TeamRowsDisjoint(p, teamId);
    }
  }

  /** A team's win rate over all its matches. */
  function WinRate(t: TeamAllStats): (r: real)
    requires t.mp > 0
    ensures r >= 0.0 && r * t.mp as real == t.wins as real
    ensures r == 0.0 <==> t.wins == 0
  {
    t.wins as real / t.mp as real
  }

  /** Every division `_adjust_xg` performs has a non-zero divisor. */
  predicate AdjustDefined(home: TeamAllStats, away: TeamAllStats) {
    home.mp > 0 && away.mp > 0 && home.wins + away.wins > 0
  }

  /** The opaque per-team xG figures `_adjust_xg` reads: overall, and on the side the
      team plays in this fixture. */
  datatype XgInputs = XgInputs(overall: real, onSide: real)

  /** 40% of the overall xG and 60% of the own-side xG. */
  function Weighted(x: XgInputs): real {
    x.overall * 0.4 + x.onSide * 0.6
  }

  /** `_adjust_xg`: 40% overall and 60% own-side xG, scaled by `1 + adv` for the
      home team and `1 - adv` for the away team, where `adv` is the unscaled rate gap
      in [-1, 1]; the away factor is therefore in [0, 2], and it is zero exactly when
      the away team has no win. */
  function AdjustXg(home: TeamAllStats, away: TeamAllStats, homeXg: XgInputs, awayXg: XgInputs): (r: Result<(real, real)>)
    ensures r.Err? <==> !AdjustDefined(home, away)
    ensures r.Err? ==> r.error == DivisionByZero
    ensures r.Ok? ==> AdjustDefined(home, away)
    ensures r.Ok? ==>
      var adv := Predictor.RateGap(WinRate(home), WinRate(away));
      && 0.0 <= 1.0 + adv <= 2.0 && 0.0 <= 1.0 - adv <= 2.0
      && (1.0 - adv == 0.0 <==> away.wins == 0)
      && (1.0 + adv == 0.0 <==> home.wins == 0)
      && r.value.0 == Weighted(homeXg) * (1.0 + adv)
      && r.value.1 == Weighted(awayXg) * (1.0 - adv)
  {
    if !AdjustDefined(home, away) then Err(DivisionByZero)
    else
      var adv := Predictor.RateGap(WinRate(home), WinRate(away));
      Ok((Weighted(homeXg) * (1.0 + adv), Weighted(awayXg) * (1.0 - adv)))
  }

  /** `MatchPredictions`: both teams' statistics and the simulated figures. */
  datatype MatchPredictions = MatchPredictions(homeTeam: TeamAllStats, awayTeam: TeamAllStats, prediction: Simulation.Prediction)

  /** `simulate`: the adjustment, then the same tally and report as the main
      predictor on the given draws. */
  method Predict(home: TeamAllStats, away: TeamAllStats, homeXg: XgInputs, awayXg: XgInputs,
                 iterations: int, draws: seq<Simulation.Sample>)
    returns (r: Result<MatchPredictions>)
    requires |draws| == if iterations > 0 then iterations else 0
    ensures r.Err? <==> !AdjustDefined(home, away) || iterations == 0
    ensures r.Err? ==> r.error == DivisionByZero
    ensures r.Ok? ==> r.value.homeTeam == home && r.value.awayTeam == away
    ensures r.Ok? ==> Simulation.Reports(r.value.prediction, Simulation.Scores(draws), iterations)
  {
    var adjusted := AdjustXg(home, away, homeXg, awayXg);
    if adjusted.Err? {
      return Err(adjusted.error);
    }
    var p := Simulation.Simulate(iterations, draws);
    if p.Err? {
      return Err(p.error);
    }
    r := Ok(MatchPredictions(home, away, p.value));
  }
}
