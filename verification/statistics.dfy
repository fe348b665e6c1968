/** Side statistics of one team and the derived metrics computed from them, ending in
    an expected-goals (xG) estimate; and the pair of side statistics of one team. */
module Statistics {
  import opened Base
  import opened Floats

  /** The integer aggregates of a set of matches. */
  datatype Counts = Counts(
    matchesPlayed: nat,
    wins: nat,
    draws: nat,
    losses: nat,
    goalsFor: nat,
    goalsAgainst: nat,
    fouls: nat,
    shots: nat,
    shotsOffGoal: nat,
    shotsOnGoal: nat)

  /** Aggregates of one team on one side. `possession` is a fraction; `externalXg` is
      the provider's xG mean, `None` when the field is not set at all. */
  datatype TeamStatistics = TeamStatistics(counts: Counts, possession: Float, externalXg: Option<Float>)

  /** Every result is one of win, draw or loss, so together they never exceed the matches. */
  predicate ResultsWithinMatches(c: Counts) {
    c.wins + c.draws + c.losses <= c.matchesPlayed
  }

  /** Every match has a win, draw or loss recorded. */
  predicate ResultsCoverMatches(c: Counts) {
    c.wins + c.draws + c.losses == c.matchesPlayed
  }

  // ---------------------------------------------------------------------------
  // Derived metrics, in dependency order. Each divides by an aggregate; a zero there
  // is a ZeroDivisionError in Python, so it is excluded by the precondition.
  // ---------------------------------------------------------------------------

  function GoalPerMatch(c: Counts): (r: real)
    requires c.matchesPlayed > 0
    ensures r >= 0.0 && r * c.matchesPlayed as real == c.goalsFor as real
  {
    c.goalsFor as real / c.matchesPlayed as real
  }

  function ShotPerMatch(c: Counts): (r: real)
    requires c.matchesPlayed > 0
    ensures r >= 0.0 && r * c.matchesPlayed as real == c.shots as real
  {
    c.shots as real / c.matchesPlayed as real
  }

  function ShotsOnGoalPerMatch(c: Counts): (r: real)
    requires c.matchesPlayed > 0
    ensures r >= 0.0 && r * c.matchesPlayed as real == c.shotsOnGoal as real
  {
    c.shotsOnGoal as real / c.matchesPlayed as real
  }

  function ShotsOnGoalForGoal(c: Counts): (r: real)
    requires c.goalsFor > 0
    ensures r >= 0.0 && r * c.goalsFor as real == c.shotsOnGoal as real
  {
    c.shotsOnGoal as real / c.goalsFor as real
  }

  /** The share of shots that were on target: a fraction whenever the on-target shots
      are among the shots. */
  function ShotAccuracy(c: Counts): (r: real)
    requires c.shots > 0
    ensures r >= 0.0 && r * c.shots as real == c.shotsOnGoal as real
    ensures c.shotsOnGoal <= c.shots ==> r <= 1.0
  {
    c.shotsOnGoal as real / c.shots as real
  }

  function ShotQuality(c: Counts): (r: real)
    requires c.shotsOnGoal > 0
    ensures r >= 0.0 && r * c.shotsOnGoal as real == c.goalsFor as real
  {
    c.goalsFor as real / c.shotsOnGoal as real
  }

  /** On-target shots per goal and goals per on-target shot are reciprocals. */
  lemma ShotMetricsReciprocal(c: Counts)
    requires c.goalsFor > 0 && c.shotsOnGoal > 0
    ensures ShotsOnGoalForGoal(c) * ShotQuality(c) == 1.0
  {
    var a, b := ShotsOnGoalForGoal(c), ShotQuality(c);
    var g, o := c.goalsFor as real, c.shotsOnGoal as real;
    var x, y := a * g, b * o;
    assert x == o && y == g;
    assert (a * b) * (g * o) == x * y;
    assert (a * b - 1.0) * (g * o) == 0.0;
  }

  function AttackEfficiencyRatio(c: Counts): (r: real)
    requires c.matchesPlayed > 0
    ensures r >= 0.0
    ensures r * 100.0 * c.matchesPlayed as real == c.goalsFor as real * c.goalsFor as real
  {
    (c.goalsFor as real * GoalPerMatch(c)) / 100.0
  }

  /** Every denominator of the metric chain that leads to xG is positive. */
  predicate ChainDefined(c: Counts) {
    c.matchesPlayed > 0 && c.goalsFor > 0 && c.shots > 0 && c.shotsOnGoal > 0
  }

  /** The goal probability per shot collapses to a closed form in the aggregates:
      shots^2 * goals^2 / (100 * matches * onTarget^3). */
  function ProbabilityOfGoalPerShot(c: Counts): (r: real)
    requires ChainDefined(c)
    ensures r > 0.0
    ensures r * 100.0 * c.matchesPlayed as real * Cube(c.shotsOnGoal as real)
            == (c.shots as real * c.shots as real) * (c.goalsFor as real * c.goalsFor as real)
  {
    var a := ShotPerMatch(c) * ShotQuality(c);
    var b := ShotsOnGoalForGoal(c) * ShotAccuracy(c);
    ProbabilityClosedForm(c, a, b);
    (a / b) / 100.0
  }

  function Cube(x: real): real {
    x * x * x
  }

  lemma ProbabilityClosedForm(c: Counts, a: real, b: real)
    requires ChainDefined(c)
    requires a == ShotPerMatch(c) * ShotQuality(c)
    requires b == ShotsOnGoalForGoal(c) * ShotAccuracy(c)
    ensures b > 0.0 && a > 0.0
    ensures ((a / b) / 100.0) * 100.0 * c.matchesPlayed as real * Cube(c.shotsOnGoal as real)
            == (c.shots as real * c.shots as real) * (c.goalsFor as real * c.goalsFor as real)
  {
    var m, g, s, o := c.matchesPlayed as real, c.goalsFor as real, c.shots as real, c.shotsOnGoal as real;
    var spm, sq, sfg, acc := ShotPerMatch(c), ShotQuality(c), ShotsOnGoalForGoal(c), ShotAccuracy(c);
    RatesMultiply(spm, sq, m, o, s, g);
    RatesMultiply(sfg, acc, g, s, o, o);
    QuotientClosedForm(a, b, m, g, s, o);
  }

  /** Two positive rates, each a numerator over a positive denominator, multiply to
      the product of the numerators over the product of the denominators. */
  lemma RatesMultiply(r1: real, r2: real, d1: real, d2: real, n1: real, n2: real)
    requires d1 > 0.0 && d2 > 0.0 && n1 > 0.0 && n2 > 0.0
    requires r1 * d1 == n1 && r2 * d2 == n2
    ensures r1 * r2 > 0.0
    ensures (r1 * r2) * (d1 * d2) == n1 * n2
  {
    assert r1 > 0.0 && r2 > 0.0;
    assert (r1 * r2) * (d1 * d2) == (r1 * d1) * (r2 * d2);
  }

  /** The ratio of the two rate products, once the factor 100 is undone. */
  lemma QuotientClosedForm(a: real, b: real, m: real, g: real, s: real, o: real)
    requires b > 0.0
    requires a * (m * o) == s * g && b * (g * s) == o * o
    ensures ((a / b) / 100.0) * 100.0 * m * Cube(o) == (s * s) * (g * g)
  {
    var q := a / b;
    assert q * b == a;
    calc {
      (q / 100.0) * 100.0 * m * Cube(o);
      q * m * o * (o * o);
      q * m * o * (b * (g * s));
      (q * b) * (m * o) * (g * s);
      a * (m * o) * (g * s);
      (s * g) * (g * s);
    }
  }

  // ---------------------------------------------------------------------------
  // xG. `exp2` and `ln` stand for math.exp2 and math.log, left uninterpreted.
  // ---------------------------------------------------------------------------

  /** The constant that replaces the external xG when the field is `None`. */
  const FallbackExternalXg: real := 1.3

  /** The xG estimate before the blend with the external signal. */
  function RawXg(c: Counts, possession: real, exp2: real -> real): real
    requires ChainDefined(c)
  {
    var xgPerShot := (c.shotsOnGoal as real * ProbabilityOfGoalPerShot(c)) / c.matchesPlayed as real;
    var possessionWeight := 1.0 + (possession - 0.5);
    var accuracyWeight := 1.0 + (ShotAccuracy(c) - 0.3);
    var multipleGoal := (ShotsOnGoalPerMatch(c) * ShotsOnGoalForGoal(c)) * (GoalPerMatch(c) - 1.0) / 100.0;
    exp2(xgPerShot * accuracyWeight + AttackEfficiencyRatio(c) * possessionWeight) * (1.0 + multipleGoal)
  }

  /** `xg * (1 - ln xg) + external * ln xg`. */
  function Blend(raw: real, lnRaw: real, external: real): real {
    raw * (1.0 - lnRaw) + external * lnRaw
  }

  /** TeamStatistics.xg: fails on any zero denominator of the chain; NaN when the
      possession mean or an external xG that is set is NaN; otherwise the blend, rounded
      to two decimals. */
  function Xg(t: TeamStatistics, exp2: real -> real, ln: real -> real): (r: Result<Float>)
    ensures r.Err? <==> !ChainDefined(t.counts)
    ensures r.Err? ==> r.error == DivisionByZero
    ensures r.Ok? ==> (r.value.NaN? <==> t.possession.NaN? || t.externalXg == Some(NaN))
    ensures r.Ok? && r.value.Finite? ==> IsCents(r.value.v)
    ensures r.Ok? && r.value.Finite? ==>
      var raw := RawXg(t.counts, t.possession.v, exp2);
      var external := if t.externalXg.Some? then t.externalXg.value.v else FallbackExternalXg;
      -0.005 <= Blend(raw, ln(raw), external) - r.value.v <= 0.005
  {
    if !ChainDefined(t.counts) then Err(DivisionByZero)
    else if t.possession.NaN? then Ok(NaN)
    else
      var raw := RawXg(t.counts, t.possession.v, exp2);
      match t.externalXg
      case None => Ok(Finite(Round2(Blend(raw, ln(raw), FallbackExternalXg))))
      case Some(NaN) => Ok(NaN)
      case Some(Finite(e)) => Ok(Finite(Round2(Blend(raw, ln(raw), e))))
  }

  /** The two branches of the blend differ only in the constant: an absent external
      xG behaves exactly like an external xG of 1.3. */
  lemma FallbackIsConstantExternal(t: TeamStatistics, exp2: real -> real, ln: real -> real)
    requires t.externalXg.None?
    ensures Xg(t, exp2, ln) == Xg(t.(externalXg := Some(Finite(FallbackExternalXg))), exp2, ln)
  {
  }

  // ---------------------------------------------------------------------------
  // Global statistics: the home-side and away-side statistics of one team.
  // ---------------------------------------------------------------------------

  datatype GlobalStatistics = GlobalStatistics(home: TeamStatistics, away: TeamStatistics)

  function AddCounts(a: Counts, b: Counts): Counts {
    Counts(a.matchesPlayed + b.matchesPlayed, a.wins + b.wins, a.draws + b.draws,
           a.losses + b.losses, a.goalsFor + b.goalsFor, a.goalsAgainst + b.goalsAgainst,
           a.fouls + b.fouls, a.shots + b.shots, a.shotsOffGoal + b.shotsOffGoal,
           a.shotsOnGoal + b.shotsOnGoal)
  }

  /** The team totals: every count field is the home value plus the away value. */
  function Totals(g: GlobalStatistics): Counts {
    AddCounts(g.home.counts, g.away.counts)
  }

  /** Summing the two sides keeps the result bookkeeping sound, and exact when it was
      exact on both sides. */
  lemma TotalsKeepResultBound(g: GlobalStatistics)
    ensures ResultsWithinMatches(g.home.counts) && ResultsWithinMatches(g.away.counts)
            ==> ResultsWithinMatches(Totals(g))
    ensures ResultsCoverMatches(g.home.counts) && ResultsCoverMatches(g.away.counts)
            ==> ResultsCoverMatches(Totals(g))
    ensures Totals(g).matchesPlayed >= g.home.counts.matchesPlayed
    ensures Totals(g).matchesPlayed >= g.away.counts.matchesPlayed
  {
  }

  /** GlobalStatistics.possession adds the two side fractions; it is not their mean. */
  function GlobalPossession(g: GlobalStatistics): (r: Float)
    ensures r.Finite? <==> g.home.possession.Finite? && g.away.possession.Finite?
    ensures r.Finite? && 0.0 <= g.home.possession.v <= 1.0 && 0.0 <= g.away.possession.v <= 1.0
            ==> 0.0 <= r.v <= 2.0
  {
    Add(g.home.possession, g.away.possession)
  }

  /** Two ordinary side possessions whose total is above one. */
  lemma GlobalPossessionCanExceedOne(c: Counts)
    ensures var g := GlobalStatistics(TeamStatistics(c, Finite(0.6), None),
                                      TeamStatistics(c, Finite(0.55), None));
            GlobalPossession(g) == Finite(1.15)
  {
  }

  /** GlobalStatistics.xg, the mean of the two side xGs: it fails when either side
      does, and a finite value lies between the two side values. */
  function GlobalXg(g: GlobalStatistics, exp2: real -> real, ln: real -> real): (r: Result<Float>)
    ensures r.Err? <==> !ChainDefined(g.home.counts) || !ChainDefined(g.away.counts)
    ensures r.Ok? ==> (r.value.Finite? <==> Xg(g.home, exp2, ln).value.Finite? && Xg(g.away, exp2, ln).value.Finite?)
    ensures r.Ok? && r.value.Finite? ==>
      var h, a := Xg(g.home, exp2, ln).value.v, Xg(g.away, exp2, ln).value.v;
      (h <= r.value.v <= a || a <= r.value.v <= h) && r.value.v - h == a - r.value.v
  {
    match Xg(g.home, exp2, ln)
    case Err(e) => Err(e)
    case Ok(h) =>
      match Xg(g.away, exp2, ln)
      case Err(e) => Err(e)
      case Ok(a) => Ok(Scale(Add(h, a), 0.5))
  }
}
