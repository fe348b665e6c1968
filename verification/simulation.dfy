/** The Monte Carlo tally and report shared by both predictors: raw Poisson draws come
    in as a sequence, are clamped to `MaxGoals`, and are counted by outcome, by "both
    teams score", by below/over a half-goal threshold in three scopes, and by exact
    score; the counts are reported as rounded percentages of the iteration count. */
module Simulation {
  import opened Base
  import opened Floats
  import Ranking

  /** The most goals one side is credited with in one simulated match. */
  const MaxGoals: nat := 5

  /** The thresholds are `k + 0.5` for `k` below this bound: 0.5, 1.5, 2.5, 3.5. */
  const ThresholdCount: nat := 4

  function Threshold(k: nat): real {
    k as real + 0.5
  }

  /** One pair of raw Poisson draws, before clamping. */
  datatype Sample = Sample(home: nat, away: nat)

  /** The goals of one simulated match. */
  datatype Score = Score(home: nat, away: nat)

  /** `min(goals, MAX_GOALS)`. */
  function Clamp(g: nat): (c: nat)
    ensures c <= MaxGoals && c <= g
    ensures g <= MaxGoals ==> c == g
    ensures g >= MaxGoals ==> c == MaxGoals
  {
    if g < MaxGoals then g else MaxGoals
  }

  /** The score of every iteration, in draw order: no side has more than `MaxGoals`,
      a draw within the cap is kept as drawn, and a larger one becomes the cap. */
  function Scores(draws: seq<Sample>): (ss: seq<Score>)
    ensures |ss| == |draws|
    ensures forall i :: 0 <= i < |ss| ==> ss[i].home <= MaxGoals && ss[i].away <= MaxGoals
    ensures forall i :: 0 <= i < |ss| ==>
      (draws[i].home <= MaxGoals ==> ss[i].home == draws[i].home) && (draws[i].away <= MaxGoals ==> ss[i].away == draws[i].away)
    ensures forall i :: 0 <= i < |ss| ==>
      (draws[i].home >= MaxGoals ==> ss[i].home == MaxGoals) && (draws[i].away >= MaxGoals ==> ss[i].away == MaxGoals)
  {
    seq(|draws|, i requires 0 <= i < |draws| => Score(Clamp(draws[i].home), Clamp(draws[i].away)))
  }

  datatype Outcome = HomeWin | Draw | AwayWin

  /** Home win when the home side scores more, draw on equal goals, away win otherwise. */
  function Classify(s: Score): (o: Outcome)
    ensures o == HomeWin <==> s.home > s.away
    ensures o == Draw <==> s.home == s.away
    ensures o == AwayWin <==> s.home < s.away
  {
    if s.home > s.away then HomeWin
    else if s.home == s.away then Draw
    else AwayWin
  }

  /** Which goals a threshold is compared with: the match total, or one side's. */
  datatype Scope = Total | HomeSide | AwaySide

  function Goals(scope: Scope, s: Score): nat {
    match scope
    case Total => s.home + s.away
    case HomeSide => s.home
    case AwaySide => s.away
  }

  /** What one iteration can be counted for. */
  datatype Event =
    | OutcomeIs(outcome: Outcome)
    | BothScore
    | Below(scope: Scope, k: nat)
    | Over(scope: Scope, k: nat)

  predicate Holds(e: Event, s: Score) {
    match e
    case OutcomeIs(o) => Classify(s) == o
    case BothScore => s.home > 0 && s.away > 0
    case Below(scope, k) => (Goals(scope, s) as real) < Threshold(k)
    case Over(scope, k) => (Goals(scope, s) as real) > Threshold(k)
  }

  /** Below `k + 0.5` means at most `k` goals, over it means more than `k`. */
  lemma BelowAndOverAreWhole(scope: Scope, k: nat, s: Score)
    ensures Holds(Below(scope, k), s) <==> Goals(scope, s) <= k
    ensures Holds(Over(scope, k), s) <==> Goals(scope, s) > k
  {
  }

  /** How many of the scores the event holds for. */
  function Count(ss: seq<Score>, e: Event): (n: nat)
    ensures n <= |ss|
  {
    if |ss| == 0 then 0
    else Count(ss[..|ss| - 1], e) + (if Holds(e, ss[|ss| - 1]) then 1 else 0)
  }

  /** Counting one more score adds one exactly when the event holds for it. */
  lemma CountStep(ss: seq<Score>, i: nat, e: Event)
    requires i < |ss|
    ensures Count(ss[..i + 1], e) == Count(ss[..i], e) + (if Holds(e, ss[i]) then 1 else 0)
  {
    assert ss[..i + 1][..i] == ss[..i];
  }

  /** Counting distributes over concatenation. */
  lemma {:induction false} CountAppend(a: seq<Score>, b: seq<Score>, e: Event)
    ensures Count(a + b, e) == Count(a, e) + Count(b, e)
    decreases |b|
  {
    if |b| == 0 {
      assert a + b == a;
    } else {
      var b' := b[..|b| - 1];
      assert (a + b)[..|a + b| - 1] == a + b';
      assert (a + b)[|a + b| - 1] == b[|b| - 1];
      CountAppend(a, b', e);
    }
  }

  /** An event implied by another is counted at least as often. */
  lemma {:induction false} CountImplied(ss: seq<Score>, e: Event, f: Event)
    requires forall s :: Holds(e, s) ==> Holds(f, s)
    ensures Count(ss, e) <= Count(ss, f)
  {
    if |ss| > 0 {
      CountImplied(ss[..|ss| - 1], e, f);
    }
  }

  /** When exactly one of two events holds for every score, their counts add up to
      the number of scores. */
  lemma {:induction false} CountComplement(ss: seq<Score>, e: Event, f: Event)
    requires forall s :: Holds(e, s) != Holds(f, s)
    ensures Count(ss, e) + Count(ss, f) == |ss|
  {
    if |ss| > 0 {
      CountComplement(ss[..|ss| - 1], e, f);
    }
  }

  /** Each iteration is exactly one of home win, draw and away win. */
  lemma {:induction false} OutcomesPartition(ss: seq<Score>)
    ensures Count(ss, OutcomeIs(HomeWin)) + Count(ss, OutcomeIs(Draw)) + Count(ss, OutcomeIs(AwayWin)) == |ss|
  {
    if |ss| > 0 {
      OutcomesPartition(ss[..|ss| - 1]);
    }
  }

  /** Every iteration is either below or over a half-goal threshold. */
  lemma BelowOverPartition(ss: seq<Score>, scope: Scope, k: nat)
    ensures Count(ss, Below(scope, k)) + Count(ss, Over(scope, k)) == |ss|
  {
    CountComplement(ss, Below(scope, k), Over(scope, k));
  }

  /** Both teams scoring implies each side is over 0.5. */
  lemma BothScoreWithinEachSide(ss: seq<Score>)
    ensures Count(ss, BothScore) <= Count(ss, Over(HomeSide, 0))
    ensures Count(ss, BothScore) <= Count(ss, Over(AwaySide, 0))
  {
    CountImplied(ss, BothScore, Over(HomeSide, 0));
    CountImplied(ss, BothScore, Over(AwaySide, 0));
  }

  /** A higher threshold is below at least as often and over at most as often. */
  lemma ThresholdsMonotone(ss: seq<Score>, scope: Scope, k: nat, l: nat)
    requires k <= l
    ensures Count(ss, Below(scope, k)) <= Count(ss, Below(scope, l))
    ensures Count(ss, Over(scope, k)) >= Count(ss, Over(scope, l))
  {
    CountImplied(ss, Below(scope, k), Below(scope, l));
    CountImplied(ss, Over(scope, l), Over(scope, k));
  }

  /** After clamping no side is ever over `MaxGoals + 0.5`... */
  lemma {:induction false} ClampedNeverOverMax(draws: seq<Sample>, scope: Scope)
    requires scope != Total
    ensures Count(Scores(draws), Over(scope, MaxGoals)) == 0
  {
    NeverOver(Scores(draws), scope);
  }

  /** ...because a clamped score has at most `MaxGoals` per side. */
  lemma {:induction false} NeverOver(ss: seq<Score>, scope: Scope)
    requires forall i :: 0 <= i < |ss| ==> ss[i].home <= MaxGoals && ss[i].away <= MaxGoals
    requires scope != Total
    ensures Count(ss, Over(scope, MaxGoals)) == 0
  {
    if |ss| > 0 {
      NeverOver(ss[..|ss| - 1], scope);
    }
  }

  /** The six tallies of one threshold. */
  datatype Level = Level(totalBelow: nat, totalOver: nat, homeBelow: nat, homeOver: nat, awayBelow: nat, awayOver: nat)

  /** What the tallies of threshold `k + 0.5` are meant to be after the scores `ss`. */
  function LevelOf(ss: seq<Score>, k: nat): Level {
    Level(Count(ss, Below(Total, k)), Count(ss, Over(Total, k)),
          Count(ss, Below(HomeSide, k)), Count(ss, Over(HomeSide, k)),
          Count(ss, Below(AwaySide, k)), Count(ss, Over(AwaySide, k)))
  }

  /** Adding one score to the tallies of threshold `k + 0.5`. */
  function AddToLevel(l: Level, s: Score, k: nat): Level {
    Level(l.totalBelow + (if Holds(Below(Total, k), s) then 1 else 0),
          l.totalOver + (if Holds(Over(Total, k), s) then 1 else 0),
          l.homeBelow + (if Holds(Below(HomeSide, k), s) then 1 else 0),
          l.homeOver + (if Holds(Over(HomeSide, k), s) then 1 else 0),
          l.awayBelow + (if Holds(Below(AwaySide, k), s) then 1 else 0),
          l.awayOver + (if Holds(Over(AwaySide, k), s) then 1 else 0))
  }

  lemma LevelStep(ss: seq<Score>, i: nat, k: nat)
    requires i < |ss|
    ensures LevelOf(ss[..i + 1], k) == AddToLevel(LevelOf(ss[..i], k), ss[i], k)
  {
    CountStep(ss, i, Below(Total, k));
    CountStep(ss, i, Over(Total, k));
    CountStep(ss, i, Below(HomeSide, k));
    CountStep(ss, i, Over(HomeSide, k));
    CountStep(ss, i, Below(AwaySide, k));
    CountStep(ss, i, Over(AwaySide, k));
  }

  /** Everything the loop over the iterations accumulates. */
  datatype Tally = Tally(homeWin: nat, draw: nat, awayWin: nat, btts: nat, levels: seq<Level>, scores: seq<Score>)

  /** The loop of `simulate`: one pass over the draws, and for each one a pass over
      the thresholds. */
  method Run(draws: seq<Sample>) returns (t: Tally)
    ensures Accumulates(t, Scores(draws))
  {
    var ss := Scores(draws);
    var homeWin, draw, awayWin, btts := 0, 0, 0, 0;
    var levels := seq(ThresholdCount, k => Level(0, 0, 0, 0, 0, 0));
    var scores: seq<Score> := [];
    var i := 0;
    while i < |draws|
      invariant i <= |draws|
      invariant scores == ss[..i]
      invariant homeWin == Count(ss[..i], OutcomeIs(HomeWin))
      invariant draw == Count(ss[..i], OutcomeIs(Draw))
      invariant awayWin == Count(ss[..i], OutcomeIs(AwayWin))
      invariant btts == Count(ss[..i], BothScore)
      invariant |levels| == ThresholdCount
      invariant forall k :: 0 <= k < ThresholdCount ==> levels[k] == LevelOf(ss[..i], k)
    {
      var s := Score(Clamp(draws[i].home), Clamp(draws[i].away));
      assert s == ss[i];
      CountStep(ss, i, OutcomeIs(HomeWin));
      CountStep(ss, i, OutcomeIs(Draw));
      CountStep(ss, i, OutcomeIs(AwayWin));
      CountStep(ss, i, BothScore);
      if s.home > s.away {
        homeWin := homeWin + 1;
      } else if s.home == s.away {
        draw := draw + 1;
      } else {
        awayWin := awayWin + 1;
      }
      btts := btts + if s.home > 0 && s.away > 0 then 1 else 0;
      var k := 0;
      while k < ThresholdCount
        invariant k <= ThresholdCount
        invariant |levels| == ThresholdCount
        invariant forall j :: 0 <= j < k ==> levels[j] == LevelOf(ss[..i + 1], j)
        invariant forall j :: k <= j < ThresholdCount ==> levels[j] == LevelOf(ss[..i], j)
      {
        LevelStep(ss, i, k);
        levels := levels[k := AddToLevel(levels[k], s, k)];
        k := k + 1;
      }
      scores := scores + [s];
      i := i + 1;
    }
    assert ss[..i] == ss;
    t := Tally(homeWin, draw, awayWin, btts, levels, scores);
  }

  /** `round((count / iterations) * 100)` on exact rationals. */
  function Percent(count: nat, iterations: int): (p: int)
    requires iterations != 0
    ensures -0.5 <= count as real / iterations as real * 100.0 - p as real <= 0.5
    ensures 0 < iterations && count <= iterations ==> 0 <= p <= 100
    ensures iterations < 0 && count == 0 ==> p == 0
  {
    var x := count as real / iterations as real * 100.0;
    assert 0 < iterations && count <= iterations ==> 0.0 <= x <= 100.0 by {
      if 0 < iterations && count <= iterations {
        ShareAtMostOne(count as real, iterations as real);
      }
    }
    RoundHalfEven(x)
  }

  /** A part of a positive whole is at most one whole. */
  lemma ShareAtMostOne(part: real, whole: real)
    requires 0.0 < whole && part <= whole
    ensures part / whole <= 1.0
  {
  }

  /** Shares of the same whole add up as their parts do. */
  lemma SharesAdd(x: real, y: real, n: real)
    requires n != 0.0
    ensures x / n + y / n == (x + y) / n
  {
    assert (x / n) * n == x;
    assert (y / n) * n == y;
    assert (x / n + y / n) * n == x + y;
  }

  /** A larger count never gives a smaller percentage. */
  lemma PercentMonotone(c: nat, d: nat, iterations: int)
    requires 0 < iterations && c <= d
    ensures Percent(c, iterations) <= Percent(d, iterations)
  {
    var x := c as real / iterations as real * 100.0;
    var y := d as real / iterations as real * 100.0;
    assert x <= y;
    RoundHalfEvenMonotone(x, y);
  }

  /** Two counts that split the iterations give percentages that add up to 100 give
      or take one: each rounding is off by at most one half. */
  lemma PercentsOfSplit(c: nat, d: nat, iterations: int)
    requires 0 < iterations && c + d == iterations
    ensures 99 <= Percent(c, iterations) + Percent(d, iterations) <= 101
  {
    var n := iterations as real;
    assert c as real / n * 100.0 + d as real / n * 100.0 == 100.0 by {
      SharesAdd(c as real, d as real, n);
      assert (c + d) as real / n == 1.0;
    }
  }

  /** Three counts that split the iterations give percentages that add up to
      between 99 and 101. */
  lemma PercentsOfThreeWaySplit(a: nat, b: nat, c: nat, iterations: int)
    requires 0 < iterations && a + b + c == iterations
    ensures 99 <= Percent(a, iterations) + Percent(b, iterations) + Percent(c, iterations) <= 101
  {
    var n := iterations as real;
    assert a as real / n * 100.0 + b as real / n * 100.0 + c as real / n * 100.0 == 100.0 by {
      SharesAdd(a as real, b as real, n);
      SharesAdd((a + b) as real, c as real, n);
    }
  }

  datatype ThresholdGoal = ThresholdGoal(threshold: real, below: int, over: int)

  /** An exact score with its rounded percentage. */
  datatype ExactScore = ExactScore(score: Score, probability: int)

  datatype Prediction = Prediction(
    homeWin: int, draw: int, awayWin: int, btts: int,
    globalThresholds: seq<ThresholdGoal>,
    homeThresholds: seq<ThresholdGoal>,
    awayThresholds: seq<ThresholdGoal>,
    exactScores: seq<ExactScore>)

  /** One scope's threshold list, in ascending threshold order. */
  function Thresholds(levels: seq<Level>, iterations: int, scope: Scope): (ts: seq<ThresholdGoal>)
    requires iterations != 0
    ensures |ts| == |levels|
    ensures forall k :: 0 <= k < |ts| ==> ts[k].threshold == Threshold(k)
    ensures forall k :: 0 <= k < |ts| ==> ts[k].below == Percent(BelowOf(levels[k], scope), iterations)
    ensures forall k :: 0 <= k < |ts| ==> ts[k].over == Percent(OverOf(levels[k], scope), iterations)
  {
    seq(|levels|, k requires 0 <= k < |levels| =>
      ThresholdGoal(Threshold(k), Percent(BelowOf(levels[k], scope), iterations), Percent(OverOf(levels[k], scope), iterations)))
  }

  function BelowOf(l: Level, scope: Scope): nat {
    match scope
    case Total => l.totalBelow
    case HomeSide => l.homeBelow
    case AwaySide => l.awayBelow
  }

  function OverOf(l: Level, scope: Scope): nat {
    match scope
    case Total => l.totalOver
    case HomeSide => l.homeOver
    case AwaySide => l.awayOver
  }

  /** `Counter(exact_scores).most_common()[:3]`, each with its percentage: at most
      three different scores that all occurred, with percentages that never rise
      along the list. */
  function ExactScores(ss: seq<Score>, iterations: int): (es: seq<ExactScore>)
    requires iterations != 0
    ensures |es| == |Ranking.MostCommon(ss, 3)| <= 3
    ensures forall i :: 0 <= i < |es| ==> es[i].score == Ranking.MostCommon(ss, 3)[i]
    ensures forall i :: 0 <= i < |es| ==> es[i].score in ss
    ensures forall i, j :: 0 <= i < j < |es| ==> es[i].score != es[j].score
    ensures forall i :: 0 <= i < |es| ==> es[i].probability == Percent(Ranking.Occurrences(ss, es[i].score), iterations)
    ensures iterations > 0 ==> forall i, j :: 0 <= i < j < |es| ==> es[j].probability <= es[i].probability
  {
    var top := Ranking.MostCommon(ss, 3);
    RankedPercents(ss, top, iterations);
    seq(|top|, i requires 0 <= i < |top| => ExactScore(top[i], Percent(Ranking.Occurrences(ss, top[i]), iterations)))
  }

  /** Scores ranked by count get percentages that never rise along the ranking, when
      the iterations are positive. */
  lemma RankedPercents(ss: seq<Score>, top: seq<Score>, iterations: int)
    requires iterations != 0 && top == Ranking.MostCommon(ss, 3)
    ensures 0 < iterations ==> forall i, j :: 0 <= i < j < |top| ==>
      Percent(Ranking.Occurrences(ss, top[j]), iterations) <= Percent(Ranking.Occurrences(ss, top[i]), iterations)
  {
    forall i, j | 0 < iterations && 0 <= i < j < |top|
      ensures Percent(Ranking.Occurrences(ss, top[j]), iterations) <= Percent(Ranking.Occurrences(ss, top[i]), iterations)
    {
      PercentMonotone(Ranking.Occurrences(ss, top[j]), Ranking.Occurrences(ss, top[i]), iterations);
    }
  }

  /** The report of `simulate`, from the tallies. */
  function Report(t: Tally, iterations: int): (p: Prediction)
    requires iterations != 0
  {
    Prediction(
      Percent(t.homeWin, iterations), Percent(t.draw, iterations),
      Percent(t.awayWin, iterations), Percent(t.btts, iterations),
      Thresholds(t.levels, iterations, Total),
      Thresholds(t.levels, iterations, HomeSide),
      Thresholds(t.levels, iterations, AwaySide),
      ExactScores(t.scores, iterations))
  }

  /** Every figure of the report is the percentage of iterations it counts. */
  predicate Reports(p: Prediction, ss: seq<Score>, iterations: int)
    requires iterations != 0
  {
    && p.homeWin == Percent(Count(ss, OutcomeIs(HomeWin)), iterations)
    && p.draw == Percent(Count(ss, OutcomeIs(Draw)), iterations)
    && p.awayWin == Percent(Count(ss, OutcomeIs(AwayWin)), iterations)
    && p.btts == Percent(Count(ss, BothScore), iterations)
    && ThresholdsReport(p.globalThresholds, ss, iterations, Total)
    && ThresholdsReport(p.homeThresholds, ss, iterations, HomeSide)
    && ThresholdsReport(p.awayThresholds, ss, iterations, AwaySide)
    && |p.exactScores| == |Ranking.MostCommon(ss, 3)|
    && (forall i :: 0 <= i < |p.exactScores| ==> p.exactScores[i].score == Ranking.MostCommon(ss, 3)[i])
    && (forall i :: 0 <= i < |p.exactScores| ==>
          p.exactScores[i].probability == Percent(Ranking.Occurrences(ss, p.exactScores[i].score), iterations))
  }

  /** The list for one scope has the four thresholds in ascending order, each with
      its below and over percentages. */
  predicate ThresholdsReport(ts: seq<ThresholdGoal>, ss: seq<Score>, iterations: int, scope: Scope)
    requires iterations != 0
  {
    && |ts| == ThresholdCount
    && (forall k :: 0 <= k < ThresholdCount ==> ts[k].threshold == Threshold(k))
    && (forall k :: 0 <= k < ThresholdCount ==> ts[k].below == Percent(Count(ss, Below(scope, k)), iterations))
    && (forall k :: 0 <= k < ThresholdCount ==> ts[k].over == Percent(Count(ss, Over(scope, k)), iterations))
  }

  /** `simulate(iterations)` with the random draws given, each exact score built as
      an `ExactScore` of its score and percentage, as the report's `exact_score`
      field declares: a division by zero for no iterations; otherwise every figure
      is the rounded percentage of its count over the clamped scores. A negative
      iteration count runs no iteration and reports zero everywhere. */
  method Simulate(iterations: int, draws: seq<Sample>) returns (r: Result<Prediction>)
    requires |draws| == if iterations > 0 then iterations else 0
    ensures r.Err? <==> iterations == 0
    ensures r.Err? ==> r.error == DivisionByZero
    ensures r.Ok? ==> Reports(r.value, Scores(draws), iterations)
    ensures r.Ok? && iterations < 0 ==> r.value == Prediction(0, 0, 0, 0, NoneAt, NoneAt, NoneAt, [])
  {
    var t := Run(draws);
    if iterations == 0 {
      return Err(DivisionByZero);
    }
    r := Ok(Report(t, iterations));
    ReportReports(t, iterations);
    if iterations < 0 {
      ReportOfNothing(t, iterations);
    }
  }

  /** The exact-score list is empty exactly when nothing was simulated. */
  lemma ExactScoresNonEmpty(ss: seq<Score>, iterations: int)
    requires iterations != 0
    ensures |ExactScores(ss, iterations)| > 0 <==> |ss| > 0
  {
    Ranking.MostCommonNonEmpty(ss, 3);
  }

  /** `simulate(iterations)` as written: each exact score reaches the report as a
      one-entry dict `{"h-a": pct}`, which has neither field of `ExactScore`, so the
      validation of the report rejects any non-empty exact-score list. Every run of
      at least one iteration has one, so only a negative count, which runs nothing,
      returns a report. */
  method SimulateAsWritten(iterations: int, draws: seq<Sample>) returns (r: Result<Prediction>)
    requires |draws| == if iterations > 0 then iterations else 0
    ensures iterations == 0 ==> r == Err(DivisionByZero)
    ensures iterations > 0 ==> r == Err(InvalidExactScore)
    ensures iterations < 0 ==> r == Ok(Prediction(0, 0, 0, 0, NoneAt, NoneAt, NoneAt, []))
  {
    r := Simulate(iterations, draws);
    if r.Ok? {
      Ranking.MostCommonNonEmpty(Scores(draws), 3);
      if |r.value.exactScores| > 0 {
        r := Err(InvalidExactScore);
      }
    }
  }

  /** What `Run` accumulates over the scores `ss`. */
  predicate Accumulates(t: Tally, ss: seq<Score>) {
    && t.scores == ss
    && t.homeWin == Count(ss, OutcomeIs(HomeWin))
    && t.draw == Count(ss, OutcomeIs(Draw))
    && t.awayWin == Count(ss, OutcomeIs(AwayWin))
    && t.btts == Count(ss, BothScore)
    && |t.levels| == ThresholdCount
    && (forall k :: 0 <= k < ThresholdCount ==> t.levels[k] == LevelOf(ss, k))
  }

  /** The report of complete tallies reports the counts. */
  lemma ReportReports(t: Tally, iterations: int)
    requires iterations != 0 && Accumulates(t, t.scores)
    ensures Reports(Report(t, iterations), t.scores, iterations)
  {
    ThresholdsOfTallies(t, iterations, Total);
    ThresholdsOfTallies(t, iterations, HomeSide);
    ThresholdsOfTallies(t, iterations, AwaySide);
  }

  /** One scope's threshold list of complete tallies reports that scope's counts. */
  lemma ThresholdsOfTallies(t: Tally, iterations: int, scope: Scope)
    requires iterations != 0 && Accumulates(t, t.scores)
    ensures ThresholdsReport(Thresholds(t.levels, iterations, scope), t.scores, iterations, scope)
  {
    var ts := Thresholds(t.levels, iterations, scope);
    forall k | 0 <= k < ThresholdCount
      ensures ts[k].below == Percent(Count(t.scores, Below(scope, k)), iterations)
      ensures ts[k].over == Percent(Count(t.scores, Over(scope, k)), iterations)
    {
      assert t.levels[k] == LevelOf(t.scores, k);
    }
  }

  /** With no iteration run every figure is zero and there is no exact score. */
  lemma ReportOfNothing(t: Tally, iterations: int)
    requires iterations < 0 && Accumulates(t, [])
    ensures Report(t, iterations) == Prediction(0, 0, 0, 0, NoneAt, NoneAt, NoneAt, [])
  {
    assert Ranking.Distinct(t.scores) == [];
    forall scope: Scope
      ensures Thresholds(t.levels, iterations, scope) == NoneAt
    {
      var ts := Thresholds(t.levels, iterations, scope);
      forall k | 0 <= k < ThresholdCount
        ensures ts[k] == NoneAt[k]
      {
        assert t.levels[k] == LevelOf([], k);
      }
    }
  }

  /** The threshold list of a run without iterations. */
  const NoneAt: seq<ThresholdGoal> := [ThresholdGoal(0.5, 0, 0), ThresholdGoal(1.5, 0, 0), ThresholdGoal(2.5, 0, 0), ThresholdGoal(3.5, 0, 0)]

  /** In one scope's list, below and over add up to 100 give or take one at every
      threshold. */
  lemma ScopeSplitsHundred(ts: seq<ThresholdGoal>, ss: seq<Score>, iterations: int, scope: Scope)
    requires 0 < iterations && |ss| == iterations
    requires ThresholdsReport(ts, ss, iterations, scope)
    ensures forall k :: 0 <= k < ThresholdCount ==> 99 <= ts[k].below + ts[k].over <= 101
  {
    forall k | 0 <= k < ThresholdCount
      ensures 99 <= ts[k].below + ts[k].over <= 101
    {
      BelowOverPartition(ss, scope, k);
      PercentsOfSplit(Count(ss, Below(scope, k)), Count(ss, Over(scope, k)), iterations);
    }
  }

  /** In one scope's list, below never falls and over never rises as the threshold
      goes up. */
  lemma ScopeOrdered(ts: seq<ThresholdGoal>, ss: seq<Score>, iterations: int, scope: Scope)
    requires 0 < iterations
    requires ThresholdsReport(ts, ss, iterations, scope)
    ensures forall k, l :: 0 <= k <= l < ThresholdCount ==> ts[k].below <= ts[l].below && ts[k].over >= ts[l].over
  {
    forall k, l | 0 <= k <= l < ThresholdCount
      ensures ts[k].below <= ts[l].below && ts[k].over >= ts[l].over
    {
      ThresholdsMonotone(ss, scope, k, l);
      PercentMonotone(Count(ss, Below(scope, k)), Count(ss, Below(scope, l)), iterations);
      PercentMonotone(Count(ss, Over(scope, l)), Count(ss, Over(scope, k)), iterations);
    }
  }

  /** The exact-score percentages of a report never rise along the list. */
  lemma ExactScoresDescending(p: Prediction, ss: seq<Score>, iterations: int)
    requires 0 < iterations && Reports(p, ss, iterations)
    ensures forall i, j :: 0 <= i < j < |p.exactScores| ==> p.exactScores[j].probability <= p.exactScores[i].probability
  {
    RankedPercents(ss, Ranking.MostCommon(ss, 3), iterations);
  }

  /** The report's internal consistency: the outcome percentages add up to 100 give or
      take one, and so do below and over at every threshold; below never falls and
      over never rises as the threshold goes up; "both teams score" is at most each
      side's "over 0.5"; the exact-score figures lie in 0..100 and never rise along
      the list. */
  lemma ReportConsistent(p: Prediction, draws: seq<Sample>, iterations: int)
    requires 0 < iterations && |draws| == iterations
    requires Reports(p, Scores(draws), iterations)
    ensures 99 <= p.homeWin + p.draw + p.awayWin <= 101
    ensures 0 <= p.btts <= p.homeThresholds[0].over && p.btts <= p.awayThresholds[0].over
    ensures forall k :: 0 <= k < ThresholdCount ==> 99 <= p.globalThresholds[k].below + p.globalThresholds[k].over <= 101
    ensures forall k :: 0 <= k < ThresholdCount ==> 99 <= p.homeThresholds[k].below + p.homeThresholds[k].over <= 101
    ensures forall k :: 0 <= k < ThresholdCount ==> 99 <= p.awayThresholds[k].below + p.awayThresholds[k].over <= 101
    ensures forall k, l :: 0 <= k <= l < ThresholdCount ==>
      p.globalThresholds[k].below <= p.globalThresholds[l].below && p.globalThresholds[k].over >= p.globalThresholds[l].over
    ensures forall k, l :: 0 <= k <= l < ThresholdCount ==>
      p.homeThresholds[k].below <= p.homeThresholds[l].below && p.homeThresholds[k].over >= p.homeThresholds[l].over
    ensures forall k, l :: 0 <= k <= l < ThresholdCount ==>
      p.awayThresholds[k].below <= p.awayThresholds[l].below && p.awayThresholds[k].over >= p.awayThresholds[l].over
    ensures forall i :: 0 <= i < |p.exactScores| ==> 0 <= p.exactScores[i].probability <= 100
    ensures forall i, j :: 0 <= i < j < |p.exactScores| ==> p.exactScores[j].probability <= p.exactScores[i].probability
  {
    var ss := Scores(draws);
    OutcomesPartition(ss);
    PercentsOfThreeWaySplit(Count(ss, OutcomeIs(HomeWin)), Count(ss, OutcomeIs(Draw)), Count(ss, OutcomeIs(AwayWin)), iterations);
    BothScoreWithinEachSide(ss);
    PercentMonotone(Count(ss, BothScore), Count(ss, Over(HomeSide, 0)), iterations);
    PercentMonotone(Count(ss, BothScore), Count(ss, Over(AwaySide, 0)), iterations);
    ScopeSplitsHundred(p.globalThresholds, ss, iterations, Total);
    ScopeSplitsHundred(p.homeThresholds, ss, iterations, HomeSide);
    ScopeSplitsHundred(p.awayThresholds, ss, iterations, AwaySide);
    ScopeOrdered(p.globalThresholds, ss, iterations, Total);
    ScopeOrdered(p.homeThresholds, ss, iterations, HomeSide);
    ScopeOrdered(p.awayThresholds, ss, iterations, AwaySide);
    ExactScoresDescending(p, ss, iterations);
  }
}
