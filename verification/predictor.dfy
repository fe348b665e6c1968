/** The main predictor: aggregates a team's stored matches into home-side and
    away-side statistics, adjusts the two teams' xG by their win rates, and runs the
    simulation on draws supplied by the caller. */
module Predictor {
  import opened Base
  import opened Floats
  import opened Matches
  import opened Statistics
  import Simulation

  // ---------------------------------------------------------------------------
  // Column folds (pandas `sum` and `mean` with missing cells skipped)
  // ---------------------------------------------------------------------------

  /** The integer columns a side aggregate sums. */
  datatype Column = GoalForColumn | GoalAgainstColumn | FoulsColumn | ShotsColumn | ShotsOffGoalColumn | ShotsOnGoalColumn

  function Cell(r: MatchRecord, c: Column): Option<nat> {
    match c
    case GoalForColumn => r.goalFor
    case GoalAgainstColumn => r.goalAgainst
    case FoulsColumn => r.fouls
    case ShotsColumn => r.shots
    case ShotsOffGoalColumn => r.shotsOffGoal
    case ShotsOnGoalColumn => r.shotsOnGoal
  }

  /** `df[column].sum()`: missing cells count as zero. */
  function SumColumn(rs: seq<MatchRecord>, c: Column): nat {
    if |rs| == 0 then 0
    else SumColumn(rs[..|rs| - 1], c) + OrZero(Cell(rs[|rs| - 1], c))
  }

  /** How many records carry the result `res`. */
  function CountResult(rs: seq<MatchRecord>, res: MatchResult): (n: nat)
    ensures n <= |rs|
  {
    if |rs| == 0 then 0
    else CountResult(rs[..|rs| - 1], res) + (if rs[|rs| - 1].result == Some(res) then 1 else 0)
  }

  /** How many of the values are present. */
  function Present(vs: seq<Option<real>>): (n: nat)
    ensures n <= |vs|
  {
    if |vs| == 0 then 0
    else Present(vs[..|vs| - 1]) + (if vs[|vs| - 1].Some? then 1 else 0)
  }

  /** The sum of the present values. */
  function Total(vs: seq<Option<real>>): real {
    if |vs| == 0 then 0.0
    else Total(vs[..|vs| - 1]) + (if vs[|vs| - 1].Some? then vs[|vs| - 1].value else 0.0)
  }

  /** `mean(skipna=True)`: the mean of the present values, NaN when there are none. */
  function MeanPresent(vs: seq<Option<real>>): (m: Float)
    ensures m.NaN? <==> Present(vs) == 0
  {
    if Present(vs) == 0 then NaN else Finite(Total(vs) / Present(vs) as real)
  }

  /** The present values lie between `lo` and `hi`. */
  predicate PresentWithin(vs: seq<Option<real>>, lo: real, hi: real) {
    forall i :: 0 <= i < |vs| && vs[i].Some? ==> lo <= vs[i].value <= hi
  }

  /** A total `t` of `n` values lies between `n` times `lo` and `n` times `hi`. */
  predicate Scaled(n: real, t: real, lo: real, hi: real) {
    lo * n <= t <= hi * n
  }

  /** The total of present values between `lo` and `hi` is between `lo` and `hi`
      times their number. */
  lemma {:induction false} TotalWithin(vs: seq<Option<real>>, lo: real, hi: real)
    requires PresentWithin(vs, lo, hi)
    ensures Scaled(Present(vs) as real, Total(vs), lo, hi)
  {
    if |vs| > 0 {
      var p := vs[..|vs| - 1];
      PresentWithinPrefix(vs, lo, hi);
      TotalWithin(p, lo, hi);
      var last := vs[|vs| - 1];
      var x := if last.Some? then last.value else 0.0;
      var d := if last.Some? then 1.0 else 0.0;
      StepWithin(Present(p) as real, Total(p), Present(vs) as real, Total(vs), lo, hi, x, d);
    }
  }

  lemma PresentWithinPrefix(vs: seq<Option<real>>, lo: real, hi: real)
    requires |vs| > 0 && PresentWithin(vs, lo, hi)
    ensures PresentWithin(vs[..|vs| - 1], lo, hi)
  {
    var p := vs[..|vs| - 1];
    assert forall i :: 0 <= i < |p| ==> p[i] == vs[i];
  }

  /** One more value, counted (`d` is 1) or skipped (`d` is 0), keeps the total
      between `lo` and `hi` times the count. */
  lemma StepWithin(n: real, t: real, n': real, t': real, lo: real, hi: real, x: real, d: real)
    requires Scaled(n, t, lo, hi)
    requires d == 0.0 || (d == 1.0 && lo <= x <= hi)
    requires n' == n + d && t' == t + d * x
    ensures Scaled(n', t', lo, hi)
  {
    if d == 1.0 {
      assert lo * n' == lo * n + lo && hi * n' == hi * n + hi;
    }
  }

  /** A total between `lo` and `hi` times a positive count has a mean between them. */
  lemma DivBetween(t: real, n: real, lo: real, hi: real)
    requires n > 0.0 && Scaled(n, t, lo, hi)
    ensures lo <= t / n <= hi
  {
    assert (t / n) * n == t;
  }

  /** A mean of values between `lo` and `hi` lies between them too. */
  lemma MeanWithin(vs: seq<Option<real>>, lo: real, hi: real)
    requires PresentWithin(vs, lo, hi)
    ensures MeanPresent(vs).Finite? ==> lo <= MeanPresent(vs).v <= hi
  {
    if Present(vs) > 0 {
      TotalWithin(vs, lo, hi);
      DivBetween(Total(vs), Present(vs) as real, lo, hi);
    }
  }

  function PossessionColumn(rs: seq<MatchRecord>): (vs: seq<Option<real>>)
    ensures |vs| == |rs|
    ensures forall i :: 0 <= i < |rs| ==> (vs[i].Some? <==> rs[i].possession.Some?)
    ensures forall i :: 0 <= i < |rs| && vs[i].Some? ==> vs[i].value == rs[i].possession.value as real
  {
    seq(|rs|, i requires 0 <= i < |rs| => if rs[i].possession.Some? then Some(rs[i].possession.value as real) else None)
  }

  function XgColumn(rs: seq<MatchRecord>): (vs: seq<Option<real>>)
    ensures |vs| == |rs|
    ensures forall i :: 0 <= i < |rs| ==> vs[i] == rs[i].livescoreXg
  {
    seq(|rs|, i requires 0 <= i < |rs| => rs[i].livescoreXg)
  }

  // ---------------------------------------------------------------------------
  // Side aggregates
  // ---------------------------------------------------------------------------

  function AggregateCounts(rs: seq<MatchRecord>): Counts {
    Counts(|rs|, CountResult(rs, Win), CountResult(rs, Draw), CountResult(rs, Lose),
           SumColumn(rs, GoalForColumn), SumColumn(rs, GoalAgainstColumn),
           SumColumn(rs, FoulsColumn), SumColumn(rs, ShotsColumn),
           SumColumn(rs, ShotsOffGoalColumn), SumColumn(rs, ShotsOnGoalColumn))
  }

  /** The possession mean as a fraction: `mean / 100`. */
  function PossessionShare(rs: seq<MatchRecord>): (p: Float)
    ensures p.NaN? <==> forall i :: 0 <= i < |rs| ==> rs[i].possession.None?
    ensures p.Finite? && (forall i :: 0 <= i < |rs| && rs[i].possession.Some? ==> rs[i].possession.value <= 100)
            ==> 0.0 <= p.v <= 1.0
  {
    var vs := PossessionColumn(rs);
    NonePresent(vs);
    var m := MeanPresent(vs);
    assert (forall i :: 0 <= i < |rs| && rs[i].possession.Some? ==> rs[i].possession.value <= 100)
           ==> m.Finite? ==> 0.0 <= m.v <= 100.0 by {
      if forall i :: 0 <= i < |rs| && rs[i].possession.Some? ==> rs[i].possession.value <= 100 {
        MeanWithin(vs, 0.0, 100.0);
      }
    }
    Scale(m, 1.0 / 100.0)
  }

  /** No value is present exactly when every value is missing. */
  lemma {:induction false} NonePresent(vs: seq<Option<real>>)
    ensures Present(vs) == 0 <==> forall i :: 0 <= i < |vs| ==> vs[i].None?
  {
    if |vs| > 0 {
      var p := vs[..|vs| - 1];
      NonePresent(p);
      assert forall i :: 0 <= i < |p| ==> p[i] == vs[i];
    }
  }

  /** `_aggregate_stats` as written: one match per record, results within the
      matches, and `external_xg` always set to the pandas mean of the xG column, which
      is NaN rather than `None` exactly when no match has an xG. */
  function AggregateStatsAsWritten(rs: seq<MatchRecord>): (t: TeamStatistics)
    ensures t.counts == AggregateCounts(rs)
    ensures t.counts.matchesPlayed == |rs| && ResultsWithinMatches(t.counts)
    ensures t.possession.NaN? <==> forall i :: 0 <= i < |rs| ==> rs[i].possession.None?
    ensures t.externalXg.Some?
    ensures t.externalXg.value.NaN? <==> NoXg(rs)
  {
    ResultsAccountedFor(rs);
    NonePresent(XgColumn(rs));
    TeamStatistics(AggregateCounts(rs), PossessionShare(rs), Some(MeanPresent(XgColumn(rs))))
  }

  /** `_aggregate_stats` with the evident intent: no xG at all leaves `external_xg`
      unset, so that xG falls back to the constant. */
  function AggregateStats(rs: seq<MatchRecord>): (t: TeamStatistics)
    ensures t.counts == AggregateCounts(rs)
    ensures t.counts.matchesPlayed == |rs| && ResultsWithinMatches(t.counts)
    ensures t.possession.NaN? <==> forall i :: 0 <= i < |rs| ==> rs[i].possession.None?
    ensures t.externalXg.None? <==> NoXg(rs)
    ensures t.externalXg.Some? ==> t.externalXg.value.Finite?
  {
    ResultsAccountedFor(rs);
    var xs := XgColumn(rs);
    NonePresent(xs);
    var mean := MeanPresent(xs);
    TeamStatistics(AggregateCounts(rs), PossessionShare(rs), if mean.NaN? then None else Some(mean))
  }

  /** As written, a side without any xG gets a NaN xG even when every other statistic
      is usable. */
  lemma MissingXgPoisonsAsWritten(rs: seq<MatchRecord>, exp2: real -> real, ln: real -> real)
    requires forall i :: 0 <= i < |rs| ==> rs[i].livescoreXg.None?
    requires ChainDefined(AggregateCounts(rs))
    ensures Xg(AggregateStatsAsWritten(rs), exp2, ln) == Ok(NaN)
  {
    NonePresent(XgColumn(rs));
  }

  /** With the fallback reachable, the same side gets a finite xG whenever its
      possession is known. */
  lemma MissingXgFallsBack(rs: seq<MatchRecord>, exp2: real -> real, ln: real -> real)
    requires forall i :: 0 <= i < |rs| ==> rs[i].livescoreXg.None?
    requires ChainDefined(AggregateCounts(rs))
    requires exists i :: 0 <= i < |rs| && rs[i].possession.Some?
    ensures Xg(AggregateStats(rs), exp2, ln).Ok?
    ensures Xg(AggregateStats(rs), exp2, ln).value.Finite?
    ensures AggregateStats(rs).externalXg.None?
  {
  }

  /** A concrete side that shows the difference: one match with usable counts and
      possession, and no xG. */
  lemma AsWrittenCounterexample(exp2: real -> real, ln: real -> real)
    ensures var rs := [MatchRecord(Finished, Some(Home), Some(Win), Some(2), Some(0), Some(10), Some(8),
                                   Some(4), Some(4), Some(55), None)];
            Xg(AggregateStatsAsWritten(rs), exp2, ln) == Ok(NaN) && Xg(AggregateStats(rs), exp2, ln).value.Finite?
  {
    var rs := [MatchRecord(Finished, Some(Home), Some(Win), Some(2), Some(0), Some(10), Some(8),
                           Some(4), Some(4), Some(55), None)];
    assert rs[..0] == [];
    MissingXgPoisonsAsWritten(rs, exp2, ln);
    MissingXgFallsBack(rs, exp2, ln);
  }

  /** The three result filters are disjoint, so the results never exceed the
      matches; they cover them exactly when every record has a result. */
  lemma {:induction false} ResultsAccountedFor(rs: seq<MatchRecord>)
    ensures ResultsWithinMatches(AggregateCounts(rs))
    ensures ResultsCoverMatches(AggregateCounts(rs)) <==> forall i :: 0 <= i < |rs| ==> rs[i].result.Some?
  {
    if |rs| > 0 {
      var p := rs[..|rs| - 1];
      ResultsAccountedFor(p);
      var last := rs[|rs| - 1].result;
      assert last.Some? ==> last.value == Win || last.value == Draw || last.value == Lose;
      assert CountResult(rs, Win) + CountResult(rs, Draw) + CountResult(rs, Lose)
             == CountResult(p, Win) + CountResult(p, Draw) + CountResult(p, Lose) + (if last.Some? then 1 else 0);
      assert forall i :: 0 <= i < |p| ==> p[i] == rs[i];
      assert (forall i :: 0 <= i < |rs| ==> rs[i].result.Some?)
             <==> (forall i :: 0 <= i < |p| ==> p[i].result.Some?) && rs[|rs| - 1].result.Some?;
    }
  }

  /** An empty side aggregates to zero matches without failing. Its possession is
      NaN, and so is its external xG as written; the corrected aggregate leaves the
      external xG unset. */
  lemma EmptySide()
    ensures AggregateCounts([]).matchesPlayed == 0
    ensures AggregateStatsAsWritten([]).possession.NaN?
    ensures AggregateStatsAsWritten([]).externalXg == Some(NaN)
    ensures AggregateStats([]).externalXg.None?
  {
  }

  // ---------------------------------------------------------------------------
  // Splitting by side
  // ---------------------------------------------------------------------------

  /** The records played on `side`, in their original order. */
  function OnSide(rs: seq<MatchRecord>, side: Side): (r: seq<MatchRecord>)
    ensures |r| <= |rs|
    ensures forall i :: 0 <= i < |r| ==> r[i].side == Some(side) && r[i] in rs
    ensures forall i :: 0 <= i < |rs| && rs[i].side == Some(side) ==> rs[i] in r
  {
    if |rs| == 0 then []
    else
      var p := OnSide(rs[..|rs| - 1], side);
      if rs[|rs| - 1].side == Some(side) then p + [rs[|rs| - 1]] else p
  }

  /** Filtering one more record appends it exactly when it is on that side. */
  lemma OnSideStep(rs: seq<MatchRecord>, side: Side)
    requires |rs| > 0
    ensures OnSide(rs, side) == OnSide(rs[..|rs| - 1], side) + (if rs[|rs| - 1].side == Some(side) then [rs[|rs| - 1]] else [])
  {
  }

  /** Every record with a side lands in exactly one of the two aggregates. */
  lemma {:induction false} SidesPartition(rs: seq<MatchRecord>)
    ensures |OnSide(rs, Home)| + |OnSide(rs, Away)| <= |rs|
    ensures |OnSide(rs, Home)| + |OnSide(rs, Away)| == |rs| <==> forall i :: 0 <= i < |rs| ==> rs[i].side.Some?
  {
    if |rs| > 0 {
      var p := rs[..|rs| - 1];
      SidesPartition(p);
      OnSideStep(rs, Home);
      OnSideStep(rs, Away);
      assert rs[|rs| - 1].side.Some? ==> rs[|rs| - 1].side.value == Home || rs[|rs| - 1].side.value == Away;
      assert |OnSide(rs, Home)| + |OnSide(rs, Away)|
             == |OnSide(p, Home)| + |OnSide(p, Away)| + (if rs[|rs| - 1].side.Some? then 1 else 0);
      assert forall i :: 0 <= i < |p| ==> p[i] == rs[i];
      assert (forall i :: 0 <= i < |rs| ==> rs[i].side.Some?)
             <==> (forall i :: 0 <= i < |p| ==> p[i].side.Some?) && rs[|rs| - 1].side.Some?;
    }
  }

  /** No record is on both sides: the two aggregates together hold each record at
      most as often as the input does. */
  lemma {:induction false} SidesDisjoint(rs: seq<MatchRecord>)
    ensures multiset(OnSide(rs, Home)) + multiset(OnSide(rs, Away)) <= multiset(rs)
  {
    if |rs| > 0 {
      var p := rs[..|rs| - 1];
      SidesDisjoint(p);
      OnSideStep(rs, Home);
      OnSideStep(rs, Away);
      assert rs == p + [rs[|rs| - 1]];
    }
  }

  /** No record played on `side` has an xG. */
  predicate NoXgOn(rs: seq<MatchRecord>, side: Side) {
    forall i :: 0 <= i < |rs| && rs[i].side == Some(side) ==> rs[i].livescoreXg.None?
  }

  /** None of the records has an xG. */
  predicate NoXg(rs: seq<MatchRecord>) {
    forall i :: 0 <= i < |rs| ==> rs[i].livescoreXg.None?
  }

  /** The records kept for a side lack an xG exactly when every record on that side
      does. */
  lemma OnSideNoXg(rs: seq<MatchRecord>, side: Side)
    ensures NoXg(OnSide(rs, side)) <==> NoXgOn(rs, side)
  {
    var r := OnSide(rs, side);
    if NoXg(r) {
      forall i | 0 <= i < |rs| && rs[i].side == Some(side)
        ensures rs[i].livescoreXg.None?
      {
        assert rs[i] in r;
        var j :| 0 <= j < |r| && r[j] == rs[i];
        assert r[j].livescoreXg.None?;
      }
    }
    if NoXgOn(rs, side) {
      forall i | 0 <= i < |r|
        ensures r[i].livescoreXg.None?
      {
        assert r[i] in rs && r[i].side == Some(side);
        var j :| 0 <= j < |rs| && rs[j] == r[i];
        assert rs[j].livescoreXg.None?;
      }
    }
  }

  /** `_transform_data` as written: the records split by side and aggregated as
      written. The team totals never count more matches than the records, and count
      them all when every record has a side; the results stay within the matches;
      and each side's external xG is set, to NaN exactly when none of that side's
      records has an xG. */
  function TransformData(rs: seq<MatchRecord>): (g: GlobalStatistics)
    ensures g.home.counts == AggregateCounts(OnSide(rs, Home)) && g.away.counts == AggregateCounts(OnSide(rs, Away))
    ensures Totals(g).matchesPlayed <= |rs|
    ensures (forall i :: 0 <= i < |rs| ==> rs[i].side.Some?) ==> Totals(g).matchesPlayed == |rs|
    ensures ResultsWithinMatches(Totals(g))
    ensures g.home.externalXg.Some? && g.away.externalXg.Some?
    ensures g.home.externalXg.value.NaN? <==> NoXgOn(rs, Home)
    ensures g.away.externalXg.value.NaN? <==> NoXgOn(rs, Away)
  {
    var g := GlobalStatistics(AggregateStatsAsWritten(OnSide(rs, Home)), AggregateStatsAsWritten(OnSide(rs, Away)));
    SidesPartition(rs);
    OnSideNoXg(rs, Home);
    OnSideNoXg(rs, Away);
    TotalsKeepResultBound(g);
    g
  }

  /** `_transform_data` with the corrected aggregate: the same counts, and a side's
      external xG is unset exactly when none of its records has an xG, and finite
      otherwise. */
  function TransformDataCorrected(rs: seq<MatchRecord>): (g: GlobalStatistics)
    ensures g.home.counts == TransformData(rs).home.counts && g.away.counts == TransformData(rs).away.counts
    ensures Totals(g) == Totals(TransformData(rs))
    ensures g.home.externalXg.None? <==> NoXgOn(rs, Home)
    ensures g.away.externalXg.None? <==> NoXgOn(rs, Away)
    ensures g.home.externalXg.Some? ==> g.home.externalXg.value.Finite?
    ensures g.away.externalXg.Some? ==> g.away.externalXg.value.Finite?
  {
    var g := GlobalStatistics(AggregateStats(OnSide(rs, Home)), AggregateStats(OnSide(rs, Away)));
    OnSideNoXg(rs, Home);
    OnSideNoXg(rs, Away);
    g
  }

  // ---------------------------------------------------------------------------
  // Win-rate advantage
  // ---------------------------------------------------------------------------

  /** `(h - a) / (h + a)`: the relative gap between two non-negative rates. */
  function RateGap(h: real, a: real): (gap: real)
    requires 0.0 <= h && 0.0 <= a && h + a > 0.0
    ensures -1.0 <= gap <= 1.0
    ensures gap == 0.0 <==> h == a
    ensures gap > 0.0 <==> h > a
    ensures gap == 1.0 <==> a == 0.0
    ensures gap == -1.0 <==> h == 0.0
  {
    var s := h + a;
    var gap := (h - a) / s;
    assert gap * s == h - a;
    gap
  }

  /** Swapping the two rates negates the gap. */
  lemma RateGapAntisymmetric(h: real, a: real)
    requires 0.0 <= h && 0.0 <= a && h + a > 0.0
    ensures RateGap(a, h) == -RateGap(h, a)
  {
    var s := h + a;
    assert RateGap(a, h) * s == a - h;
    assert RateGap(h, a) * s == h - a;
    assert (RateGap(a, h) + RateGap(h, a)) * s == 0.0;
  }

  /** A team's win rate over all its matches. */
  function WinRate(c: Counts): (r: real)
    requires c.matchesPlayed > 0
    ensures r >= 0.0 && r * c.matchesPlayed as real == c.wins as real
    ensures r == 0.0 <==> c.wins == 0
  {
    c.wins as real / c.matchesPlayed as real
  }

  /** `_adjust_xg`'s advantage: half the rate gap, so it lies in [-0.5, 0.5]. */
  function Advantage(home: Counts, away: Counts): (adv: real)
    requires home.matchesPlayed > 0 && away.matchesPlayed > 0 && home.wins + away.wins > 0
    ensures -0.5 <= adv <= 0.5
    ensures adv == 0.0 <==> WinRate(home) == WinRate(away)
    ensures adv > 0.0 <==> WinRate(home) > WinRate(away)
    ensures 1.0 + adv >= 0.5 && 0.9 - adv >= 0.4
  {
    RateGap(WinRate(home), WinRate(away)) * 0.5
  }

  /** Every division `_adjust_xg` performs has a non-zero divisor. */
  predicate AdjustDefined(home: GlobalStatistics, away: GlobalStatistics) {
    && Totals(home).matchesPlayed > 0 && Totals(away).matchesPlayed > 0
    && Totals(home).wins + Totals(away).wins > 0
    && ChainDefined(home.home.counts) && ChainDefined(home.away.counts)
    && ChainDefined(away.home.counts) && ChainDefined(away.away.counts)
  }

  /** A team's xG for this fixture before the advantage: 20% its overall xG and 80%
      its xG on the side it plays (`home_statistics` for the home team,
      `away_statistics` for the away team). */
  function SideBlend(g: GlobalStatistics, side: Side, exp2: real -> real, ln: real -> real): (b: Float)
    requires ChainDefined(g.home.counts) && ChainDefined(g.away.counts)
    ensures b.Finite? <==> GlobalXg(g, exp2, ln).value.Finite? && Xg(if side == Home then g.home else g.away, exp2, ln).value.Finite?
    ensures b.Finite? ==>
      b.v == 0.2 * GlobalXg(g, exp2, ln).value.v + 0.8 * Xg(if side == Home then g.home else g.away, exp2, ln).value.v
  {
    var own := if side == Home then g.home else g.away;
    Add(Scale(GlobalXg(g, exp2, ln).value, 0.2), Scale(Xg(own, exp2, ln).value, 0.8))
  }

  /** `_adjust_xg`: the home team's blend scaled by `1 + adv` and the away team's by
      `0.9 - adv`. It fails on any zero divisor; otherwise both factors are positive,
      and the home factor exceeds the away factor by `0.1 + 2 * adv`. */
  function AdjustXg(home: GlobalStatistics, away: GlobalStatistics, exp2: real -> real, ln: real -> real): (r: Result<(Float, Float)>)
    ensures r.Err? <==> !AdjustDefined(home, away)
    ensures r.Err? ==> r.error == DivisionByZero
    ensures r.Ok? ==> AdjustDefined(home, away)
    ensures r.Ok? ==> r.value.0 == Scale(SideBlend(home, Home, exp2, ln), 1.0 + Advantage(Totals(home), Totals(away)))
    ensures r.Ok? ==> r.value.1 == Scale(SideBlend(away, Away, exp2, ln), 0.9 - Advantage(Totals(home), Totals(away)))
  {
    if !AdjustDefined(home, away) then Err(DivisionByZero)
    else
      var adv := Advantage(Totals(home), Totals(away));
      Ok((Scale(SideBlend(home, Home, exp2, ln), 1.0 + adv), Scale(SideBlend(away, Away, exp2, ln), 0.9 - adv)))
  }

  /** The adjustment keeps the sign: a positive blended xG stays positive. */
  lemma AdjustKeepsPositive(home: GlobalStatistics, away: GlobalStatistics, exp2: real -> real, ln: real -> real,
                            adjusted: (Float, Float))
    requires AdjustXg(home, away, exp2, ln) == Ok(adjusted)
    ensures SideBlend(home, Home, exp2, ln).Finite? && SideBlend(home, Home, exp2, ln).v > 0.0
            ==> adjusted.0.Finite? && adjusted.0.v > 0.0
    ensures SideBlend(away, Away, exp2, ln).Finite? && SideBlend(away, Away, exp2, ln).v > 0.0
            ==> adjusted.1.Finite? && adjusted.1.v > 0.0
  {
    var adv := Advantage(Totals(home), Totals(away));
    ScaleKeepsPositive(SideBlend(home, Home, exp2, ln), 1.0 + adv);
    ScaleKeepsPositive(SideBlend(away, Away, exp2, ln), 0.9 - adv);
  }

  /** Scaling by a positive factor keeps a positive value positive. */
  lemma ScaleKeepsPositive(b: Float, k: real)
    requires k > 0.0
    ensures b.Finite? && b.v > 0.0 ==> Scale(b, k).Finite? && Scale(b, k).v > 0.0
  {
    if b.Finite? && b.v > 0.0 {
      assert b.v * k > 0.0;
    }
  }

  /** `Predictor.simulate` with exact scores the report accepts: the adjustment,
      then the simulation on the given draws. */
  method Predict(home: GlobalStatistics, away: GlobalStatistics, exp2: real -> real, ln: real -> real,
                 iterations: int, draws: seq<Simulation.Sample>)
    returns (r: Result<Simulation.Prediction>)
    requires |draws| == if iterations > 0 then iterations else 0
    ensures r.Err? <==> !AdjustDefined(home, away) || iterations == 0
    ensures r.Err? ==> r.error == DivisionByZero
    ensures r.Ok? ==> Simulation.Reports(r.value, Simulation.Scores(draws), iterations)
  {
    var adjusted := AdjustXg(home, away, exp2, ln);
    if adjusted.Err? {
      return Err(adjusted.error);
    }
    r := Simulation.Simulate(iterations, draws);
  }

  /** `Predictor.simulate` as written: after a defined adjustment, every run of at
      least one iteration fails the validation of its exact scores, so a report comes
      back only for a negative iteration count. */
  method PredictAsWritten(home: GlobalStatistics, away: GlobalStatistics, exp2: real -> real, ln: real -> real,
                          iterations: int, draws: seq<Simulation.Sample>)
    returns (r: Result<Simulation.Prediction>)
    requires |draws| == if iterations > 0 then iterations else 0
    ensures r.Ok? <==> AdjustDefined(home, away) && iterations < 0
    ensures !AdjustDefined(home, away) || iterations == 0 ==> r == Err(DivisionByZero)
    ensures AdjustDefined(home, away) && iterations > 0 ==> r == Err(InvalidExactScore)
  {
    var adjusted := AdjustXg(home, away, exp2, ln);
    if adjusted.Err? {
      return Err(adjusted.error);
    }
    r := Simulation.SimulateAsWritten(iterations, draws);
  }
}
