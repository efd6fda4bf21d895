/** The four KPI tiles at the top of the dashboard, computed from the
    filtered view. pandas' NaN for the mean of an empty column is `None`. */
module Kpis {
  import opened Wrappers
  import opened Frames
  import opened Stats
  import opened Skills

  /** The threshold the dashboard uses for "high" exposure and "high" risk. */
  const HighThreshold: real := 70.0

  function HalfLives(view: seq<Record>): (c: seq<real>)
    ensures |c| == |view|
    ensures forall i :: 0 <= i < |view| ==> c[i] == view[i].halfLife
  {
    seq(|view|, i requires 0 <= i < |view| => view[i].halfLife)
  }

  function ReskillingIntervals(view: seq<Record>): (c: seq<real>)
    ensures |c| == |view|
    ensures forall i :: 0 <= i < |view| ==> c[i] == view[i].reskilling
  {
    seq(|view|, i requires 0 <= i < |view| => view[i].reskilling)
  }

  /** Average skill half-life in years: undefined on an empty view, and
      otherwise between the smallest and the largest half-life in it. */
  function MeanHalfLife(view: seq<Record>): (r: Option<real>)
    ensures r.None? <==> view == []
    ensures r.Some? ==> exists i :: 0 <= i < |view| && view[i].halfLife <= r.value
    ensures r.Some? ==> exists j :: 0 <= j < |view| && r.value <= view[j].halfLife
  {
    var c := HalfLives(view);
    var m := Mean(c);
    if m.Some? then
      assert Min(c) in c && Max(c) in c;
      m
    else m
  }

  /** Average reskilling interval in years, with the same guarantees. */
  function MeanReskilling(view: seq<Record>): (r: Option<real>)
    ensures r.None? <==> view == []
    ensures r.Some? ==> exists i :: 0 <= i < |view| && view[i].reskilling <= r.value
    ensures r.Some? ==> exists j :: 0 <= j < |view| && r.value <= view[j].reskilling
  {
    var c := ReskillingIntervals(view);
    var m := Mean(c);
    if m.Some? then
      assert Min(c) in c && Max(c) in c;
      m
    else m
  }

  function ExposureAbove(t: real): Record -> bool {
    (r: Record) => r.exposure > t
  }

  function RiskAbove(t: real): Record -> bool {
    (r: Record) => r.risk > t
  }

  /** The comparison `column > t` as the 0.0/1.0 values that `mean` averages. */
  function Indicators(view: seq<Record>, p: Record -> bool): (c: seq<real>)
    ensures |c| == |view|
    ensures forall i :: 0 <= i < |c| ==> c[i] == 0.0 || c[i] == 1.0
  {
    if view == [] then [] else [if p(view[0]) then 1.0 else 0.0] + Indicators(view[1..], p)
  }

  /** The sum of the indicators is the number of rows that satisfy `p`. */
  lemma {:induction false} SumIndicators(view: seq<Record>, p: Record -> bool)
    ensures Sum(Indicators(view, p)) == |Where(view, p)| as real
  {
    if view != [] {
      var c := Indicators(view, p);
      assert c[1..] == Indicators(view[1..], p);
      SumIndicators(view[1..], p);
    }
  }

  /** Percentage of rows with exposure strictly above `t`:
      `(view.exposure > t).mean() * 100`. */
  function ExposureSharePct(view: seq<Record>, t: real): (r: Option<real>)
    ensures r.None? <==> view == []
    ensures r.Some? ==> 0.0 <= r.value <= 100.0
  {
    var c := Indicators(view, ExposureAbove(t));
    match Mean(c)
    case None => None
    case Some(m) =>
      assert 0.0 <= Min(c) && Max(c) <= 1.0 by {
        assert Min(c) in c && Max(c) in c;
      }
      Some(m * 100.0)
  }

  /** On a non-empty view the percentage is 100 times the number of rows
      above the threshold, divided by the number of rows. */
  lemma ExposureSharePctIsRatio(view: seq<Record>, t: real)
    requires view != []
    ensures ExposureSharePct(view, t).value ==
      100.0 * |Where(view, ExposureAbove(t))| as real / |view| as real
  {
    var c := Indicators(view, ExposureAbove(t));
    SumIndicators(view, ExposureAbove(t));
    assert Mean(c).value == Sum(c) / |c| as real;
    ScaleQuotient(Sum(c), |c| as real);
  }

  /** `(s / n) * 100 == 100 * s / n`. */
  lemma ScaleQuotient(s: real, n: real)
    requires n > 0.0
    ensures (s / n) * 100.0 == 100.0 * s / n
  {
    assert n * (s / n) == s;
  }

  /** The "High AI-Exposure Skills (%)" tile: the share of rows with
      exposure strictly above 70, as a percentage. */
  function HighExposurePct(view: seq<Record>): (r: Option<real>)
    ensures r.None? <==> view == []
    ensures r.Some? ==> 0.0 <= r.value <= 100.0
    ensures r.Some? ==> r.value == 100.0 * |Where(view, ExposureAbove(HighThreshold))| as real / |view| as real
  {
    if view == [] then None
    else
      ExposureSharePctIsRatio(view, HighThreshold);
      ExposureSharePct(view, HighThreshold)
  }

  /** Number of rows with automation risk strictly above `t`:
      `(view.automation_risk > t).sum()`. */
  function RiskAboveCount(view: seq<Record>, t: real): (n: nat)
    ensures n <= |view|
  {
    |Where(view, RiskAbove(t))|
  }

  /** The "High Automation-Risk Skills" tile: zero exactly when no row's
      risk is above 70. */
  function HighRiskCount(view: seq<Record>): (n: nat)
    ensures n <= |view|
    ensures n == 0 <==> forall r :: r in view ==> r.risk <= HighThreshold
  {
    var w := Where(view, RiskAbove(HighThreshold));
    assert w != [] ==> w[0] in w;
    RiskAboveCount(view, HighThreshold)
  }

  /** The count is zero on the empty view and grows by one exactly for each
      row whose risk is strictly above the threshold; a row at the threshold
      is not counted. */
  lemma RiskAboveCountStep(view: seq<Record>, r: Record, t: real)
    ensures RiskAboveCount([], t) == 0
    ensures RiskAboveCount(view + [r], t) == RiskAboveCount(view, t) + (if r.risk > t then 1 else 0)
  {
    WhereAppend(view, [r], RiskAbove(t));
    assert Where([r], RiskAbove(t)) == (if r.risk > t then [r] else []);
  }

  /** Raising the threshold never increases the count. */
  lemma RiskAboveCountMonotone(view: seq<Record>, t1: real, t2: real)
    requires t1 <= t2
    ensures RiskAboveCount(view, t2) <= RiskAboveCount(view, t1)
  {
    WhereMonotone(view, RiskAbove(t2), RiskAbove(t1));
  }

  /** Raising the threshold never increases the percentage. */
  lemma ExposureSharePctMonotone(view: seq<Record>, t1: real, t2: real)
    requires t1 <= t2
    requires view != []
    ensures ExposureSharePct(view, t2).value <= ExposureSharePct(view, t1).value
  {
    ExposureAboveMonotone(view, t1, t2);
    ExposureSharePctIsRatio(view, t1);
    ExposureSharePctIsRatio(view, t2);
    PercentMonotone(|Where(view, ExposureAbove(t2))| as real, |Where(view, ExposureAbove(t1))| as real, |view| as real);
  }

  /** Raising the threshold never adds rows above it. */
  lemma ExposureAboveMonotone(view: seq<Record>, t1: real, t2: real)
    requires t1 <= t2
    ensures |Where(view, ExposureAbove(t2))| <= |Where(view, ExposureAbove(t1))|
  {
    WhereMonotone(view, ExposureAbove(t2), ExposureAbove(t1));
  }

  /** Fewer rows out of the same total is a smaller percentage. */
  lemma PercentMonotone(c2: real, c1: real, n: real)
    requires n > 0.0 && c2 <= c1
    ensures 100.0 * c2 / n <= 100.0 * c1 / n
  {
    DivideMonotone(100.0 * c2, 100.0 * c1, n);
  }

  /** The KPI row. */
  datatype KpiRow = KpiRow(
    meanHalfLife: Option<real>,
    highExposurePct: Option<real>,
    meanReskilling: Option<real>,
    highRiskCount: nat)

  /** The four tiles: the two means and the percentage report "no data"
      exactly on an empty view, and the count is bounded by the view. */
  function Kpis(view: seq<Record>): (k: KpiRow)
    ensures k.meanHalfLife.None? <==> view == []
    ensures k.highExposurePct.None? <==> view == []
    ensures k.meanReskilling.None? <==> view == []
    ensures k.highExposurePct.Some? ==> 0.0 <= k.highExposurePct.value <= 100.0
    ensures k.highRiskCount <= |view|
    ensures k.highRiskCount == 0 <==> forall r :: r in view ==> r.risk <= HighThreshold
  {
    KpiRow(MeanHalfLife(view), HighExposurePct(view), MeanReskilling(view), HighRiskCount(view))
  }

  /** An empty selection yields an empty view, on which every KPI reports
      "no data" (and the count is zero) instead of failing. */
  lemma EmptySelectionNoData(table: seq<Record>, sel: Selection)
    requires sel.categories == [] || sel.industries == []
    ensures Filter(table, sel) == []
    ensures Kpis(Filter(table, sel)) == KpiRow(None, None, None, 0)
  {
    FilterEmptySelection(table, sel);
  }
}
