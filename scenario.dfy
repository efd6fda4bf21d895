/** A worked three-row example of the whole filter-then-aggregate pipeline. */
module Scenario {
  import opened Wrappers
  import opened Skills
  import opened Frames
  import opened Stats
  import opened Kpis

  const RowA1 := Record("Category A", "IndustryX", 80.0, 75.0, 50.0, 2.0, 1.0, "Online")
  const RowA2 := Record("Category A", "IndustryX", 30.0, 20.0, 50.0, 5.0, 1.0, "Online")
  const RowB := Record("Category B", "IndustryY", 90.0, 90.0, 50.0, 1.0, 1.0, "Online")
  const Table := [RowA1, RowA2, RowB]

  const All := Selection(["Category A", "Category B"], ["IndustryX", "IndustryY"], 0, 100)
  const Narrow := Selection(["Category A", "Category B"], ["IndustryX", "IndustryY"], 0, 50)

  /** With every category and industry and the full range selected the view
      is the whole table: its mean half-life is 8/3, two of its three rows
      have exposure above 70, and two are high-risk. */
  lemma FullRangeScenario()
    ensures Filter(Table, All) == Table
    ensures MeanHalfLife(Table) == Some(8.0 / 3.0)
    ensures HighExposurePct(Table) == Some(200.0 / 3.0)
    ensures HighRiskCount(Table) == 2
  {
    FilterSelectAll(Table, All);
    ThreeRowMeanHalfLife();
    ThreeRowHighExposure();
    ThreeRowHighRisk();
  }

  /** Narrowing the exposure range to [0, 50] leaves only the second row:
      the mean half-life is its 5 years, and it is not high-risk. */
  lemma NarrowRangeScenario()
    ensures Filter(Table, Narrow) == [RowA2]
    ensures MeanHalfLife([RowA2]) == Some(5.0)
    ensures HighRiskCount([RowA2]) == 0
  {
    NarrowView();
    SecondRowKpis();
  }

  lemma NarrowView()
    ensures Filter(Table, Narrow) == [RowA2]
  {
    FilterAppend([RowA1], [RowA2, RowB], Narrow);
    FilterAppend([RowA2], [RowB], Narrow);
    assert Filter([RowA1], Narrow) == [] && Filter([RowB], Narrow) == [];
    assert Filter([RowA2], Narrow) == [RowA2];
  }

  lemma SecondRowKpis()
    ensures MeanHalfLife([RowA2]) == Some(5.0)
    ensures HighRiskCount([RowA2]) == 0
  {
    assert HalfLives([RowA2]) == [5.0];
    assert Sum([5.0]) == 5.0;
    RiskAboveCountStep([], RowA2, HighThreshold);
    assert [] + [RowA2] == [RowA2];
  }

  /** Two of the three rows have risk above 70 (75 and 90; 20 is not). */
  lemma ThreeRowHighRisk()
    ensures HighRiskCount(Table) == 2
  {
    RiskAboveCountStep([], RowA1, HighThreshold);
    RiskAboveCountStep([RowA1], RowA2, HighThreshold);
    RiskAboveCountStep([RowA1, RowA2], RowB, HighThreshold);
    assert [] + [RowA1] == [RowA1];
    assert [RowA1] + [RowA2] == [RowA1, RowA2];
    assert [RowA1, RowA2] + [RowB] == Table;
  }

  /** The mean half-life of the full view is (2 + 5 + 1) / 3. */
  lemma ThreeRowMeanHalfLife()
    ensures MeanHalfLife(Table) == Some(8.0 / 3.0)
  {
    var c := HalfLives(Table);
    assert c == [2.0, 5.0, 1.0];
    assert c[1..] == [5.0, 1.0] && c[1..][1..] == [1.0] && c[1..][1..][1..] == [];
    assert Sum(c[1..][1..]) == 1.0;
    assert Sum(c[1..]) == 6.0;
    assert Sum(c) == 8.0;
  }

  /** Two of the three rows have exposure above 70 (80 and 90; 30 is not). */
  lemma ThreeRowHighExposure()
    ensures HighExposurePct(Table) == Some(200.0 / 3.0)
  {
    var p := ExposureAbove(HighThreshold);
    WhereAppend([RowA1], [RowA2, RowB], p);
    WhereAppend([RowA2], [RowB], p);
    assert Where([RowA1], p) == [RowA1] && Where([RowA2], p) == [] && Where([RowB], p) == [RowB];
    assert |Where(Table, p)| == 2;
  }
}
