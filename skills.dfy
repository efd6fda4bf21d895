/** The skills table and the dashboard's global filter (the sidebar's
    category and industry multiselects and the AI-exposure range slider). */
module Skills {
  import opened Frames

  /** One row of the skills dataset. The numeric columns are mathematical
      reals. */
  datatype Record = Record(
    category: string,      // skill_category
    industry: string,      // industry
    exposure: real,        // ai_exposure_level
    risk: real,            // automation_risk
    demand: real,          // current_market_demand
    halfLife: real,        // skill_half_life_years
    reskilling: real,      // reskilling_frequency_years
    learningMode: string)  // learning_mode

  /** The state of the sidebar: the selected categories and industries and
      the integer bounds returned by the exposure slider. */
  datatype Selection = Selection(
    categories: seq<string>,
    industries: seq<string>,
    lo: int,
    hi: int)

  /** The boolean mask: `isin` on both lists and an inclusive `between`. */
  predicate Keep(sel: Selection, r: Record) {
    && r.category in sel.categories
    && r.industry in sel.industries
    && sel.lo as real <= r.exposure <= sel.hi as real
  }

  function Matches(sel: Selection): Record -> bool {
    r => Keep(sel, r)
  }

  /** The filtered view `df[mask]`. */
  function Filter(table: seq<Record>, sel: Selection): (view: seq<Record>)
    ensures |view| <= |table|
    ensures forall r :: r in view <==>
      && r in table
      && r.category in sel.categories
      && r.industry in sel.industries
      && sel.lo as real <= r.exposure <= sel.hi as real
  {
    Where(table, Matches(sel))
  }

  /** The view keeps the table's row order: it is a subsequence of it. */
  lemma FilterIsSubsequence(table: seq<Record>, sel: Selection)
    ensures IsSubsequence(Filter(table, sel), table)
  {
    WhereIsSubsequence(table, Matches(sel));
  }

  /** Every matching row is kept as often as it occurs; the rest are dropped. */
  lemma FilterMultiplicity(table: seq<Record>, sel: Selection, r: Record)
    ensures multiset(Filter(table, sel))[r] ==
      if Keep(sel, r) then multiset(table)[r] else 0
  {
    WhereMultiplicity(table, Matches(sel));
  }

  /** Filtering the view again with the same selection changes nothing. */
  lemma FilterIdempotent(table: seq<Record>, sel: Selection)
    ensures Filter(Filter(table, sel), sel) == Filter(table, sel)
  {
    WhereIdempotent(table, Matches(sel));
  }

  /** Filtering a concatenation filters each part. */
  lemma FilterAppend(a: seq<Record>, b: seq<Record>, sel: Selection)
    ensures Filter(a + b, sel) == Filter(a, sel) + Filter(b, sel)
  {
    WhereAppend(a, b, Matches(sel));
  }

  /** An empty multiselect, or a slider range with `lo > hi`, selects nothing
      (it does not mean "select all"). */
  lemma FilterEmptySelection(table: seq<Record>, sel: Selection)
    requires sel.categories == [] || sel.industries == [] || sel.lo > sel.hi
    ensures Filter(table, sel) == []
  {
    WhereNone(table, Matches(sel));
  }

  /** The default selection (every category, every industry, a range that
      covers every exposure) keeps the whole table. */
  lemma FilterSelectAll(table: seq<Record>, sel: Selection)
    requires forall r :: r in table ==> Keep(sel, r)
    ensures Filter(table, sel) == table
  {
    WhereAll(table, Matches(sel));
  }
}
