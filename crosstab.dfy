/** The "Industry Exposure to Skill Decay" table: the view's rows counted
    per (industry, exposure band) pair, as
    `view.assign(exposure=band).groupby(["industry", "exposure"]).size()`.
    Rows without a band have a missing group key and are not counted; only
    pairs that occur are listed, ascending by industry and then by band. */
module CrossTab {
  import opened Wrappers
  import opened Frames
  import opened Ordering
  import opened Skills
  import opened Banding
  import opened Groups

  predicate IsBanded(r: Record) {
    BandOf(r.exposure).Some?
  }

  /** The rows that `pd.cut` puts into some band. */
  function BandedRows(view: seq<Record>): (b: seq<Record>)
    ensures forall r :: r in b <==> r in view && 0.0 < r.exposure <= 100.0
  {
    Where(view, IsBanded)
  }

  function InCell(industry: string, band: Band): Record -> bool {
    (r: Record) => r.industry == industry && BandOf(r.exposure) == Some(band)
  }

  /** The number of rows of the view in one (industry, band) cell. */
  function CellCount(view: seq<Record>, industry: string, band: Band): (n: nat)
    ensures n <= |view|
  {
    |Where(view, InCell(industry, band))|
  }

  /** A cell is counted exactly when some row of the view falls into it. */
  lemma CellCountPositive(view: seq<Record>, industry: string, band: Band)
    ensures CellCount(view, industry, band) > 0 <==>
      exists r :: r in view && r.industry == industry && BandOf(r.exposure) == Some(band)
  {
    var w := Where(view, InCell(industry, band));
    if w != [] {
      assert w[0] in w;
    }
  }

  datatype CrossRow = CrossRow(industry: string, band: Band, count: nat)

  /** Ascending by industry, then by band. */
  predicate RowLt(a: CrossRow, b: CrossRow) {
    StrLt(a.industry, b.industry) || (a.industry == b.industry && Rank(a.band) < Rank(b.band))
  }

  function Cell(view: seq<Record>, industry: string, band: Band): seq<CrossRow> {
    var n := CellCount(view, industry, band);
    if n > 0 then [CrossRow(industry, band, n)] else []
  }

  /** The observed cells of one industry, Low before Medium before High. */
  function IndustryRows(view: seq<Record>, industry: string): (r: seq<CrossRow>)
    ensures forall k :: 0 <= k < |r| ==> r[k].industry == industry
    ensures forall k :: 0 <= k < |r| ==> r[k].count == CellCount(view, industry, r[k].band) > 0
    ensures forall k, l :: 0 <= k < l < |r| ==> Rank(r[k].band) < Rank(r[l].band)
  {
    Cell(view, industry, Low) + Cell(view, industry, Medium) + Cell(view, industry, High)
  }

  lemma IndustryRowsComplete(view: seq<Record>, industry: string, b: Band)
    requires CellCount(view, industry, b) > 0
    ensures exists k :: 0 <= k < |IndustryRows(view, industry)| && IndustryRows(view, industry)[k].band == b
  {
    var lo, mid := Cell(view, industry, Low), Cell(view, industry, Medium);
    var r := IndustryRows(view, industry);
    if b == Low {
      assert r[0].band == Low;
    } else if b == Medium {
      assert r[|lo|].band == Medium;
    } else {
      assert r[|lo| + |mid|].band == High;
    }
  }

  /** The observed cells of the listed industries, in list order. */
  function RowsFor(view: seq<Record>, industries: seq<string>): (r: seq<CrossRow>)
    ensures forall k :: 0 <= k < |r| ==>
      r[k].industry in industries && r[k].count == CellCount(view, r[k].industry, r[k].band) && r[k].count > 0
  {
    if industries == [] then []
    else
      var first, rest := IndustryRows(view, industries[0]), RowsFor(view, industries[1..]);
      var r := first + rest;
      assert forall k :: |first| <= k < |r| ==> r[k] == rest[k - |first|];
      assert forall x :: x in industries[1..] ==> x in industries;
      r
  }

  /** Strictly ascending by (industry, band). */
  predicate Ascending(rows: seq<CrossRow>) {
    forall k, l :: 0 <= k < l < |rows| ==> RowLt(rows[k], rows[l])
  }

  lemma AscendingAppend(a: seq<CrossRow>, b: seq<CrossRow>)
    requires Ascending(a) && Ascending(b)
    requires forall x, y :: x in a && y in b ==> RowLt(x, y)
    ensures Ascending(a + b)
  {
    var r := a + b;
    forall k, l | 0 <= k < l < |r| ensures RowLt(r[k], r[l]) {
      if l < |a| {
        assert r[k] == a[k] && r[l] == a[l];
      } else if k < |a| {
        assert r[k] == a[k] && r[l] == b[l - |a|];
        assert r[k] in a && r[l] in b;
      } else {
        assert r[k] == b[k - |a|] && r[l] == b[l - |a|];
      }
    }
  }

  /** With ascending industries the rows are strictly ascending. */
  lemma {:induction false} RowsForSorted(view: seq<Record>, industries: seq<string>)
    requires StrictlySorted(industries)
    ensures Ascending(RowsFor(view, industries))
  {
    if industries != [] {
      var first, rest := IndustryRows(view, industries[0]), RowsFor(view, industries[1..]);
      RowsForCons(view, industries);
      assert StrictlySorted(industries[1..]);
      RowsForSorted(view, industries[1..]);
      FirstIsLeast(industries);
      forall x, y | x in first && y in rest ensures RowLt(x, y) {
        assert x.industry == industries[0];
        assert y.industry in industries[1..];
      }
      AscendingAppend(first, rest);
    }
  }

  lemma FirstIsLeast(industries: seq<string>)
    requires StrictlySorted(industries) && industries != []
    ensures forall x :: x in industries[1..] ==> StrLt(industries[0], x)
  {
    forall x | x in industries[1..] ensures StrLt(industries[0], x) {
      var j :| 0 <= j < |industries[1..]| && industries[1..][j] == x;
      assert industries[j + 1] == x;
    }
  }

  /** Some row is the cell (industry, band). */
  predicate HasCell(rows: seq<CrossRow>, industry: string, band: Band) {
    exists k :: 0 <= k < |rows| && rows[k].industry == industry && rows[k].band == band
  }

  lemma HasCellAppend(a: seq<CrossRow>, b: seq<CrossRow>, industry: string, band: Band)
    requires HasCell(a, industry, band) || HasCell(b, industry, band)
    ensures HasCell(a + b, industry, band)
  {
    if HasCell(a, industry, band) {
      var k :| 0 <= k < |a| && a[k].industry == industry && a[k].band == band;
      assert (a + b)[k] == a[k];
    } else {
      var k :| 0 <= k < |b| && b[k].industry == industry && b[k].band == band;
      assert (a + b)[|a| + k] == b[k];
    }
  }

  lemma RowsForCons(view: seq<Record>, industries: seq<string>)
    requires industries != []
    ensures RowsFor(view, industries) == IndustryRows(view, industries[0]) + RowsFor(view, industries[1..])
  {
  }

  /** Each observed cell of a listed industry has a row. */
  lemma {:induction false} RowsForComplete(view: seq<Record>, industries: seq<string>, i: string, b: Band)
    requires i in industries && CellCount(view, i, b) > 0
    ensures HasCell(RowsFor(view, industries), i, b)
  {
    var first, rest := IndustryRows(view, industries[0]), RowsFor(view, industries[1..]);
    RowsForCons(view, industries);
    if i == industries[0] {
      IndustryRowsComplete(view, i, b);
      var k :| 0 <= k < |first| && first[k].band == b;
      assert first[k].industry == i;
    } else {
      assert i in industries[1..];
      RowsForComplete(view, industries[1..], i, b);
    }
    HasCellAppend(first, rest, i, b);
  }

  /** The cross-tab: one row per observed (industry, band) pair. */
  function CrossTab(view: seq<Record>): (r: seq<CrossRow>)
    ensures forall k :: 0 <= k < |r| ==>
      r[k].count == CellCount(view, r[k].industry, r[k].band) && r[k].count > 0
    ensures Ascending(r)
  {
    var industries := GroupKeys(BandedRows(view), Industry);
    RowsForSorted(view, industries);
    RowsFor(view, industries)
  }

  /** Every observed pair has its row (and, the rows being strictly
      ascending, exactly one). */
  lemma CrossTabComplete(view: seq<Record>, industry: string, band: Band)
    requires CellCount(view, industry, band) > 0
    ensures HasCell(CrossTab(view), industry, band)
  {
    var cell := Where(view, InCell(industry, band));
    var x := cell[0];
    assert x in cell;
    assert x in BandedRows(view);
    var industries := GroupKeys(BandedRows(view), Industry);
    assert industry in industries;
    RowsForComplete(view, industries, industry, band);
  }

  /** The sum of the `count` column. */
  function TotalCount(rows: seq<CrossRow>): nat {
    if rows == [] then 0 else rows[0].count + TotalCount(rows[1..])
  }

  lemma {:induction false} TotalCountAppend(a: seq<CrossRow>, b: seq<CrossRow>)
    ensures TotalCount(a + b) == TotalCount(a) + TotalCount(b)
  {
    if a == [] {
      assert a + b == b;
    } else {
      assert (a + b)[1..] == a[1..] + b;
      TotalCountAppend(a[1..], b);
    }
  }

  /** The three cells of an industry together hold its banded rows. */
  lemma {:induction false} CellsOfIndustry(view: seq<Record>, industry: string)
    ensures CellCount(view, industry, Low) + CellCount(view, industry, Medium) + CellCount(view, industry, High)
      == |Group(BandedRows(view), Industry, industry)|
  {
    if view != [] {
      var x, rest := view[0], view[1..];
      CellsOfIndustry(rest, industry);
      var head := if IsBanded(x) then [x] else [];
      assert BandedRows(view) == head + BandedRows(rest);
      WhereAppend(head, BandedRows(rest), HasKey(Industry, industry));
      assert |Where(head, HasKey(Industry, industry))| ==
        if IsBanded(x) && x.industry == industry then 1 else 0;
    }
  }

  lemma TotalCountOfIndustry(view: seq<Record>, industry: string)
    ensures TotalCount(IndustryRows(view, industry)) == |Group(BandedRows(view), Industry, industry)|
  {
    var lo, mid, hi := Cell(view, industry, Low), Cell(view, industry, Medium), Cell(view, industry, High);
    TotalCountAppend(lo, mid);
    TotalCountAppend(lo + mid, hi);
    CellsOfIndustry(view, industry);
  }

  lemma {:induction false} TotalCountOfRowsFor(view: seq<Record>, industries: seq<string>)
    ensures TotalCount(RowsFor(view, industries)) == GroupSizes(BandedRows(view), Industry, industries)
  {
    if industries != [] {
      TotalCountAppend(IndustryRows(view, industries[0]), RowsFor(view, industries[1..]));
      TotalCountOfIndustry(view, industries[0]);
      TotalCountOfRowsFor(view, industries[1..]);
    }
  }

  /** The counts add up to the number of rows of the view that have a band:
      the cross-tab partitions the banded rows. */
  lemma CrossTabTotal(view: seq<Record>)
    ensures TotalCount(CrossTab(view)) == |BandedRows(view)|
  {
    var industries := GroupKeys(BandedRows(view), Industry);
    TotalCountOfRowsFor(view, industries);
    GroupsPartitionView(BandedRows(view), Industry);
  }
}
