/** Exposure banding with `pd.cut(exposure, bins=[0, 40, 70, 100],
    labels=["Low", "Medium", "High"])`: with pandas' defaults `right=True`
    and `include_lowest=False` every bin is open on the left and closed on
    the right, and a value outside every bin gets no label (NaN). */
module Banding {
  import opened Wrappers

  datatype Band = Low | Medium | High

  /** pandas keeps the labels in their given order (an ordered categorical). */
  function Rank(b: Band): nat {
    match b
    case Low => 0
    case Medium => 1
    case High => 2
  }

  const Edges: seq<real> := [0.0, 40.0, 70.0, 100.0]
  const Labels: seq<Band> := [Low, Medium, High]

  /** `x` lies in the half-open bin `(edges[i], edges[i + 1]]`. */
  predicate InBin(x: real, edges: seq<real>, i: nat)
    requires i + 1 < |edges|
  {
    edges[i] < x <= edges[i + 1]
  }

  /** `pd.cut` accepts only strictly increasing edges (it raises
      `ValueError` otherwise). */
  predicate StrictlyIncreasing(edges: seq<real>) {
    forall k :: 0 <= k < |edges| - 1 ==> edges[k] < edges[k + 1]
  }

  /** The index of the first right-closed bin, from bin `i` on, that holds
      `x`; `None` when no such bin does. */
  function CutFrom(x: real, edges: seq<real>, i: nat): (r: Option<nat>)
    requires StrictlyIncreasing(edges)
    decreases |edges| - i
    ensures r.Some? ==> i <= r.value && r.value + 1 < |edges| && InBin(x, edges, r.value)
    ensures r.None? ==> forall j :: i <= j && j + 1 < |edges| ==> !InBin(x, edges, j)
  {
    if i + 1 >= |edges| then None
    else if InBin(x, edges, i) then Some(i)
    else CutFrom(x, edges, i + 1)
  }

  /** `pd.cut` with explicit, strictly increasing bin edges: the bin index
      of `x`, if any. */
  function Cut(x: real, edges: seq<real>): (r: Option<nat>)
    requires StrictlyIncreasing(edges)
    ensures r.Some? ==> r.value + 1 < |edges| && InBin(x, edges, r.value)
    ensures r.None? ==> forall j :: 0 <= j && j + 1 < |edges| ==> !InBin(x, edges, j)
  {
    CutFrom(x, edges, 0)
  }

  /** With increasing edges the bins are disjoint, so a value is in at most
      one of them: the index `Cut` returns is the only one. */
  lemma CutUnique(x: real, edges: seq<real>, j: nat)
    requires StrictlyIncreasing(edges)
    requires j + 1 < |edges| && InBin(x, edges, j)
    ensures Cut(x, edges) == Some(j)
  {
    var r := Cut(x, edges);
    var i := r.value;
    if i < j {
      Increasing(edges, i + 1, j);
    } else if j < i {
      Increasing(edges, j + 1, i);
    }
  }

  lemma {:induction false} Increasing(edges: seq<real>, a: nat, b: nat)
    requires StrictlyIncreasing(edges)
    requires a <= b < |edges|
    ensures edges[a] <= edges[b]
  {
    if a < b {
      Increasing(edges, a, b - 1);
    }
  }

  /** The exposure band of a value. */
  function BandOf(x: real): (b: Option<Band>)
    ensures b == Some(Low) <==> 0.0 < x <= 40.0
    ensures b == Some(Medium) <==> 40.0 < x <= 70.0
    ensures b == Some(High) <==> 70.0 < x <= 100.0
    ensures b == None <==> x <= 0.0 || 100.0 < x
  {
    CutEdges(x);
    match Cut(x, Edges)
    case None => None
    case Some(k) => Some(Labels[k])
  }

  /** Where `Cut` puts a value with the dashboard's edges. */
  lemma CutEdges(x: real)
    ensures Cut(x, Edges) == Some(0) <==> 0.0 < x <= 40.0
    ensures Cut(x, Edges) == Some(1) <==> 40.0 < x <= 70.0
    ensures Cut(x, Edges) == Some(2) <==> 70.0 < x <= 100.0
    ensures Cut(x, Edges) == None <==> x <= 0.0 || 100.0 < x
  {
    if 0.0 < x <= 100.0 {
      var j := if x <= 40.0 then 0 else if x <= 70.0 then 1 else 2;
      assert InBin(x, Edges, j);
      CutUnique(x, Edges, j);
    }
  }

  /** The boundary cases: each right edge belongs to the bin below it, the
      left edge 0 and anything outside (0, 100] gets no band. */
  lemma BandBoundaries()
    ensures BandOf(40.0) == Some(Low) && BandOf(40.5) == Some(Medium) && BandOf(41.0) == Some(Medium)
    ensures BandOf(70.0) == Some(Medium) && BandOf(70.5) == Some(High)
    ensures BandOf(100.0) == Some(High)
    ensures BandOf(0.0) == None && BandOf(-5.0) == None && BandOf(100.5) == None
    ensures BandOf(30.0) == Some(Low) && BandOf(50.0) == Some(Medium) && BandOf(80.0) == Some(High)
  {
  }
}
