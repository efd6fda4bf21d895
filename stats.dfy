/** Column statistics over mathematical reals: the sum, minimum, maximum
    and arithmetic mean that pandas' `Series.sum`, `min`, `max` and `mean`
    compute. */
module Stats {
  import opened Wrappers

  function Sum(xs: seq<real>): real {
    if xs == [] then 0.0 else xs[0] + Sum(xs[1..])
  }

  function Min(xs: seq<real>): (m: real)
    requires xs != []
    ensures m in xs
    ensures forall i :: 0 <= i < |xs| ==> m <= xs[i]
  {
    if |xs| == 1 then xs[0]
    else
      var m := Min(xs[1..]);
      assert forall i :: 1 <= i < |xs| ==> xs[i] == xs[1..][i - 1];
      if xs[0] <= m then xs[0] else m
  }

  function Max(xs: seq<real>): (m: real)
    requires xs != []
    ensures m in xs
    ensures forall i :: 0 <= i < |xs| ==> xs[i] <= m
  {
    if |xs| == 1 then xs[0]
    else
      var m := Max(xs[1..]);
      assert forall i :: 1 <= i < |xs| ==> xs[i] == xs[1..][i - 1];
      if m <= xs[0] then xs[0] else m
  }

  /** A sum of `n` values each at least `m` is at least `n * m`. */
  lemma {:induction false} SumAtLeast(xs: seq<real>, m: real)
    requires forall i :: 0 <= i < |xs| ==> m <= xs[i]
    ensures |xs| as real * m <= Sum(xs)
  {
    if xs != [] {
      SumAtLeast(xs[1..], m);
      assert |xs| as real * m == |xs[1..]| as real * m + m;
    }
  }

  /** A sum of `n` values each at most `m` is at most `n * m`. */
  lemma {:induction false} SumAtMost(xs: seq<real>, m: real)
    requires forall i :: 0 <= i < |xs| ==> xs[i] <= m
    ensures Sum(xs) <= |xs| as real * m
  {
    if xs != [] {
      SumAtMost(xs[1..], m);
      assert |xs| as real * m == |xs[1..]| as real * m + m;
    }
  }

  /** The arithmetic mean; `None` (pandas: NaN) for an empty column. */
  function Mean(xs: seq<real>): (r: Option<real>)
    ensures r.None? <==> xs == []
    ensures r.Some? ==> Min(xs) <= r.value <= Max(xs)
  {
    if xs == [] then None
    else
      var n, s, lo, hi := |xs| as real, Sum(xs), Min(xs), Max(xs);
      SumAtLeast(xs, lo);
      SumAtMost(xs, hi);
      MeanBetween(s, n, lo, hi);
      Some(s / n)
  }

  /** Dividing `n * lo <= s <= n * hi` by a positive `n`. */
  lemma MeanBetween(s: real, n: real, lo: real, hi: real)
    requires n > 0.0
    requires n * lo <= s <= n * hi
    ensures lo <= s / n <= hi
  {
    assert n * (s / n) == s;
  }

  /** Dividing by a positive count preserves order. */
  lemma DivideMonotone(a: real, b: real, n: real)
    requires n > 0.0
    requires a <= b
    ensures a / n <= b / n
  {
    assert n * (a / n) == a && n * (b / n) == b;
  }
}
