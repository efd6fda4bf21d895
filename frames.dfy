/** Row selection on an in-memory table, as pandas does it with a boolean
    mask: `df[mask]` keeps the rows whose mask entry is true, in their
    original order and with their multiplicity. */
module Frames {

  /** The rows of `xs` for which `p` holds, in their original order. */
  function Where<T(==,!new)>(xs: seq<T>, p: T -> bool): (r: seq<T>)
    ensures |r| <= |xs|
    ensures forall x :: x in r <==> x in xs && p(x)
  {
    if xs == [] then [] else (if p(xs[0]) then [xs[0]] else []) + Where(xs[1..], p)
  }

  /** `a` can be obtained from `b` by deleting elements (order is kept). */
  predicate IsSubsequence<T(==,!new)>(a: seq<T>, b: seq<T>)
    decreases |b|
  {
    a == [] ||
    (b != [] &&
     ((a[0] == b[0] && IsSubsequence(a[1..], b[1..])) || IsSubsequence(a, b[1..])))
  }

  /** No element occurs twice. */
  predicate Distinct<T(==,!new)>(s: seq<T>) {
    forall i, j :: 0 <= i < j < |s| ==> s[i] != s[j]
  }

  lemma {:induction false} WhereIsSubsequence<T(!new)>(xs: seq<T>, p: T -> bool)
    ensures IsSubsequence(Where(xs, p), xs)
  {
    if xs != [] {
      WhereIsSubsequence(xs[1..], p);
      var rest := Where(xs[1..], p);
      if p(xs[0]) {
        var r := [xs[0]] + rest;
        assert r[0] == xs[0] && r[1..] == rest;
      } else {
        assert Where(xs, p) == rest;
        if rest != [] {
          assert IsSubsequence(rest, xs[1..]);
        }
      }
    }
  }

  /** Selecting with the same mask twice selects nothing more or less. */
  lemma {:induction false} WhereIdempotent<T(!new)>(xs: seq<T>, p: T -> bool)
    ensures Where(Where(xs, p), p) == Where(xs, p)
  {
    if xs != [] {
      var rest := Where(xs[1..], p);
      WhereIdempotent(xs[1..], p);
      if p(xs[0]) {
        var r := [xs[0]] + rest;
        assert r[0] == xs[0] && r[1..] == rest;
      } else {
        assert Where(xs, p) == rest;
      }
    }
  }

  /** Every row satisfying `p` is kept as many times as it occurs; every
      other row is dropped. */
  lemma {:induction false} WhereMultiplicity<T(!new)>(xs: seq<T>, p: T -> bool)
    ensures forall x :: multiset(Where(xs, p))[x] == if p(x) then multiset(xs)[x] else 0
  {
    if xs != [] {
      WhereMultiplicity(xs[1..], p);
      assert xs == [xs[0]] + xs[1..];
      assert multiset(xs) == multiset{xs[0]} + multiset(xs[1..]);
    }
  }

  /** Selecting from two concatenated tables is concatenating the selections. */
  lemma {:induction false} WhereAppend<T(!new)>(a: seq<T>, b: seq<T>, p: T -> bool)
    ensures Where(a + b, p) == Where(a, p) + Where(b, p)
  {
    if a != [] {
      assert (a + b)[0] == a[0] && (a + b)[1..] == a[1..] + b;
      WhereAppend(a[1..], b, p);
    } else {
      assert a + b == b;
    }
  }

  /** A weaker mask selects at least as many rows. */
  lemma {:induction false} WhereMonotone<T(!new)>(xs: seq<T>, p: T -> bool, q: T -> bool)
    requires forall x :: p(x) ==> q(x)
    ensures |Where(xs, p)| <= |Where(xs, q)|
  {
    if xs != [] {
      WhereMonotone(xs[1..], p, q);
    }
  }

  /** If the mask holds for every row, the selection is the whole table. */
  lemma {:induction false} WhereAll<T(!new)>(xs: seq<T>, p: T -> bool)
    requires forall x :: x in xs ==> p(x)
    ensures Where(xs, p) == xs
  {
    if xs != [] {
      assert xs[0] in xs;
      forall x | x in xs[1..] ensures p(x) { assert x in xs; }
      WhereAll(xs[1..], p);
      assert [xs[0]] + xs[1..] == xs;
    }
  }

  /** If the mask holds for no row, the selection is empty. */
  lemma WhereNone<T(!new)>(xs: seq<T>, p: T -> bool)
    requires forall x :: x in xs ==> !p(x)
    ensures Where(xs, p) == []
  {
  }
}
