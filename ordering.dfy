/** The order in which pandas' `groupby` (with its default `sort=True`)
    emits string keys: Python's string comparison, which is lexicographic
    on code points. */
module Ordering {
  import opened Frames

  /** `a` sorts strictly before `b`: `a` is a proper prefix of `b`, or the
      first differing character of `a` is smaller. */
  predicate StrLt(a: string, b: string) {
    if a == [] then b != []
    else if b == [] then false
    else if a[0] != b[0] then a[0] < b[0]
    else StrLt(a[1..], b[1..])
  }

  lemma {:induction false} StrLtIrreflexive(a: string)
    ensures !StrLt(a, a)
  {
    if a != [] {
      StrLtIrreflexive(a[1..]);
    }
  }

  lemma {:induction false} StrLtTransitive(a: string, b: string, c: string)
    requires StrLt(a, b) && StrLt(b, c)
    ensures StrLt(a, c)
  {
    if a != [] && b != [] && c != [] && a[0] == b[0] == c[0] {
      StrLtTransitive(a[1..], b[1..], c[1..]);
    }
  }

  lemma {:induction false} StrLtTotal(a: string, b: string)
    requires a != b
    ensures StrLt(a, b) || StrLt(b, a)
  {
    if a != [] && b != [] && a[0] == b[0] {
      assert a == [a[0]] + a[1..] && b == [b[0]] + b[1..];
      StrLtTotal(a[1..], b[1..]);
    }
  }

  predicate StrictlySorted(s: seq<string>) {
    forall i, j :: 0 <= i < j < |s| ==> StrLt(s[i], s[j])
  }

  lemma StrictlySortedIsDistinct(s: seq<string>)
    requires StrictlySorted(s)
    ensures Distinct(s)
  {
    forall i, j | 0 <= i < j < |s| ensures s[i] != s[j] {
      StrLtIrreflexive(s[i]);
    }
  }

  /** Adds `k` to a strictly sorted key list, keeping it strictly sorted. */
  function Insert(k: string, s: seq<string>): (r: seq<string>)
    requires StrictlySorted(s)
    ensures StrictlySorted(r)
    ensures forall x :: x in r <==> x == k || x in s
  {
    if s == [] then [k]
    else if k == s[0] then s
    else if StrLt(k, s[0]) then
      assert forall j :: 0 <= j < |s| ==> StrLt(k, s[j]) by {
        forall j | 0 <= j < |s| ensures StrLt(k, s[j]) {
          if j > 0 { StrLtTransitive(k, s[0], s[j]); }
        }
      }
      [k] + s
    else
      StrLtTotal(k, s[0]);
      var rest := Insert(k, s[1..]);
      assert forall x :: x in rest ==> StrLt(s[0], x) by {
        forall x | x in rest ensures StrLt(s[0], x) {
          if x != k {
            var j :| 0 <= j < |s[1..]| && s[1..][j] == x;
            assert s[j + 1] == x;
          }
        }
      }
      [s[0]] + rest
  }

  /** The distinct values of `xs`, in ascending order. */
  function SortedKeys(xs: seq<string>): (r: seq<string>)
    ensures StrictlySorted(r)
    ensures forall x :: x in r <==> x in xs
  {
    if xs == [] then [] else Insert(xs[0], SortedKeys(xs[1..]))
  }
}
