/** `view.groupby(key).skill_half_life_years.mean()` with pandas' default
    `sort=True`: one group per distinct key value, keys in ascending order,
    and the mean half-life of each group. */
module Groups {
  import opened Wrappers
  import opened Frames
  import opened Stats
  import opened Ordering
  import opened Skills
  import opened Kpis

  /** The string columns the dashboard groups by. */
  datatype KeyColumn = SkillCategory | Industry | LearningMode

  function KeyOf(r: Record, col: KeyColumn): string {
    match col
    case SkillCategory => r.category
    case Industry => r.industry
    case LearningMode => r.learningMode
  }

  function HasKey(col: KeyColumn, k: string): Record -> bool {
    (r: Record) => KeyOf(r, col) == k
  }

  /** The rows whose key column holds `k`, in view order. */
  function Group(view: seq<Record>, col: KeyColumn, k: string): (g: seq<Record>)
    ensures forall r :: r in g <==> r in view && KeyOf(r, col) == k
  {
    Where(view, HasKey(col, k))
  }

  function KeyColumnValues(view: seq<Record>, col: KeyColumn): (c: seq<string>)
    ensures |c| == |view|
    ensures forall i :: 0 <= i < |view| ==> c[i] == KeyOf(view[i], col)
  {
    seq(|view|, i requires 0 <= i < |view| => KeyOf(view[i], col))
  }

  /** The group keys: every key that occurs in the view, once, ascending. */
  function GroupKeys(view: seq<Record>, col: KeyColumn): (ks: seq<string>)
    ensures StrictlySorted(ks)
    ensures forall k :: k in ks <==> exists r :: r in view && KeyOf(r, col) == k
  {
    var c := KeyColumnValues(view, col);
    var ks := SortedKeys(c);
    assert forall k :: k in ks ==> exists r :: r in view && KeyOf(r, col) == k by {
      forall k | k in ks ensures exists r :: r in view && KeyOf(r, col) == k {
        var i :| 0 <= i < |c| && c[i] == k;
        assert view[i] in view;
      }
    }
    assert forall r :: r in view ==> KeyOf(r, col) in ks by {
      forall r | r in view ensures KeyOf(r, col) in ks {
        var i :| 0 <= i < |view| && view[i] == r;
        assert c[i] in c;
      }
    }
    ks
  }

  /** The mean half-life of a non-empty group lies between the group's
      smallest and largest half-life. */
  function GroupMeanOf(view: seq<Record>, col: KeyColumn, k: string): (m: real)
    requires exists r :: r in view && KeyOf(r, col) == k
    ensures Group(view, col, k) != []
    ensures Min(HalfLives(Group(view, col, k))) <= m <= Max(HalfLives(Group(view, col, k)))
  {
    var g := Group(view, col, k);
    assert g != [] by {
      var r :| r in view && KeyOf(r, col) == k;
      assert r in g;
    }
    Mean(HalfLives(g)).value
  }

  datatype GroupMean = GroupMean(key: string, meanHalfLife: real)

  /** The grouped bar chart data: one row per group key, in the order of
      `GroupKeys`, with a mean half-life that lies within the group's range. */
  function GroupMeans(view: seq<Record>, col: KeyColumn): (r: seq<GroupMean>)
    ensures |r| == |GroupKeys(view, col)|
    ensures forall i :: 0 <= i < |r| ==> r[i].key == GroupKeys(view, col)[i]
    ensures forall i :: 0 <= i < |r| ==> Group(view, col, r[i].key) != []
    ensures forall i :: 0 <= i < |r| ==>
      Min(HalfLives(Group(view, col, r[i].key))) <= r[i].meanHalfLife <= Max(HalfLives(Group(view, col, r[i].key)))
  {
    var ks := GroupKeys(view, col);
    assert forall i :: 0 <= i < |ks| ==> exists x :: x in view && KeyOf(x, col) == ks[i] by {
      forall i | 0 <= i < |ks| ensures exists x :: x in view && KeyOf(x, col) == ks[i] {
        assert ks[i] in ks;
      }
    }
    seq(|ks|, i requires 0 <= i < |ks| => GroupMean(ks[i], GroupMeanOf(view, col, ks[i])))
  }

  /** Sum of the sizes of the groups named by `ks`. */
  function GroupSizes(view: seq<Record>, col: KeyColumn, ks: seq<string>): nat {
    if ks == [] then 0 else |Group(view, col, ks[0])| + GroupSizes(view, col, ks[1..])
  }

  lemma {:induction false} GroupSizesOfEmpty(col: KeyColumn, ks: seq<string>)
    ensures GroupSizes([], col, ks) == 0
  {
    if ks != [] {
      GroupSizesOfEmpty(col, ks[1..]);
    }
  }

  /** Adding one row in front adds one to the sizes if its key is listed. */
  lemma {:induction false} GroupSizesCons(x: Record, rest: seq<Record>, col: KeyColumn, ks: seq<string>)
    requires Distinct(ks)
    ensures GroupSizes([x] + rest, col, ks) ==
      (if KeyOf(x, col) in ks then 1 else 0) + GroupSizes(rest, col, ks)
  {
    if ks != [] {
      var view := [x] + rest;
      assert view[0] == x && view[1..] == rest;
      assert |Group(view, col, ks[0])| ==
        (if KeyOf(x, col) == ks[0] then 1 else 0) + |Group(rest, col, ks[0])|;
      assert Distinct(ks[1..]);
      assert KeyOf(x, col) == ks[0] ==> KeyOf(x, col) !in ks[1..];
      GroupSizesCons(x, rest, col, ks[1..]);
    }
  }

  /** Distinct keys that cover every row partition the rows: the group
      sizes add up to the number of rows. */
  lemma {:induction false} GroupSizesPartition(view: seq<Record>, col: KeyColumn, ks: seq<string>)
    requires Distinct(ks)
    requires forall r :: r in view ==> KeyOf(r, col) in ks
    ensures GroupSizes(view, col, ks) == |view|
  {
    if view == [] {
      GroupSizesOfEmpty(col, ks);
    } else {
      var rest := view[1..];
      assert view == [view[0]] + rest;
      assert view[0] in view;
      forall r | r in rest ensures KeyOf(r, col) in ks { assert r in view; }
      GroupSizesPartition(rest, col, ks);
      GroupSizesCons(view[0], rest, col, ks);
    }
  }

  /** Every row of the view lands in exactly one group: the group sizes sum
      to the view length. */
  lemma GroupsPartitionView(view: seq<Record>, col: KeyColumn)
    ensures GroupSizes(view, col, GroupKeys(view, col)) == |view|
  {
    var ks := GroupKeys(view, col);
    StrictlySortedIsDistinct(ks);
    GroupSizesPartition(view, col, ks);
  }

  /** Each row belongs to the group of its own key and to no other. */
  lemma RowInOneGroup(view: seq<Record>, col: KeyColumn, x: Record)
    requires x in view
    ensures exists i :: 0 <= i < |GroupKeys(view, col)| && x in Group(view, col, GroupKeys(view, col)[i])
    ensures forall i, j :: 0 <= i < j < |GroupKeys(view, col)| ==>
      !(x in Group(view, col, GroupKeys(view, col)[i]) && x in Group(view, col, GroupKeys(view, col)[j]))
  {
    var ks := GroupKeys(view, col);
    StrictlySortedIsDistinct(ks);
    assert KeyOf(x, col) in ks;
    var i :| 0 <= i < |ks| && ks[i] == KeyOf(x, col);
    assert x in Group(view, col, ks[i]);
  }

  /** The key column of a list of group means. */
  function Keys(r: seq<GroupMean>): (ks: seq<string>)
    ensures |ks| == |r|
    ensures forall i :: 0 <= i < |r| ==> ks[i] == r[i].key
  {
    seq(|r|, i requires 0 <= i < |r| => r[i].key)
  }

  /** "Average Skill Half-Life by Category": one bar per category of the
      view, ascending, each with the mean half-life of that category's rows. */
  function MeanHalfLifeByCategory(view: seq<Record>): (r: seq<GroupMean>)
    ensures StrictlySorted(Keys(r))
    ensures forall c :: c in Keys(r) <==> exists x :: x in view && x.category == c
    ensures forall i :: 0 <= i < |r| ==> Group(view, SkillCategory, r[i].key) != []
    ensures forall i :: 0 <= i < |r| ==>
      Min(HalfLives(Group(view, SkillCategory, r[i].key))) <= r[i].meanHalfLife <= Max(HalfLives(Group(view, SkillCategory, r[i].key)))
  {
    var r := GroupMeans(view, SkillCategory);
    assert Keys(r) == GroupKeys(view, SkillCategory);
    r
  }

  /** "Learning Mode Impact on Skill Longevity": one bar per learning mode
      of the view, ascending, each with the mean half-life of that mode's
      rows. */
  function MeanHalfLifeByLearningMode(view: seq<Record>): (r: seq<GroupMean>)
    ensures StrictlySorted(Keys(r))
    ensures forall m :: m in Keys(r) <==> exists x :: x in view && x.learningMode == m
    ensures forall i :: 0 <= i < |r| ==> Group(view, LearningMode, r[i].key) != []
    ensures forall i :: 0 <= i < |r| ==>
      Min(HalfLives(Group(view, LearningMode, r[i].key))) <= r[i].meanHalfLife <= Max(HalfLives(Group(view, LearningMode, r[i].key)))
  {
    var r := GroupMeans(view, LearningMode);
    assert Keys(r) == GroupKeys(view, LearningMode);
    r
  }
}
