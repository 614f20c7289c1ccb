/** Grouping a list by a string key, as `R.groupBy` does for the county rows
    and as the GeoJSON splitter does with its `forEach` over features: each
    group keeps input order, and the groups are listed in the order their
    keys first occur. */
module Grouping {

  /** The groups: the distinct keys in first-occurrence order, and the
      members of each key's group. */
  datatype Groups<T> = Groups(keys: seq<string>, groups: map<string, seq<T>>)

  /** The elements whose key is `k`, in input order. */
  function KeyFilter<T>(xs: seq<T>, key: T -> string, k: string): (r: seq<T>)
    ensures |r| <= |xs|
    ensures forall y | y in r :: y in xs && key(y) == k
    ensures forall i | 0 <= i < |xs| && key(xs[i]) == k :: xs[i] in r
  {
    if |xs| == 0 then []
    else
      var init := KeyFilter(xs[..|xs| - 1], key, k);
      assert forall i | 0 <= i < |xs| - 1 :: xs[i] == xs[..|xs| - 1][i];
      if key(xs[|xs| - 1]) == k then init + [xs[|xs| - 1]] else init
  }

  lemma {:induction false} KeyFilterOfAbsentKey<T>(xs: seq<T>, key: T -> string, k: string)
    requires forall i | 0 <= i < |xs| :: key(xs[i]) != k
    ensures KeyFilter(xs, key, k) == []
    decreases |xs|
  {
    if |xs| > 0 {
      assert forall i | 0 <= i < |xs| - 1 :: xs[..|xs| - 1][i] == xs[i];
      KeyFilterOfAbsentKey(xs[..|xs| - 1], key, k);
    }
  }

  predicate DistinctKeys(ks: seq<string>) {
    forall i, j | 0 <= i < j < |ks| :: ks[i] != ks[j]
  }

  /** The groups of `xs` are exactly the key filters of `xs`. */
  ghost predicate IsGrouping<T>(g: Groups<T>, xs: seq<T>, key: T -> string) {
    && DistinctKeys(g.keys)
    && (forall k :: k in g.keys <==> k in g.groups)
    && (forall k | k in g.groups :: g.groups[k] == KeyFilter(xs, key, k) && |g.groups[k]| > 0)
    && (forall i | 0 <= i < |xs| :: key(xs[i]) in g.groups)
  }

  /** Adding one element to a grouping of the elements before it. */
  function AddToGroups<T>(g: Groups<T>, x: T, key: T -> string): Groups<T> {
    var k := key(x);
    if k in g.groups then Groups(g.keys, g.groups[k := g.groups[k] + [x]])
    else Groups(g.keys + [k], g.groups[k := [x]])
  }

  lemma AddToGroupsStep<T>(g: Groups<T>, xs: seq<T>, key: T -> string)
    requires |xs| > 0 && IsGrouping(g, xs[..|xs| - 1], key)
    ensures IsGrouping(AddToGroups(g, xs[|xs| - 1], key), xs, key)
  {
    var init := xs[..|xs| - 1];
    var x := xs[|xs| - 1];
    var g' := AddToGroups(g, x, key);
    forall k | k in g'.groups
      ensures g'.groups[k] == KeyFilter(xs, key, k) && |g'.groups[k]| > 0
    {
      if k != key(x) {
        assert KeyFilter(xs, key, k) == KeyFilter(init, key, k);
        assert k in g.groups;
      } else if k in g.groups {
        assert KeyFilter(xs, key, k) == KeyFilter(init, key, k) + [x];
      } else {
        KeyFilterOfAbsentKey(init, key, k);
        assert KeyFilter(xs, key, k) == [x];
      }
    }
    forall i | 0 <= i < |xs|
      ensures key(xs[i]) in g'.groups
    {
      if i < |xs| - 1 {
        assert xs[i] == init[i];
      }
    }
  }

  /** Adds the elements one after another: a new key opens a group at the
      end of the key list, a known key appends to its group. */
  function GroupBy<T>(xs: seq<T>, key: T -> string): (g: Groups<T>)
    ensures DistinctKeys(g.keys)
    ensures forall k :: k in g.keys <==> k in g.groups
    ensures forall k | k in g.groups :: g.groups[k] == KeyFilter(xs, key, k) && |g.groups[k]| > 0
    ensures forall i | 0 <= i < |xs| :: key(xs[i]) in g.groups
  {
    if |xs| == 0 then Groups([], map[])
    else
      var g := GroupBy(xs[..|xs| - 1], key);
      AddToGroupsStep(g, xs, key);
      AddToGroups(g, xs[|xs| - 1], key)
  }

  /** Grouping a non-empty list adds its last element to the grouping of
      the elements before it. */
  lemma GroupByStep<T>(xs: seq<T>, key: T -> string)
    requires |xs| > 0
    ensures GroupBy(xs, key) == AddToGroups(GroupBy(xs[..|xs| - 1], key), xs[|xs| - 1], key)
  {
  }

  /** The first position whose element has key `k`, or `|xs|` when there is none. */
  function FirstIndex<T>(xs: seq<T>, key: T -> string, k: string): (i: nat)
    ensures i <= |xs|
    ensures i < |xs| ==> key(xs[i]) == k
  {
    if |xs| == 0 then 0
    else if key(xs[0]) == k then 0
    else 1 + FirstIndex(xs[1..], key, k)
  }

  /** No element before the first position has key `k`. */
  lemma {:induction false} FirstIndexIsFirst<T>(xs: seq<T>, key: T -> string, k: string, j: nat)
    requires j < FirstIndex(xs, key, k)
    ensures key(xs[j]) != k
    decreases j
  {
    if j > 0 {
      FirstIndexIsFirst(xs[1..], key, k, j - 1);
    }
  }

  lemma FirstIndexKept<T>(init: seq<T>, x: T, key: T -> string, k: string)
    requires FirstIndex(init, key, k) < |init|
    ensures FirstIndex(init + [x], key, k) == FirstIndex(init, key, k)
  {
    var i := FirstIndex(init, key, k);
    var r := FirstIndex(init + [x], key, k);
    assert (init + [x])[i] == init[i];
    if r < i {
      FirstIndexIsFirst(init, key, k, r);
    } else if r > i {
      FirstIndexIsFirst(init + [x], key, k, i);
    }
  }

  lemma FirstIndexOfNewKey<T>(init: seq<T>, x: T, key: T -> string)
    requires forall j | 0 <= j < |init| :: key(init[j]) != key(x)
    ensures FirstIndex(init + [x], key, key(x)) == |init|
  {
    var r := FirstIndex(init + [x], key, key(x));
    if r > |init| {
      FirstIndexIsFirst(init + [x], key, key(x), |init|);
    }
  }

  /** Keys listed in the order of their first occurrence in `xs`. */
  ghost predicate FirstOccurrenceOrder<T>(ks: seq<string>, xs: seq<T>, key: T -> string) {
    && (forall a | 0 <= a < |ks| :: FirstIndex(xs, key, ks[a]) < |xs|)
    && (forall a, b | 0 <= a < b < |ks| :: FirstIndex(xs, key, ks[a]) < FirstIndex(xs, key, ks[b]))
  }

  lemma FirstOccurrenceKept<T>(ks: seq<string>, init: seq<T>, x: T, key: T -> string)
    requires FirstOccurrenceOrder(ks, init, key)
    ensures FirstOccurrenceOrder(ks, init + [x], key)
    ensures forall a | 0 <= a < |ks| :: FirstIndex(init + [x], key, ks[a]) < |init|
  {
    forall a | 0 <= a < |ks|
      ensures FirstIndex(init + [x], key, ks[a]) == FirstIndex(init, key, ks[a])
    {
      FirstIndexKept(init, x, key, ks[a]);
    }
  }

  lemma FirstOccurrenceOfNewKey<T>(ks: seq<string>, xs: seq<T>, key: T -> string, k: string)
    requires FirstOccurrenceOrder(ks, xs, key)
    requires FirstIndex(xs, key, k) < |xs|
    requires forall a | 0 <= a < |ks| :: FirstIndex(xs, key, ks[a]) < FirstIndex(xs, key, k)
    ensures FirstOccurrenceOrder(ks + [k], xs, key)
  {
    var ks' := ks + [k];
    forall a | 0 <= a < |ks'|
      ensures FirstIndex(xs, key, ks'[a]) < |xs|
    {
      if a < |ks| {
        assert ks'[a] == ks[a];
      }
    }
    forall a, b | 0 <= a < b < |ks'|
      ensures FirstIndex(xs, key, ks'[a]) < FirstIndex(xs, key, ks'[b])
    {
      assert ks'[a] == ks[a];
      if b < |ks| {
        assert ks'[b] == ks[b];
      }
    }
  }

  lemma FirstOccurrenceStep<T>(g: Groups<T>, init: seq<T>, x: T, key: T -> string)
    requires FirstOccurrenceOrder(g.keys, init, key)
    requires forall j | 0 <= j < |init| :: key(init[j]) in g.groups
    ensures FirstOccurrenceOrder(AddToGroups(g, x, key).keys, init + [x], key)
  {
    FirstOccurrenceKept(g.keys, init, x, key);
    if key(x) !in g.groups {
      FirstIndexOfNewKey(init, x, key);
      FirstOccurrenceOfNewKey(g.keys, init + [x], key, key(x));
    }
  }

  /** The keys are listed in the order of their first occurrence: each key
      occurs in the input, and a key listed earlier occurs first earlier. */
  lemma {:induction false} KeysInFirstOccurrenceOrder<T>(xs: seq<T>, key: T -> string)
    ensures FirstOccurrenceOrder(GroupBy(xs, key).keys, xs, key)
    decreases |xs|
  {
    if |xs| > 0 {
      var init, x := xs[..|xs| - 1], xs[|xs| - 1];
      assert xs == init + [x];
      var g := GroupBy(init, key);
      KeysInFirstOccurrenceOrder(init, key);
      FirstOccurrenceStep(g, init, x, key);
      GroupByStep(xs, key);
    }
  }

  /** Total size of the groups listed in `ks`. */
  function SizeSum<T>(ks: seq<string>, m: map<string, seq<T>>): nat {
    if |ks| == 0 then 0
    else SizeSum(ks[..|ks| - 1], m) + (if ks[|ks| - 1] in m then |m[ks[|ks| - 1]]| else 0)
  }

  lemma {:induction false} SizeSumIgnores<T>(ks: seq<string>, m: map<string, seq<T>>, k: string, v: seq<T>)
    requires k !in ks
    ensures SizeSum(ks, m[k := v]) == SizeSum(ks, m)
    decreases |ks|
  {
    if |ks| > 0 {
      SizeSumIgnores(ks[..|ks| - 1], m, k, v);
    }
  }

  lemma {:induction false} SizeSumUpdate<T>(ks: seq<string>, m: map<string, seq<T>>, k: string, v: seq<T>)
    requires DistinctKeys(ks) && k in ks && k in m
    ensures SizeSum(ks, m[k := v]) + |m[k]| == SizeSum(ks, m) + |v|
    decreases |ks|
  {
    var init := ks[..|ks| - 1];
    if ks[|ks| - 1] == k {
      assert k !in init;
      SizeSumIgnores(init, m, k, v);
    } else {
      assert k in init;
      SizeSumUpdate(init, m, k, v);
    }
  }

  /** Every element lands in exactly one group: the group sizes add up to
      the number of elements. */
  lemma {:induction false} GroupSizesAddUp<T>(xs: seq<T>, key: T -> string)
    ensures SizeSum(GroupBy(xs, key).keys, GroupBy(xs, key).groups) == |xs|
    decreases |xs|
  {
    if |xs| > 0 {
      var init := xs[..|xs| - 1];
      var x := xs[|xs| - 1];
      var g := GroupBy(init, key);
      GroupSizesAddUp(init, key);
      GroupByStep(xs, key);
      var k := key(x);
      if k in g.groups {
        SizeSumUpdate(g.keys, g.groups, k, g.groups[k] + [x]);
      } else {
        SizeSumIgnores(g.keys, g.groups, k, [x]);
        assert (g.keys + [k])[..|g.keys|] == g.keys;
      }
    }
  }

  /** Element i belongs to the group of its own key and to no other: every
      other group holds only elements with that group's key. */
  lemma ElementInExactlyOneGroup<T>(xs: seq<T>, key: T -> string, i: nat)
    requires i < |xs|
    ensures key(xs[i]) in GroupBy(xs, key).groups
    ensures xs[i] in GroupBy(xs, key).groups[key(xs[i])]
    ensures forall k | k in GroupBy(xs, key).groups && xs[i] in GroupBy(xs, key).groups[k] :: k == key(xs[i])
  {
  }

  /** The element at a lower position comes first in its group. */
  lemma {:induction false} KeyFilterKeepsOrder<T>(xs: seq<T>, key: T -> string, k: string, i: nat, j: nat)
    requires i < j < |xs| && key(xs[i]) == k && key(xs[j]) == k
    ensures exists a, b | 0 <= a < b < |KeyFilter(xs, key, k)| ::
      KeyFilter(xs, key, k)[a] == xs[i] && KeyFilter(xs, key, k)[b] == xs[j]
    decreases |xs|
  {
    var init := xs[..|xs| - 1];
    if j < |xs| - 1 {
      KeyFilterKeepsOrder(init, key, k, i, j);
      var a, b :| 0 <= a < b < |KeyFilter(init, key, k)| && KeyFilter(init, key, k)[a] == xs[i] && KeyFilter(init, key, k)[b] == xs[j];
      assert KeyFilter(xs, key, k)[a] == xs[i] && KeyFilter(xs, key, k)[b] == xs[j];
    } else {
      assert init[i] == xs[i];
      var f := KeyFilter(init, key, k);
      assert xs[i] in f;
      var a :| 0 <= a < |f| && f[a] == xs[i];
      assert KeyFilter(xs, key, k) == f + [xs[j]];
      assert KeyFilter(xs, key, k)[a] == xs[i] && KeyFilter(xs, key, k)[|f|] == xs[j];
    }
  }

  lemma KeyFilterTwo<T>(x: T, y: T, key: T -> string)
    requires key(x) != key(y)
    ensures KeyFilter([x, y], key, key(x)) == [x] && KeyFilter([x, y], key, key(y)) == [y]
  {
    assert [x, y][..1] == [x];
    assert [x][..0] == [];
  }

  /** One element makes one group. */
  lemma GroupOne<T>(x: T, key: T -> string)
    ensures GroupBy([x], key).keys == [key(x)]
  {
    assert [x][..0] == [];
  }

  /** Two elements with different keys make two singleton groups. */
  lemma GroupTwo<T>(x: T, y: T, key: T -> string)
    requires key(x) != key(y)
    ensures GroupBy([x, y], key).keys == [key(x), key(y)]
  {
    var g1 := GroupBy([x], key);
    GroupOne(x, key);
    assert key(y) !in g1.groups;
    assert GroupBy([x, y], key) == AddToGroups(g1, y, key) by {
      assert [x, y][..1] == [x];
    }
  }
}
