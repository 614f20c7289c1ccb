/** `R.sortBy(fn)`: a stable sort by a key, comparing keys with JavaScript's
    `<` (strings lexicographically, numbers numerically). The sort is
    written as an insertion sort; for a consistent comparator every stable
    sort yields the same list, and the lemmas below characterise it: sorted,
    a permutation, and stable. */
module StableSort {
  import opened JsValue

  /** A sort key: a string, a number, or NaN (from a non-numeric string). */
  datatype Key = Text(s: string) | Num(n: int) | NaNKey

  /** `a < b` on keys of the same kind; NaN compares false with everything. */
  predicate KeyLess(a: Key, b: Key) {
    match (a, b)
    case (Text(x), Text(y)) => StrLess(x, y)
    case (Num(x), Num(y)) => x < y
    case _ => false
  }

  /** Two keys the comparator orders consistently: both strings or both
      numbers. */
  predicate Comparable(a: Key, b: Key) {
    (a.Text? && b.Text?) || (a.Num? && b.Num?)
  }

  lemma KeyLessIrreflexive(a: Key)
    ensures !KeyLess(a, a)
  {
    if a.Text? {
      StrLessIrreflexive(a.s);
    }
  }

  lemma KeyLessTransitive(a: Key, b: Key, c: Key)
    ensures KeyLess(a, b) && KeyLess(b, c) ==> KeyLess(a, c)
  {
    if a.Text? && b.Text? && c.Text? {
      StrLessTransitive(a.s, b.s, c.s);
    }
  }

  lemma KeyLessTotal(a: Key, b: Key)
    requires Comparable(a, b)
    ensures a == b || KeyLess(a, b) || KeyLess(b, a)
  {
    if a.Text? {
      StrLessTotal(a.s, b.s);
    }
  }

  /** All keys of `xs` are pairwise comparable. */
  predicate AllComparable<T>(xs: seq<T>, key: T -> Key) {
    forall i, j | 0 <= i < |xs| && 0 <= j < |xs| :: Comparable(key(xs[i]), key(xs[j]))
  }

  /** No element is followed by one with a smaller key. */
  predicate Sorted<T>(s: seq<T>, key: T -> Key) {
    forall i, j | 0 <= i < j < |s| :: !KeyLess(key(s[j]), key(s[i]))
  }

  /** Inserts `x` before the first element with a greater key, so after
      every element whose key is not greater. */
  function Insert<T>(x: T, s: seq<T>, key: T -> Key): (r: seq<T>)
    ensures |r| == |s| + 1
  {
    if |s| == 0 then [x]
    else if KeyLess(key(x), key(s[0])) then [x] + s
    else [s[0]] + Insert(x, s[1..], key)
  }

  /** Sorts by inserting the elements one after another, from the first. */
  function SortBy<T>(xs: seq<T>, key: T -> Key): (r: seq<T>)
    ensures |r| == |xs|
  {
    if |xs| == 0 then [] else Insert(xs[|xs| - 1], SortBy(xs[..|xs| - 1], key), key)
  }

  // ---------------------------------------------------------------------
  // Permutation
  // ---------------------------------------------------------------------

  lemma {:induction false} InsertMultiset<T>(x: T, s: seq<T>, key: T -> Key)
    ensures multiset(Insert(x, s, key)) == multiset(s) + multiset{x}
    decreases |s|
  {
    if |s| > 0 && !KeyLess(key(x), key(s[0])) {
      InsertMultiset(x, s[1..], key);
      assert s == [s[0]] + s[1..];
    }
  }

  /** The sorted list is a permutation of the input. */
  lemma {:induction false} SortByPermutes<T>(xs: seq<T>, key: T -> Key)
    ensures multiset(SortBy(xs, key)) == multiset(xs)
    decreases |xs|
  {
    if |xs| > 0 {
      var init := xs[..|xs| - 1];
      SortByPermutes(init, key);
      InsertMultiset(xs[|xs| - 1], SortBy(init, key), key);
      assert xs == init + [xs[|xs| - 1]];
    }
  }

  // ---------------------------------------------------------------------
  // Order
  // ---------------------------------------------------------------------

  /** Every element of `s` has a key comparable with `k`. */
  predicate ComparableWith<T>(s: seq<T>, key: T -> Key, k: Key) {
    forall i | 0 <= i < |s| :: Comparable(key(s[i]), k)
  }

  lemma {:induction false} InsertSorted<T>(x: T, s: seq<T>, key: T -> Key)
    requires Sorted(s, key) && ComparableWith(s, key, key(x))
    ensures Sorted(Insert(x, s, key), key)
    ensures multiset(Insert(x, s, key)) == multiset(s) + multiset{x}
    decreases |s|
  {
    InsertMultiset(x, s, key);
    if |s| == 0 {
    } else if KeyLess(key(x), key(s[0])) {
      var r := [x] + s;
      HeadIsLeast(s, key);
      forall i, j | 0 <= i < j < |r|
        ensures !KeyLess(key(r[j]), key(r[i]))
      {
        if i == 0 {
          assert r[j] == s[j - 1];
          KeyLessTransitive(key(r[j]), key(x), key(s[0]));
        }
      }
    } else {
      var t := s[1..];
      assert Sorted(t, key);
      assert ComparableWith(t, key, key(x));
      InsertSorted(x, t, key);
      var ins := Insert(x, t, key);
      var r := [s[0]] + ins;
      KeyLessTotal(key(s[0]), key(x));
      forall j | 0 <= j < |ins|
        ensures !KeyLess(key(ins[j]), key(s[0]))
      {
        assert ins[j] in multiset(ins);
        assert ins[j] in multiset(t) + multiset{x};
        if ins[j] != x {
          assert ins[j] in t;
          var m :| 0 <= m < |t| && t[m] == ins[j];
          assert s[m + 1] == ins[j];
        }
      }
      forall i, j | 0 <= i < j < |r|
        ensures !KeyLess(key(r[j]), key(r[i]))
      {
        if i > 0 {
          assert r[i] == ins[i - 1] && r[j] == ins[j - 1];
        } else {
          assert r[j] == ins[j - 1];
        }
      }
    }
  }

  lemma {:induction false} SortByComparable<T>(xs: seq<T>, key: T -> Key)
    requires AllComparable(xs, key)
    ensures Sorted(SortBy(xs, key), key)
    decreases |xs|
  {
    if |xs| > 0 {
      var init := xs[..|xs| - 1];
      var x := xs[|xs| - 1];
      assert AllComparable(init, key) by {
        assert forall i | 0 <= i < |init| :: init[i] == xs[i];
      }
      SortByComparable(init, key);
      var sorted := SortBy(init, key);
      SortByPermutes(init, key);
      forall i | 0 <= i < |sorted|
        ensures Comparable(key(sorted[i]), key(x))
      {
        assert sorted[i] in multiset(sorted);
        assert sorted[i] in init;
        var m :| 0 <= m < |init| && init[m] == sorted[i];
        assert xs[m] == sorted[i];
      }
      InsertSorted(x, sorted, key);
    }
  }

  // ---------------------------------------------------------------------
  // Stability
  // ---------------------------------------------------------------------

  /** The elements with key `k`, in order. */
  function WithKey<T>(s: seq<T>, key: T -> Key, k: Key): seq<T> {
    if |s| == 0 then []
    else (if key(s[0]) == k then [s[0]] else []) + WithKey(s[1..], key, k)
  }

  lemma {:induction false} WithKeySnoc<T>(s: seq<T>, x: T, key: T -> Key, k: Key)
    ensures WithKey(s + [x], key, k) == WithKey(s, key, k) + (if key(x) == k then [x] else [])
    decreases |s|
  {
    if |s| > 0 {
      WithKeySnoc(s[1..], x, key, k);
      assert (s + [x])[1..] == s[1..] + [x];
    }
  }

  /** No element of a sorted list has a key below the first one's. */
  lemma HeadIsLeast<T>(s: seq<T>, key: T -> Key)
    requires |s| > 0 && Sorted(s, key)
    ensures forall m | 0 <= m < |s| :: !KeyLess(key(s[m]), key(s[0]))
  {
    KeyLessIrreflexive(key(s[0]));
  }

  lemma {:induction false} WithAbsentKey<T>(s: seq<T>, key: T -> Key, k: Key)
    requires forall m | 0 <= m < |s| :: key(s[m]) != k
    ensures WithKey(s, key, k) == []
    decreases |s|
  {
    if |s| > 0 {
      WithAbsentKey(s[1..], key, k);
    }
  }

  /** In a sorted list whose first key is greater than `k`, no element has
      key `k`. */
  lemma NoKeyAfterGreater<T>(s: seq<T>, key: T -> Key, k: Key)
    requires |s| > 0 && Sorted(s, key) && KeyLess(k, key(s[0]))
    ensures WithKey(s, key, k) == []
  {
    HeadIsLeast(s, key);
    WithAbsentKey(s, key, k);
  }

  /** Inserting in front of a greater key: no element of `s` shares the
      inserted key, so its group is `x` alone. */
  lemma InsertStableFront<T>(x: T, s: seq<T>, key: T -> Key, k: Key)
    requires Sorted(s, key) && |s| > 0 && KeyLess(key(x), key(s[0]))
    ensures WithKey([x] + s, key, k) == WithKey(s, key, k) + (if key(x) == k then [x] else [])
  {
    assert ([x] + s)[1..] == s;
    if key(x) == k {
      NoKeyAfterGreater(s, key, k);
    }
  }

  /** Inserting behind the first element: its group membership is decided
      first, then the rest is as for the tail. */
  lemma InsertStableBehind<T>(x: T, s: seq<T>, key: T -> Key, k: Key)
    requires |s| > 0 && !KeyLess(key(x), key(s[0]))
    requires WithKey(Insert(x, s[1..], key), key, k) == WithKey(s[1..], key, k) + (if key(x) == k then [x] else [])
    ensures WithKey(Insert(x, s, key), key, k) == WithKey(s, key, k) + (if key(x) == k then [x] else [])
  {
    var ins := Insert(x, s[1..], key);
    assert Insert(x, s, key) == [s[0]] + ins;
    assert ([s[0]] + ins)[1..] == ins;
  }

  lemma {:induction false} InsertStable<T>(x: T, s: seq<T>, key: T -> Key, k: Key)
    requires Sorted(s, key)
    ensures WithKey(Insert(x, s, key), key, k) == WithKey(s, key, k) + (if key(x) == k then [x] else [])
    decreases |s|
  {
    if |s| == 0 {
      assert WithKey([x], key, k) == (if key(x) == k then [x] else []) + WithKey([], key, k);
    } else if KeyLess(key(x), key(s[0])) {
      InsertStableFront(x, s, key, k);
    } else {
      assert Sorted(s[1..], key);
      InsertStable(x, s[1..], key, k);
      InsertStableBehind(x, s, key, k);
    }
  }

  /** Elements with equal keys keep their input order. */
  lemma {:induction false} SortByStable<T>(xs: seq<T>, key: T -> Key, k: Key)
    requires AllComparable(xs, key)
    ensures WithKey(SortBy(xs, key), key, k) == WithKey(xs, key, k)
    decreases |xs|
  {
    if |xs| > 0 {
      var init := xs[..|xs| - 1];
      var x := xs[|xs| - 1];
      assert AllComparable(init, key) by {
        assert forall i | 0 <= i < |init| :: init[i] == xs[i];
      }
      SortByStable(init, key, k);
      SortByComparable(init, key);
      InsertStable(x, SortBy(init, key), key, k);
      WithKeySnoc(init, x, key, k);
      assert xs == init + [x];
    }
  }
}
