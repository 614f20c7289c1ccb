/** `createIndexedArray`: a read-only array of records with two lookups by
    column value, `$find` (first match) and `$query` (all matches, memoised).
    A per-column index, mapping each stringified value to the ascending list
    of positions holding it, is built the first time a column is looked up.

    The structure is modelled by passing its state explicitly: `Find` and
    `Query` return the lookup result together with the state after the call
    (the index possibly built, the memo possibly extended). Records are of any
    type `T`; property access `record[column]` is the parameter `keyOf`. Both
    lookups are proved equal to a linear scan over the elements. */
module IndexedArray {
  import opened Wrappers
  import opened JsValue

  /** Stringified column value |-> ascending positions holding it. */
  type Index = map<string, seq<nat>>

  datatype IndexedArray<T> = IndexedArray(
    items: seq<T>,
    indexes: map<string, Index>,
    memo: map<(string, string), seq<T>>)

  /** The record's value in `column` stringifies to `key`. */
  predicate Matches<T>(keyOf: (T, string) -> string, x: T, column: string, key: string) {
    keyOf(x, column) == key
  }

  // ---------------------------------------------------------------------
  // Linear-scan reference
  // ---------------------------------------------------------------------

  /** All records whose column value stringifies to `key`, in order. */
  function Filter<T>(s: seq<T>, keyOf: (T, string) -> string, column: string, key: string): (r: seq<T>)
    ensures |r| <= |s|
    ensures forall x | x in r :: x in s && Matches(keyOf, x, column, key)
    ensures forall i | 0 <= i < |s| && Matches(keyOf, s[i], column, key) :: s[i] in r
  {
    if |s| == 0 then []
    else (if Matches(keyOf, s[0], column, key) then [s[0]] else []) + Filter(s[1..], keyOf, column, key)
  }

  /** The first record, scanning from position 0, whose column value
      stringifies to `key`. */
  function LinearFind<T>(s: seq<T>, keyOf: (T, string) -> string, column: string, key: string): (r: Option<T>)
    ensures r.None? <==> forall i | 0 <= i < |s| :: !Matches(keyOf, s[i], column, key)
    ensures r.Some? ==> r.value in s && Matches(keyOf, r.value, column, key)
  {
    if |s| == 0 then None
    else if Matches(keyOf, s[0], column, key) then Some(s[0])
    else
      var r := LinearFind(s[1..], keyOf, column, key);
      assert forall i | 1 <= i < |s| :: s[i] == s[1..][i - 1];
      r
  }

  lemma {:induction false} FilterSnoc<T>(s: seq<T>, x: T, keyOf: (T, string) -> string, column: string, key: string)
    ensures Filter(s + [x], keyOf, column, key)
         == Filter(s, keyOf, column, key) + (if Matches(keyOf, x, column, key) then [x] else [])
    decreases |s|
  {
    if |s| == 0 {
      assert [x][1..] == [];
    } else {
      FilterSnoc(s[1..], x, keyOf, column, key);
      assert (s + [x])[1..] == s[1..] + [x];
    }
  }

  /** The linear scan finds the head of the filtered sequence. */
  lemma {:induction false} LinearFindIsHeadOfFilter<T>(s: seq<T>, keyOf: (T, string) -> string, column: string, key: string)
    ensures var f := Filter(s, keyOf, column, key);
            LinearFind(s, keyOf, column, key) == if |f| == 0 then None else Some(f[0])
    decreases |s|
  {
    if |s| > 0 {
      LinearFindIsHeadOfFilter(s[1..], keyOf, column, key);
      var rest := Filter(s[1..], keyOf, column, key);
      if Matches(keyOf, s[0], column, key) {
        assert Filter(s, keyOf, column, key) == [s[0]] + rest;
      } else {
        assert Filter(s, keyOf, column, key) == rest;
      }
    }
  }

  // ---------------------------------------------------------------------
  // The index of one column
  // ---------------------------------------------------------------------

  /** Positions below `n` whose record matches `key`, ascending: what one
      bucket of the index holds after the scan has visited `n` records. */
  function Positions<T>(items: seq<T>, keyOf: (T, string) -> string, column: string, key: string, n: nat): (p: seq<nat>)
    requires n <= |items|
    ensures forall j | 0 <= j < |p| :: p[j] < n
    decreases n
  {
    if n == 0 then []
    else
      Positions(items, keyOf, column, key, n - 1)
        + (if Matches(keyOf, items[n - 1], column, key) then [n - 1] else [])
  }

  /** Every position in a bucket holds a record matching its key. */
  lemma {:induction false} PositionsSound<T>(items: seq<T>, keyOf: (T, string) -> string, column: string, key: string, n: nat)
    requires n <= |items|
    ensures forall j | 0 <= j < |Positions(items, keyOf, column, key, n)| ::
              Matches(keyOf, items[Positions(items, keyOf, column, key, n)[j]], column, key)
    decreases n
  {
    if n > 0 {
      PositionsSound(items, keyOf, column, key, n - 1);
    }
  }

  /** A bucket lists its positions in strictly ascending order. */
  lemma {:induction false} PositionsAscending<T>(items: seq<T>, keyOf: (T, string) -> string, column: string, key: string, n: nat)
    requires n <= |items|
    ensures forall j, l | 0 <= j < l < |Positions(items, keyOf, column, key, n)| ::
              Positions(items, keyOf, column, key, n)[j] < Positions(items, keyOf, column, key, n)[l]
    decreases n
  {
    if n > 0 {
      PositionsAscending(items, keyOf, column, key, n - 1);
    }
  }

  /** Every matching position below `n` is in the bucket. */
  lemma {:induction false} PositionsComplete<T>(items: seq<T>, keyOf: (T, string) -> string, column: string, key: string, n: nat)
    requires n <= |items|
    ensures forall i | 0 <= i < n && Matches(keyOf, items[i], column, key) :: i in Positions(items, keyOf, column, key, n)
    decreases n
  {
    if n > 0 {
      PositionsComplete(items, keyOf, column, key, n - 1);
    }
  }

  /** `idx` is the complete index of `column` over `items`: every key present
      holds exactly the ascending positions of its matches, and every
      record's key is present. */
  ghost predicate IsColumnIndex<T>(idx: Index, items: seq<T>, keyOf: (T, string) -> string, column: string) {
    && (forall key | key in idx :: |idx[key]| > 0 && idx[key] == Positions(items, keyOf, column, key, |items|))
    && (forall i | 0 <= i < |items| :: keyOf(items[i], column) in idx)
  }

  /** The buckets built from the first `i` records. */
  ghost predicate IndexesPrefix<T>(idx: Index, items: seq<T>, keyOf: (T, string) -> string, column: string, i: nat)
    requires i <= |items|
  {
    && (forall key | key in idx :: |idx[key]| > 0 && idx[key] == Positions(items, keyOf, column, key, i))
    && (forall j | 0 <= j < i :: keyOf(items[j], column) in idx)
  }

  /** One bucket after position `i` was appended to the bucket of its key. */
  lemma BucketStep<T>(idx: Index, items: seq<T>, keyOf: (T, string) -> string, column: string, i: nat, key: string, k: string)
    requires i < |items| && key == keyOf(items[i], column)
    requires IndexesPrefix(idx, items, keyOf, column, i)
    requires k in idx || k == key
    ensures var idx' := idx[key := (if key in idx then idx[key] else []) + [i]];
            |idx'[k]| > 0 && idx'[k] == Positions(items, keyOf, column, k, i + 1)
  {
    if k == key && key !in idx {
      PositionsOfNoMatch(items, keyOf, column, key, i);
    }
  }

  lemma IndexStep<T>(idx: Index, items: seq<T>, keyOf: (T, string) -> string, column: string, i: nat, key: string)
    requires i < |items| && key == keyOf(items[i], column)
    requires IndexesPrefix(idx, items, keyOf, column, i)
    ensures IndexesPrefix(idx[key := (if key in idx then idx[key] else []) + [i]], items, keyOf, column, i + 1)
  {
    var idx' := idx[key := (if key in idx then idx[key] else []) + [i]];
    forall k | k in idx'
      ensures |idx'[k]| > 0 && idx'[k] == Positions(items, keyOf, column, k, i + 1)
    {
      BucketStep(idx, items, keyOf, column, i, key, k);
    }
    assert forall j | 0 <= j < i + 1 :: keyOf(items[j], column) in idx';
  }

  lemma {:induction false} PositionsOfNoMatch<T>(items: seq<T>, keyOf: (T, string) -> string, column: string, key: string, n: nat)
    requires n <= |items|
    requires forall j | 0 <= j < n :: !Matches(keyOf, items[j], column, key)
    ensures Positions(items, keyOf, column, key, n) == []
    decreases n
  {
    if n > 0 {
      PositionsOfNoMatch(items, keyOf, column, key, n - 1);
      assert !Matches(keyOf, items[n - 1], column, key);
    }
  }

  /** `buildIndex`: one pass over the records, appending each position to the
      bucket of its stringified column value. */
  method BuildIndex<T>(items: seq<T>, keyOf: (T, string) -> string, column: string) returns (idx: Index)
    ensures IsColumnIndex(idx, items, keyOf, column)
  {
    idx := map[];
    var i := 0;
    while i < |items|
      invariant 0 <= i <= |items|
      invariant IndexesPrefix(idx, items, keyOf, column, i)
    {
      var key := keyOf(items[i], column);
      IndexStep(idx, items, keyOf, column, i, key);
      var bucket := if key in idx then idx[key] else [];
      idx := idx[key := bucket + [i]];
      i := i + 1;
    }
    FullPrefixIsIndex(idx, items, keyOf, column);
  }

  lemma FullPrefixIsIndex<T>(idx: Index, items: seq<T>, keyOf: (T, string) -> string, column: string)
    requires IndexesPrefix(idx, items, keyOf, column, |items|)
    ensures IsColumnIndex(idx, items, keyOf, column)
  {
  }

  /** Every position lies in exactly one bucket: the one of its own key. */
  lemma IndexPartitionsPositions<T>(idx: Index, items: seq<T>, keyOf: (T, string) -> string, column: string, i: nat, key: string)
    requires IsColumnIndex(idx, items, keyOf, column)
    requires i < |items| && key in idx
    ensures i in idx[key] <==> key == keyOf(items[i], column)
  {
    PositionsSound(items, keyOf, column, key, |items|);
    PositionsComplete(items, keyOf, column, key, |items|);
    var p := idx[key];
    if i in p {
      var j :| 0 <= j < |p| && p[j] == i;
      assert Matches(keyOf, items[p[j]], column, key);
    }
  }

  /** A key missing from a complete index matches no record. */
  lemma AbsentKeyMatchesNothing<T>(idx: Index, items: seq<T>, keyOf: (T, string) -> string, column: string, key: string)
    requires IsColumnIndex(idx, items, keyOf, column)
    ensures key !in idx <==> forall i | 0 <= i < |items| :: !Matches(keyOf, items[i], column, key)
  {
    if key in idx {
      PositionsSound(items, keyOf, column, key, |items|);
      assert Matches(keyOf, items[idx[key][0]], column, key);
    }
  }

  /** Reading the records at a bucket's positions gives the filtered records. */
  lemma {:induction false} SelectPositions<T>(items: seq<T>, keyOf: (T, string) -> string, column: string, key: string, n: nat)
    requires n <= |items|
    ensures var p := Positions(items, keyOf, column, key, n);
            seq(|p|, j requires 0 <= j < |p| => items[p[j]]) == Filter(items[..n], keyOf, column, key)
    decreases n
  {
    if n > 0 {
      SelectPositions(items, keyOf, column, key, n - 1);
      assert items[..n] == items[..n - 1] + [items[n - 1]];
      FilterSnoc(items[..n - 1], items[n - 1], keyOf, column, key);
    }
  }

  lemma BucketIsFilter<T>(idx: Index, items: seq<T>, keyOf: (T, string) -> string, column: string, key: string)
    requires IsColumnIndex(idx, items, keyOf, column)
    ensures key in idx ==> seq(|idx[key]|, j requires 0 <= j < |idx[key]| => items[idx[key][j]]) == Filter(items, keyOf, column, key)
    ensures key !in idx ==> Filter(items, keyOf, column, key) == []
  {
    SelectPositions(items, keyOf, column, key, |items|);
    assert items[..|items|] == items;
    if key !in idx {
      AbsentKeyMatchesNothing(idx, items, keyOf, column, key);
      FilterOfNoMatch(items, keyOf, column, key);
    }
  }

  lemma {:induction false} FilterOfNoMatch<T>(s: seq<T>, keyOf: (T, string) -> string, column: string, key: string)
    requires forall i | 0 <= i < |s| :: !Matches(keyOf, s[i], column, key)
    ensures Filter(s, keyOf, column, key) == []
    decreases |s|
  {
    if |s| > 0 {
      FilterOfNoMatch(s[1..], keyOf, column, key);
    }
  }

  /** The records of one bucket, read through a complete index. */
  function Lookup<T>(idx: Index, items: seq<T>, keyOf: (T, string) -> string, column: string, key: string): (r: seq<T>)
    requires IsColumnIndex(idx, items, keyOf, column)
    ensures r == Filter(items, keyOf, column, key)
  {
    BucketIsFilter(idx, items, keyOf, column, key);
    if key in idx then seq(|idx[key]|, j requires 0 <= j < |idx[key]| => items[idx[key][j]]) else []
  }

  // ---------------------------------------------------------------------
  // The structure
  // ---------------------------------------------------------------------

  /** Every cached index is complete for its column, and every memoised
      query result is the filtered sequence of its (column, needle) pair. */
  ghost predicate Valid<T>(a: IndexedArray<T>, keyOf: (T, string) -> string) {
    && (forall c | c in a.indexes :: IsColumnIndex(a.indexes[c], a.items, keyOf, c))
    && (forall p | p in a.memo :: a.memo[p] == Filter(a.items, keyOf, p.0, p.1))
  }

  /** `createIndexedArray(array)`: no index built yet, nothing memoised, and
      every other property (length, element access, iteration) is the
      underlying array's. */
  function Create<T>(items: seq<T>): (a: IndexedArray<T>)
    ensures a.items == items && a.indexes == map[] && a.memo == map[]
  {
    IndexedArray(items, map[], map[])
  }

  /** Builds the index of `column` only when it is absent; an index already
      built is reused as it is. */
  method EnsureIndex<T>(a: IndexedArray<T>, keyOf: (T, string) -> string, column: string) returns (a': IndexedArray<T>)
    requires Valid(a, keyOf)
    ensures Valid(a', keyOf) && a'.items == a.items && a'.memo == a.memo
    ensures a'.indexes.Keys == a.indexes.Keys + {column}
    ensures forall c | c in a.indexes :: a'.indexes[c] == a.indexes[c]
  {
    if column in a.indexes {
      a' := a;
    } else {
      var idx := BuildIndex(a.items, keyOf, column);
      a' := a.(indexes := a.indexes[column := idx]);
    }
  }

  /** Memoising the filtered records of a pair keeps the structure valid. */
  lemma RememberKeepsValid<T>(a: IndexedArray<T>, keyOf: (T, string) -> string, column: string, key: string, matching: seq<T>)
    requires Valid(a, keyOf) && matching == Filter(a.items, keyOf, column, key)
    ensures Valid(a.(memo := a.memo[(column, key) := matching]), keyOf)
  {
  }

  /** `$find(column, needle)`: the first record whose column value
      stringifies like the needle, or `None` (undefined). */
  method Find<T>(a: IndexedArray<T>, keyOf: (T, string) -> string, column: string, needle: Value)
    returns (r: Option<T>, a': IndexedArray<T>)
    requires Valid(a, keyOf)
    ensures r == LinearFind(a.items, keyOf, column, StringOf(needle))
    ensures Valid(a', keyOf) && a'.items == a.items && a'.memo == a.memo
    ensures a'.indexes.Keys == a.indexes.Keys + {column}
    ensures forall c | c in a.indexes :: a'.indexes[c] == a.indexes[c]
  {
    a' := EnsureIndex(a, keyOf, column);
    var idx := a'.indexes[column];
    var key := StringOf(needle);
    BucketIsFilter(idx, a.items, keyOf, column, key);
    LinearFindIsHeadOfFilter(a.items, keyOf, column, key);
    if key in idx {
      r := Some(a.items[idx[key][0]]);
    } else {
      r := None;
    }
  }

  /** `$query(column, needle)`: a new indexed array of every matching record
      in original order, memoised under the (column, needle) pair so that a
      repeated call returns the cached result. */
  method Query<T>(a: IndexedArray<T>, keyOf: (T, string) -> string, column: string, needle: Value)
    returns (r: IndexedArray<T>, a': IndexedArray<T>)
    requires Valid(a, keyOf)
    ensures r.items == Filter(a.items, keyOf, column, StringOf(needle))
    ensures r.indexes == map[] && r.memo == map[]
    ensures Valid(a', keyOf) && a'.items == a.items
    ensures a'.indexes.Keys == a.indexes.Keys + {column}
    ensures forall c | c in a.indexes :: a'.indexes[c] == a.indexes[c]
    ensures (column, StringOf(needle)) in a'.memo && a'.memo[(column, StringOf(needle))] == r.items
    ensures (column, StringOf(needle)) in a.memo ==> a'.memo == a.memo
    ensures a'.memo.Keys == a.memo.Keys + {(column, StringOf(needle))}
  {
    var b := EnsureIndex(a, keyOf, column);
    var key := StringOf(needle);
    if (column, key) in b.memo {
      r := Create(b.memo[(column, key)]);
      a' := b;
    } else {
      var matching := Lookup(b.indexes[column], a.items, keyOf, column, key);
      r := Create(matching);
      a' := b.(memo := b.memo[(column, key) := matching]);
      RememberKeepsValid(b, keyOf, column, key, matching);
    }
  }

  /** `$find` returns the head of what `$query` returns. */
  lemma FindIsHeadOfQuery<T>(items: seq<T>, keyOf: (T, string) -> string, column: string, needle: Value)
    ensures var q := Filter(items, keyOf, column, StringOf(needle));
            LinearFind(items, keyOf, column, StringOf(needle)) == if |q| == 0 then None else Some(q[0])
  {
    LinearFindIsHeadOfFilter(items, keyOf, column, StringOf(needle));
  }

  /** The first match is the record at the lowest matching position. */
  lemma {:induction false} LinearFindIsLowestMatch<T>(s: seq<T>, keyOf: (T, string) -> string, column: string, key: string, i: nat)
    requires i < |s| && Matches(keyOf, s[i], column, key)
    requires forall j | 0 <= j < i :: !Matches(keyOf, s[j], column, key)
    ensures LinearFind(s, keyOf, column, key) == Some(s[i])
    decreases i
  {
    if i > 0 {
      LinearFindIsLowestMatch(s[1..], keyOf, column, key, i - 1);
    }
  }

  // ---------------------------------------------------------------------
  // Property access through the proxy
  // ---------------------------------------------------------------------

  /** What reading a property of the wrapped array yields. */
  datatype Access<T> = IndexStore(indexes: map<string, Index>) | FindMethod | QueryMethod
                     | Length(n: nat) | Element(x: T) | Absent

  /** An array index property: the canonical decimal form of a position. */
  function ArrayIndex(prop: string, n: nat): (r: Option<nat>)
    ensures r.Some? ==> r.value < n && DecimalString(r.value) == prop
  {
    var parsed := ParseInt(prop);
    if parsed.Some? && 0 <= parsed.value < n && DecimalString(parsed.value) == prop then Some(parsed.value as nat)
    else None
  }

  /** A property read on the proxy: `_indexes`, `$find` and `$query` are
      intercepted; `length` and element positions go to the array; any
      other name reads as absent (array methods are not modelled). */
  function Get<T>(a: IndexedArray<T>, prop: string): (r: Access<T>)
    ensures prop == "_indexes" ==> r == IndexStore(a.indexes)
    ensures prop == "$find" ==> r.FindMethod?
    ensures prop == "$query" ==> r.QueryMethod?
  {
    if prop == "_indexes" then IndexStore(a.indexes)
    else if prop == "$find" then FindMethod
    else if prop == "$query" then QueryMethod
    else if prop == "length" then Length(|a.items|)
    else
      match ArrayIndex(prop, |a.items|)
      case Some(i) => Element(a.items[i])
      case None => Absent
  }

  /** Reading position i of the proxy reads position i of the array, and
      `length` is the array's length. */
  lemma GetDelegatesToArray<T>(a: IndexedArray<T>, i: nat)
    requires i < |a.items|
    ensures Get(a, DecimalString(i)) == Element(a.items[i])
    ensures Get(a, "length") == Length(|a.items|)
  {
    ArrayIndexOfPosition(i, |a.items|);
    NotIntercepted(DecimalString(i));
  }

  /** A name starting with a digit is none of the names the proxy handles
      itself. */
  lemma NotIntercepted(prop: string)
    requires |prop| > 0 && IsDecimalDigit(prop[0])
    ensures prop != "_indexes" && prop != "$find" && prop != "$query" && prop != "length"
  {
    assert "_indexes"[0] == '_' && "$find"[0] == '$' && "$query"[0] == '$' && "length"[0] == 'l';
  }

  lemma ArrayIndexOfPosition(i: nat, n: nat)
    requires i < n
    ensures ArrayIndex(DecimalString(i), n) == Some(i)
  {
    ParseIntOfDecimalString(i);
  }

  /** Every property other than the three intercepted ones reads the same
      whatever indexes and memo entries have been built: the caches are
      invisible to array access. */
  lemma GetIgnoresCaches<T>(a: IndexedArray<T>, b: IndexedArray<T>, prop: string)
    requires a.items == b.items
    requires prop != "_indexes" && prop != "$find" && prop != "$query"
    ensures Get(a, prop) == Get(b, prop)
  {
  }

  // ---------------------------------------------------------------------
  // Plain objects as records, and the memo key as the source builds it
  // ---------------------------------------------------------------------

  /** A plain object: property name |-> value. */
  type JsObject = map<string, Value>

  /** `obj[name]`: undefined when the property is absent. */
  function Prop(obj: JsObject, name: string): Value {
    if name in obj then obj[name] else Undefined
  }

  /** `String(obj[name])`: the key of a plain object in a column. */
  function PropKey(obj: JsObject, name: string): string {
    StringOf(Prop(obj, name))
  }

  /** The source memoises `$query` under `${column}_${needle}`. */
  function MemoKey(column: string, key: string): string {
    column + "_" + key
  }

  /** `$query` with the memo keyed by the concatenated string: a hit returns
      whatever an earlier call stored under the same string. */
  function QueryAsWritten<T>(items: seq<T>, keyOf: (T, string) -> string, memo: map<string, seq<T>>, column: string, needle: Value)
    : (r: (seq<T>, map<string, seq<T>>))
    ensures MemoKey(column, StringOf(needle)) in memo ==> r == (memo[MemoKey(column, StringOf(needle))], memo)
    ensures MemoKey(column, StringOf(needle)) !in memo ==> r.0 == Filter(items, keyOf, column, StringOf(needle))
    ensures r.1.Keys == memo.Keys + {MemoKey(column, StringOf(needle))}
  {
    var k := MemoKey(column, StringOf(needle));
    if k in memo then (memo[k], memo)
    else
      var matching := Filter(items, keyOf, column, StringOf(needle));
      (matching, memo[k := matching])
  }

  /** Two different (column, needle) pairs share a memo key, so the second
      query returns the first one's records although none of them matches. */
  lemma QueryAsWrittenReturnsForeignRecords()
    ensures var row: JsObject := map["a_b" := Str("c"), "a" := Str("x")];
            var first := QueryAsWritten([row], PropKey, map[], "a_b", Str("c"));
            var second := QueryAsWritten([row], PropKey, first.1, "a", Str("b_c"));
            && ("a_b", "c") != ("a", "b_c")
            && second.0 == [row]
            && Filter([row], PropKey, "a", "b_c") == []
            && !Matches(PropKey, row, "a", "b_c")
  {
    var row: JsObject := map["a_b" := Str("c"), "a" := Str("x")];
    assert MemoKey("a_b", "c") == MemoKey("a", "b_c");
    assert Matches(PropKey, row, "a_b", "c");
    assert [row][1..] == [];
  }

}
