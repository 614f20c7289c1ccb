/** The pure helpers of the state list page: the star rating shown for a
    scorecard, the card colour, the sort mode read from the query string and
    the key the list is sorted by. */
module StatesPage {
  import opened Wrappers
  import opened JsValue
  import opened ProcessData
  import opened StableSort

  // ---------------------------------------------------------------------
  // Stars and colour
  // ---------------------------------------------------------------------

  const Filled: char := '★'
  const Empty: char := '☆'

  /** `String.prototype.repeat` with a negative count. */
  datatype RangeError = RangeError

  /** The number of stars `getStars` draws: `parseInt(count ?? '0')`, with
      NaN (and 0) read as 0. */
  function StarCount(count: Option<string>): int {
    var parsed := ParseInt(count.GetOr("0"));
    if parsed.None? then 0 else parsed.value
  }

  function CountFilled(s: string): nat {
    if |s| == 0 then 0 else (if s[0] == Filled then 1 else 0) + CountFilled(s[1..])
  }

  /** The drawing for a count n: n filled stars then 3 - n empty ones; either
      repeat count being negative throws. */
  function DrawStars(n: int): (r: Result<string, RangeError>)
    ensures r.Ok? <==> 0 <= n <= 3
    ensures r.Ok? ==> |r.value| == 3
  {
    if n < 0 then Err(RangeError)
    else if 3 - n < 0 then Err(RangeError)
    else Ok(Repeat(Filled, n) + Repeat(Empty, 3 - n))
  }

  /** `getStars(count)`. */
  function GetStars(count: Option<string>): (r: Result<string, RangeError>)
    ensures r.Ok? <==> 0 <= StarCount(count) <= 3
    ensures r.Ok? ==> |r.value| == 3
  {
    DrawStars(StarCount(count))
  }

  /** The three characters drawn for a count of 0 to 3: filled up to the
      count, empty after it. */
  lemma StarsDrawn(n: int)
    requires 0 <= n <= 3
    ensures DrawStars(n) == Ok([if 0 < n then Filled else Empty,
                                if 1 < n then Filled else Empty,
                                if 2 < n then Filled else Empty])
  {
    var r := Repeat(Filled, n) + Repeat(Empty, 3 - n);
    var e := [if 0 < n then Filled else Empty, if 1 < n then Filled else Empty, if 2 < n then Filled else Empty];
    forall i | 0 <= i < 3
      ensures r[i] == e[i]
    {
      if i < n {
        assert r[i] == Repeat(Filled, n)[i];
      } else {
        assert r[i] == Repeat(Empty, 3 - n)[i - n];
      }
    }
    assert r == e;
  }

  lemma {:induction false} CountFilledOfStars(n: nat, m: nat)
    ensures CountFilled(Repeat(Filled, n) + Repeat(Empty, m)) == n
    decreases n + m
  {
    var s := Repeat(Filled, n) + Repeat(Empty, m);
    if n > 0 {
      CountFilledOfStars(n - 1, m);
      assert s[1..] == Repeat(Filled, n - 1) + Repeat(Empty, m);
    } else if m > 0 {
      CountFilledOfStars(0, m - 1);
      assert s[1..] == Repeat(Filled, 0) + Repeat(Empty, m - 1);
    }
  }

  lemma StarCountOfDecimal(n: int)
    ensures StarCount(Some(DecimalString(n))) == n
  {
    ParseIntOfDecimalString(n);
  }

  /** Reading the rating back: for a count of 0 to 3 written in decimal, the
      stars drawn contain exactly that many filled stars. */
  lemma GetStarsCountsBack(n: int)
    requires 0 <= n <= 3
    ensures GetStars(Some(DecimalString(n))).Ok?
    ensures CountFilled(GetStars(Some(DecimalString(n))).value) == n
  {
    GetStarsOfDecimal(n);
    DrawnCount(n);
  }

  lemma GetStarsOfDecimal(n: int)
    ensures GetStars(Some(DecimalString(n))) == DrawStars(n)
  {
    StarCountOfDecimal(n);
  }

  lemma DrawnCount(n: int)
    requires 0 <= n <= 3
    ensures DrawStars(n).Ok? && CountFilled(DrawStars(n).value) == n
  {
    CountFilledOfStars(n, 3 - n);
  }

  /** Counts outside 0..3 throw. */
  lemma GetStarsRejectsOutOfRange(n: int)
    requires n < 0 || n > 3
    ensures GetStars(Some(DecimalString(n))).Err?
  {
    StarCountOfDecimal(n);
  }

  /** A missing count, or one without leading digits, draws three empty
      stars. */
  lemma GetStarsOfNoNumber(count: Option<string>)
    requires count.None? || ParseInt(count.value).None?
    ensures GetStars(count) == Ok([Empty, Empty, Empty])
  {
    assert StarCount(count) == 0 by {
      if count.None? {
        assert DecimalString(0) == "0";
        StarCountOfDecimal(0);
      }
    }
    StarsDrawn(0);
  }

  /** `getScoreCardColor(stars)`: a strict comparison with "1", "2", "3". */
  function ScoreCardColor(stars: Option<string>): (c: string)
    ensures c != "bg-gray-100" <==> stars == Some("1") || stars == Some("2") || stars == Some("3")
  {
    match stars
    case Some("1") => "bg-red-100"
    case Some("2") => "bg-yellow-100"
    case Some("3") => "bg-green-100"
    case _ => "bg-gray-100"
  }

  /** The colour and the stars agree on the three ratings: red, yellow and
      green cards show one, two and three filled stars. */
  lemma ColourMatchesStars(stars: Option<string>)
    requires ScoreCardColor(stars) != "bg-gray-100"
    ensures 1 <= StarCount(stars) <= 3
    ensures GetStars(stars).Ok? && CountFilled(GetStars(stars).value) == StarCount(stars)
    ensures ScoreCardColor(stars)
            == (if StarCount(stars) == 1 then "bg-red-100"
                else if StarCount(stars) == 2 then "bg-yellow-100"
                else "bg-green-100")
  {
    SmallDecimals();
    var n := if stars == Some("1") then 1 else if stars == Some("2") then 2 else 3;
    assert stars == Some(DecimalString(n));
    GetStarsCountsBack(n);
    StarCountOfDecimal(n);
    ColourOfRating(n);
  }

  lemma SmallDecimals()
    ensures DecimalString(1) == "1" && DecimalString(2) == "2" && DecimalString(3) == "3"
  {
  }

  lemma ColourOfRating(n: int)
    requires 1 <= n <= 3
    ensures ScoreCardColor(Some(DecimalString(n)))
            == (if n == 1 then "bg-red-100" else if n == 2 then "bg-yellow-100" else "bg-green-100")
  {
    SmallDecimals();
  }

  /** The colour only recognises the exact strings, while the stars read any
      leading digits: a rating with a space in front draws the same stars as
      the bare rating, on a grey card. */
  lemma PaddedRatingIsGrey(n: int)
    ensures ScoreCardColor(Some(" " + DecimalString(n))) == "bg-gray-100"
    ensures GetStars(Some(" " + DecimalString(n))) == GetStars(Some(DecimalString(n)))
  {
    ParseIntSkipsSpace(' ', DecimalString(n));
  }

  // ---------------------------------------------------------------------
  // Sorting
  // ---------------------------------------------------------------------

  /** The `sort` query parameter: absent, one value, or repeated. */
  datatype QueryValue = Missing | One(value: string) | Many(values: seq<string>)

  datatype SortMode = ByName | ByScore

  /** `(router.query.sort as SortMode) || "name"`, then `sortMode === 'name'`:
      anything but an absent, empty or "name" value sorts by score. */
  function SortModeOf(q: QueryValue): (m: SortMode)
    ensures m == ByName <==> q == Missing || q == One("") || q == One("name")
  {
    match q
    case Missing => ByName
    case One(s) => if s == "" || s == "name" then ByName else ByScore
    case Many(_) => ByScore
  }

  /** `Number(s)` for strings: surrounding white space ignored, empty reads
      as 0, an optionally signed run of decimal digits reads as its value,
      anything else is NaN (`None`). */
  function ToNumber(s: string): (r: Option<int>) {
    var t := TrimEnd(TrimStart(s));
    if |t| == 0 then Some(0)
    else
      var (negative, u) := SplitSign(t);
      if |u| == 0 || DigitPrefixLength(u, 10) != |u| then None
      else
        var magnitude: int := DigitsValue(u, 10);
        Some(if negative then -magnitude else magnitude)
  }

  function TrimEnd(s: string): (t: string)
    ensures |t| <= |s| && t == s[..|t|]
    ensures |t| == 0 || !IsWhiteSpace(t[|t| - 1])
  {
    if |s| > 0 && IsWhiteSpace(s[|s| - 1]) then TrimEnd(s[..|s| - 1]) else s
  }

  /** `state.scorecard?.stars`. */
  function Stars(s: State): Option<string> {
    if s.scorecard.None? then None else s.scorecard.value.stars
  }

  /** The number a state's stars count for in score mode; a missing or empty
      rating counts as 0. */
  function StarNumber(s: State): Option<int> {
    match Stars(s)
    case None => Some(0)
    case Some(t) => if t == "" then Some(0) else ToNumber(t)
  }

  /** The key in name mode. */
  function NameKey(s: State): Key {
    Text(s.name)
  }

  /** The key in score mode, `-(stars || 0)`. */
  function ScoreKey(s: State): Key {
    match StarNumber(s)
    case None => NaNKey
    case Some(n) => Num(-n)
  }

  /** The `R.sortBy` key for a mode. */
  function SortKey(mode: SortMode): State -> Key {
    match mode
    case ByName => NameKey
    case ByScore => ScoreKey
  }

  /** The list as the page shows it. */
  function SortStates(states: seq<State>, mode: SortMode): seq<State> {
    SortBy(states, SortKey(mode))
  }

  /** Without a `sort` parameter, or with an empty one or "name", the page
      lists the states as a permutation ordered by name. */
  lemma QueryNameSortsByName(states: seq<State>, q: QueryValue)
    requires q == Missing || q == One("") || q == One("name")
    ensures multiset(SortStates(states, SortModeOf(q))) == multiset(states)
    ensures forall i, j | 0 <= i < j < |states| ::
      !StrLess(SortStates(states, SortModeOf(q))[j].name, SortStates(states, SortModeOf(q))[i].name)
  {
    NameOrder(states);
  }

  /** In name mode the list is a permutation of the states, ordered by name
      (`<` on strings), and states with equal names keep their order. */
  lemma NameOrder(states: seq<State>)
    ensures multiset(SortStates(states, ByName)) == multiset(states)
    ensures forall i, j | 0 <= i < j < |states| ::
      !StrLess(SortStates(states, ByName)[j].name, SortStates(states, ByName)[i].name)
    ensures forall name :: WithKey(SortStates(states, ByName), NameKey, Text(name))
                           == WithKey(states, NameKey, Text(name))
  {
    SortByPermutes(states, NameKey);
    NameSorted(states);
    NameStable(states);
  }

  lemma NameSorted(states: seq<State>)
    ensures Sorted(SortStates(states, ByName), NameKey)
  {
    SortByComparable(states, NameKey);
  }

  lemma NameStable(states: seq<State>)
    ensures forall name :: WithKey(SortStates(states, ByName), NameKey, Text(name))
                           == WithKey(states, NameKey, Text(name))
  {
    forall name
      ensures WithKey(SortStates(states, ByName), NameKey, Text(name))
              == WithKey(states, NameKey, Text(name))
    {
      SortByStable(states, NameKey, Text(name));
    }
  }

  /** No state is followed by one with more stars (all ratings numeric). */
  predicate MostStarsFirst(r: seq<State>) {
    forall i, j | 0 <= i < j < |r| ::
      && StarNumber(r[i]).Some?
      && StarNumber(r[j]).Some?
      && StarNumber(r[j]).value <= StarNumber(r[i]).value
  }

  /** In score mode, when every rating is numeric, the list is a permutation
      of the states ordered from most to fewest stars, and states with equal
      ratings keep their order. */
  lemma ScoreOrder(states: seq<State>)
    requires forall i | 0 <= i < |states| :: StarNumber(states[i]).Some?
    ensures multiset(SortStates(states, ByScore)) == multiset(states)
    ensures MostStarsFirst(SortStates(states, ByScore))
    ensures forall n :: WithKey(SortStates(states, ByScore), ScoreKey, Num(n))
                        == WithKey(states, ScoreKey, Num(n))
  {
    SortByPermutes(states, ScoreKey);
    ScoreSorted(states);
    ScoreStable(states);
  }

  lemma ScoreSorted(states: seq<State>)
    requires forall i | 0 <= i < |states| :: StarNumber(states[i]).Some?
    ensures MostStarsFirst(SortStates(states, ByScore))
  {
    var r := SortStates(states, ByScore);
    assert r == SortBy(states, ScoreKey);
    ScoreKeysComparable(states);
    SortByPermutes(states, ScoreKey);
    SortByComparable(states, ScoreKey);
    forall k | 0 <= k < |r|
      ensures StarNumber(r[k]).Some?
    {
      ElementOfSorted(states, r, k);
    }
    SortedByScore(r);
  }

  /** Sorted by the score key with every rating numeric: most stars first. */
  lemma SortedByScore(r: seq<State>)
    requires Sorted(r, ScoreKey)
    requires forall k | 0 <= k < |r| :: StarNumber(r[k]).Some?
    ensures MostStarsFirst(r)
  {
    forall i, j | 0 <= i < j < |r|
      ensures StarNumber(r[j]).value <= StarNumber(r[i]).value
    {
      NumericKey(r[i]);
      NumericKey(r[j]);
      assert !KeyLess(ScoreKey(r[j]), ScoreKey(r[i]));
    }
  }

  lemma ScoreStable(states: seq<State>)
    requires forall i | 0 <= i < |states| :: StarNumber(states[i]).Some?
    ensures forall n :: WithKey(SortStates(states, ByScore), ScoreKey, Num(n))
                        == WithKey(states, ScoreKey, Num(n))
  {
    ScoreKeysComparable(states);
    forall n
      ensures WithKey(SortStates(states, ByScore), ScoreKey, Num(n))
              == WithKey(states, ScoreKey, Num(n))
    {
      SortByStable(states, ScoreKey, Num(n));
    }
  }

  lemma ScoreKeysComparable(states: seq<State>)
    requires forall k | 0 <= k < |states| :: StarNumber(states[k]).Some?
    ensures AllComparable(states, ScoreKey)
  {
    forall i, j | 0 <= i < |states| && 0 <= j < |states|
      ensures Comparable(ScoreKey(states[i]), ScoreKey(states[j]))
    {
      NumericKey(states[i]);
      NumericKey(states[j]);
    }
  }

  lemma NumericKey(s: State)
    requires StarNumber(s).Some?
    ensures ScoreKey(s) == Num(-StarNumber(s).value)
  {
  }

  lemma ElementOfSorted(states: seq<State>, r: seq<State>, i: nat)
    requires multiset(r) == multiset(states) && i < |r|
    requires forall k | 0 <= k < |states| :: StarNumber(states[k]).Some?
    ensures StarNumber(r[i]).Some?
  {
    assert r[i] in multiset(r);
    assert r[i] in states;
  }
}
