/** `featureStats`: summary statistics of one column over a list of records.
    Missing values are replaced by 0 and still counted; mean and standard
    deviation come from the numeric library over that same zero-filled array. */
module FeatureStats {
  import opened Wrappers
  import opened JsNumber

  datatype SummaryStats = SummaryStats(count: nat, sum: real, mean: Number, std: Number)

  /** `values.map(v => v == null ? 0 : v)`. */
  function ZeroFilled(values: seq<Option<real>>): (r: seq<real>)
    ensures |r| == |values|
    ensures forall i | 0 <= i < |values| :: r[i] == values[i].GetOr(0.0)
  {
    seq(|values|, i requires 0 <= i < |values| => values[i].GetOr(0.0))
  }

  /** The non-missing values, in order. */
  function Present(values: seq<Option<real>>): (r: seq<real>)
    ensures |r| <= |values|
  {
    if |values| == 0 then []
    else
      var init := Present(values[..|values| - 1]);
      match values[|values| - 1]
      case Some(v) => init + [v]
      case None => init
  }

  /** Replacing missing values by 0 does not change the sum: the zero-filled
      sum is the sum of the values that are present. */
  lemma {:induction false} ZeroFilledSum(values: seq<Option<real>>)
    ensures Sum(ZeroFilled(values)) == Sum(Present(values))
    decreases |values|
  {
    if |values| > 0 {
      var init := values[..|values| - 1];
      ZeroFilledSum(init);
      assert ZeroFilled(values)[..|values| - 1] == ZeroFilled(init);
      match values[|values| - 1]
      case Some(v) =>
        assert Present(values)[..|Present(values)| - 1] == Present(init);
      case None =>
    }
  }

  /** Summary statistics of a column: `count` is the number of records,
      missing values included; `sum` adds only the present values; `mean` and
      `std` are the library's over the zero-filled array. */
  function Summarize(values: seq<Option<real>>, lib: NumericLib): (r: SummaryStats)
    ensures r.count == |values|
    ensures r.sum == Sum(Present(values))
    ensures r.mean == lib.mean(ZeroFilled(values))
    ensures r.std == lib.std(ZeroFilled(values))
  {
    var arr := ZeroFilled(values);
    ZeroFilledSum(values);
    SummaryStats(|values|, Sum(arr), lib.mean(arr), lib.std(arr))
  }

  lemma {:induction false} PresentConcat(a: seq<Option<real>>, b: seq<Option<real>>)
    ensures Present(a + b) == Present(a) + Present(b)
    decreases |b|
  {
    if |b| == 0 {
      assert a + b == a;
    } else {
      PresentConcat(a, b[..|b| - 1]);
      assert (a + b)[..|a + b| - 1] == a + b[..|b| - 1];
    }
  }

  /** Statistics of a concatenation: counts add up and sums add up. */
  lemma SummarizeConcat(a: seq<Option<real>>, b: seq<Option<real>>, lib: NumericLib)
    ensures Summarize(a + b, lib).count == Summarize(a, lib).count + Summarize(b, lib).count
    ensures Summarize(a + b, lib).sum == Summarize(a, lib).sum + Summarize(b, lib).sum
  {
    PresentConcat(a, b);
    SumConcat(Present(a), Present(b));
  }

  /** A missing value is counted but adds nothing: the mean the library sees
      is taken over all records, not only over those with a value. */
  lemma MissingValueIsCountedAsZero(values: seq<Option<real>>, lib: NumericLib)
    ensures Summarize(values + [None], lib).count == Summarize(values, lib).count + 1
    ensures Summarize(values + [None], lib).sum == Summarize(values, lib).sum
    ensures ZeroFilled(values + [None]) == ZeroFilled(values) + [0.0]
  {
    assert (values + [None])[..|values|] == values;
  }
}
