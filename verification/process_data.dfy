/** `processData`: turns the per-state county maps of the upstream data set
    into county and state records, attaches each state's scorecard, computes
    per-state and country summary statistics, and annotates z-scores.

    The county map of a state is given as the ordered list of its
    (county FIPS, county) entries, in the order the object's keys are
    enumerated. Numbers are exact reals; the numeric library (numjs `mean`
    and `std`, `parseFloat`) is the opaque parameter `lib`. */
module ProcessData {
  import opened Wrappers
  import opened JsNumber
  import opened FeatureStats

  datatype RawCounty = RawCounty(
    county: string,
    averageTotalVoters: Option<real>,
    droppedVoters: Option<real>,
    newVoters: Option<real>,
    purgedPercentage: Option<string>)

  datatype RawState = RawState(code: string, name: string, abv: string, counties: seq<(string, RawCounty)>)

  /** A state scorecard; only its state code and star rating are read. */
  datatype Scorecard = Scorecard(state: string, stars: Option<string>)

  /** A county record. The two z-scores are absent (`None`) until the
      annotation pass writes them. */
  datatype County = County(
    county: string,
    averageTotalVoters: Option<real>,
    droppedVoters: Option<real>,
    newVoters: Option<real>,
    purgedPercentage: Option<real>,
    name: string,
    fips: string,
    stateFips: string,
    stateCode: string,
    stateZ: Option<Number>,
    countryZ: Option<Number>)

  /** Statistics of a region; `countryZ` is the state's z-score against the
      country and is absent for the country itself. */
  datatype RegionStats = RegionStats(
    averageTotalVoters: SummaryStats,
    droppedVoters: SummaryStats,
    purgedPercentage: SummaryStats,
    countryZ: Option<Number>)

  datatype State = State(
    name: string,
    abv: string,
    code: string,
    fips: string,
    counties: seq<County>,
    stats: RegionStats,
    scorecard: Option<Scorecard>)

  datatype Processed = Processed(country: RegionStats, states: seq<State>, counties: seq<County>)

  datatype Column = AverageTotalVoters | DroppedVoters | PurgedPercentage

  function ColumnValue(c: County, column: Column): Option<real> {
    match column
    case AverageTotalVoters => c.averageTotalVoters
    case DroppedVoters => c.droppedVoters
    case PurgedPercentage => c.purgedPercentage
  }

  function Stat(s: RegionStats, column: Column): SummaryStats {
    match column
    case AverageTotalVoters => s.averageTotalVoters
    case DroppedVoters => s.droppedVoters
    case PurgedPercentage => s.purgedPercentage
  }

  /** `dataset.map(R.prop(column))`. */
  function Values(cs: seq<County>, column: Column): (r: seq<Option<real>>)
    ensures |r| == |cs|
    ensures forall i | 0 <= i < |cs| :: r[i] == ColumnValue(cs[i], column)
  {
    seq(|cs|, i requires 0 <= i < |cs| => ColumnValue(cs[i], column))
  }

  /** `featureStats` of the three columns. */
  function StatsOf(cs: seq<County>, lib: NumericLib): RegionStats {
    RegionStats(
      Summarize(Values(cs, AverageTotalVoters), lib),
      Summarize(Values(cs, DroppedVoters), lib),
      Summarize(Values(cs, PurgedPercentage), lib),
      None)
  }

  // ---------------------------------------------------------------------
  // Flattening
  // ---------------------------------------------------------------------

  /** One county record: the source fields, the percentage parsed (null stays
      null), and back-references to its state. */
  function ToCounty(fips: string, raw: RawCounty, stateFips: string, stateCode: string, lib: NumericLib): County {
    County(
      raw.county, raw.averageTotalVoters, raw.droppedVoters, raw.newVoters,
      if raw.purgedPercentage.None? then None else Some(lib.parseFloat(raw.purgedPercentage.value)),
      raw.county, fips, stateFips, stateCode, None, None)
  }

  function StateCounties(s: RawState, lib: NumericLib): (r: seq<County>)
    ensures |r| == |s.counties|
  {
    seq(|s.counties|, j requires 0 <= j < |s.counties| =>
      ToCounty(s.counties[j].0, s.counties[j].1, s.code, s.abv, lib))
  }

  /** The counties of all states, state after state. */
  function AllCounties(states: seq<RawState>, lib: NumericLib): seq<County> {
    if |states| == 0 then []
    else AllCounties(states[..|states| - 1], lib) + StateCounties(states[|states| - 1], lib)
  }

  /** `stateScorecards.find(sc => sc.state == code)`. */
  function FindScorecard(cards: seq<Scorecard>, code: string): (r: Option<Scorecard>)
    ensures r.None? <==> forall k | 0 <= k < |cards| :: cards[k].state != code
    ensures r.Some? ==> r.value in cards && r.value.state == code
  {
    if |cards| == 0 then None
    else if cards[0].state == code then Some(cards[0])
    else
      var r := FindScorecard(cards[1..], code);
      assert forall k | 1 <= k < |cards| :: cards[k] == cards[1..][k - 1];
      r
  }

  /** A state before the z-score pass: code and FIPS swapped into place,
      statistics of its own counties, and its scorecard or null. */
  function StateRecord(s: RawState, cards: seq<Scorecard>, lib: NumericLib): State {
    var counties := StateCounties(s, lib);
    State(s.name, s.abv, s.abv, s.code, counties, StatsOf(counties, lib), FindScorecard(cards, s.abv))
  }

  // ---------------------------------------------------------------------
  // Z-scores
  // ---------------------------------------------------------------------

  /** A county with its two z-scores written in; a null percentage takes
      part in the arithmetic as 0. */
  function AnnotateCounty(c: County, state: RegionStats, country: RegionStats): County {
    var p := Finite(c.purgedPercentage.GetOr(0.0));
    c.(stateZ := Some(ZScore(p, state.purgedPercentage.mean, state.purgedPercentage.std)),
       countryZ := Some(ZScore(p, country.purgedPercentage.mean, country.purgedPercentage.std)))
  }

  function AnnotateState(s: State, country: RegionStats): State {
    var z := ZScore(s.stats.purgedPercentage.mean, country.purgedPercentage.mean, country.purgedPercentage.std);
    s.(counties := seq(|s.counties|, j requires 0 <= j < |s.counties| => AnnotateCounty(s.counties[j], s.stats, country)),
       stats := s.stats.(countryZ := Some(z)))
  }

  /** `processData(states, scorecards)`. */
  function Process(raw: seq<RawState>, cards: seq<Scorecard>, lib: NumericLib): (r: Processed)
    ensures |r.states| == |raw|
    ensures forall i | 0 <= i < |raw| ::
      && r.states[i].name == raw[i].name
      && r.states[i].abv == raw[i].abv
      && r.states[i].code == raw[i].abv
      && r.states[i].fips == raw[i].code
      && |r.states[i].counties| == |raw[i].counties|
      && r.states[i].scorecard == FindScorecard(cards, raw[i].abv)
  {
    var counties := AllCounties(raw, lib);
    var country := StatsOf(counties, lib);
    Processed(
      country,
      seq(|raw|, i requires 0 <= i < |raw| => AnnotateState(StateRecord(raw[i], cards, lib), country)),
      counties)
  }

  // ---------------------------------------------------------------------
  // Properties
  // ---------------------------------------------------------------------

  /** Each county inside `states[i].counties`: named after its `county`
      field, keyed by its FIPS entry, pointing back at its state, its
      percentage parsed without rescaling, and its two z-scores taken against
      the state's and the country's percentage mean and deviation. */
  lemma AnnotatedCounty(raw: seq<RawState>, cards: seq<Scorecard>, lib: NumericLib, i: nat, j: nat)
    requires i < |raw| && j < |raw[i].counties|
    ensures var r := Process(raw, cards, lib);
            var c := r.states[i].counties[j];
            var (fips, source) := raw[i].counties[j];
            var p := Finite(if source.purgedPercentage.None? then 0.0 else lib.parseFloat(source.purgedPercentage.value));
            && c.name == source.county
            && c.county == source.county
            && c.averageTotalVoters == source.averageTotalVoters
            && c.droppedVoters == source.droppedVoters
            && c.newVoters == source.newVoters
            && c.fips == fips
            && c.stateFips == raw[i].code
            && c.stateCode == raw[i].abv
            && (source.purgedPercentage.None? ==> c.purgedPercentage.None?)
            && (source.purgedPercentage.Some? ==> c.purgedPercentage == Some(lib.parseFloat(source.purgedPercentage.value)))
            && c.stateZ == Some(ZScore(p, r.states[i].stats.purgedPercentage.mean, r.states[i].stats.purgedPercentage.std))
            && c.countryZ == Some(ZScore(p, r.country.purgedPercentage.mean, r.country.purgedPercentage.std))
  {
  }

  /** Each state's statistics are those of its own counties, and its
      country z-score compares its percentage mean with the country's. */
  lemma StateStatistics(raw: seq<RawState>, cards: seq<Scorecard>, lib: NumericLib, i: nat, column: Column)
    requires i < |raw|
    ensures var r := Process(raw, cards, lib);
            && Stat(r.states[i].stats, column) == Summarize(Values(StateCounties(raw[i], lib), column), lib)
            && Stat(r.states[i].stats, column).count == |raw[i].counties|
            && r.states[i].stats.countryZ
               == Some(ZScore(r.states[i].stats.purgedPercentage.mean, r.country.purgedPercentage.mean, r.country.purgedPercentage.std))
            && r.country == StatsOf(r.counties, lib)
  {
  }

  lemma {:induction false} AllCountiesConcat(a: seq<RawState>, b: seq<RawState>, lib: NumericLib)
    ensures AllCounties(a + b, lib) == AllCounties(a, lib) + AllCounties(b, lib)
    decreases |b|
  {
    if |b| == 0 {
      assert a + b == a;
    } else {
      AllCountiesConcat(a, b[..|b| - 1], lib);
      assert (a + b)[..|a + b| - 1] == a + b[..|b| - 1];
    }
  }

  /** Number of counties of the states before position i. */
  function Offset(raw: seq<RawState>, i: nat, lib: NumericLib): nat
    requires i <= |raw|
  {
    |AllCounties(raw[..i], lib)|
  }

  /** Position `Offset(raw, i) + j` of the concatenated list holds county j
      of state i. */
  lemma AllCountiesAt(raw: seq<RawState>, lib: NumericLib, i: nat, j: nat)
    requires i < |raw| && j < |raw[i].counties|
    ensures Offset(raw, i, lib) + j < |AllCounties(raw, lib)|
    ensures AllCounties(raw, lib)[Offset(raw, i, lib) + j] == StateCounties(raw[i], lib)[j]
  {
    assert raw == raw[..i] + [raw[i]] + raw[i + 1..];
    AllCountiesConcat(raw[..i] + [raw[i]], raw[i + 1..], lib);
    AllCountiesConcat(raw[..i], [raw[i]], lib);
    assert AllCounties([raw[i]], lib) == StateCounties(raw[i], lib) by {
      assert [raw[i]][..0] == [];
    }
  }

  /** The top-level `counties` list is the states' county lists concatenated
      in state order, and holds the records as they were before the z-score
      pass: the same record as in `states[i].counties[j]` without its
      z-scores. */
  lemma TopLevelCountiesArePreAnnotation(raw: seq<RawState>, cards: seq<Scorecard>, lib: NumericLib, i: nat, j: nat)
    requires i < |raw| && j < |raw[i].counties|
    ensures Offset(raw, i, lib) + j < |Process(raw, cards, lib).counties|
    ensures Process(raw, cards, lib).counties[Offset(raw, i, lib) + j] == StateCounties(raw[i], lib)[j]
    ensures Process(raw, cards, lib).counties[Offset(raw, i, lib) + j]
            == Process(raw, cards, lib).states[i].counties[j].(stateZ := None, countryZ := None)
    ensures Process(raw, cards, lib).counties[Offset(raw, i, lib) + j].stateZ.None?
    ensures Process(raw, cards, lib).counties[Offset(raw, i, lib) + j].countryZ.None?
  {
    var r := Process(raw, cards, lib);
    AllCountiesAt(raw, lib, i, j);
    assert r.counties == AllCounties(raw, lib);
    assert r.states[i] == AnnotateState(StateRecord(raw[i], cards, lib), r.country);
  }

  /** Every record of the top-level list carries no z-score. */
  lemma {:induction false} AllCountiesUnannotated(raw: seq<RawState>, lib: NumericLib)
    ensures forall c | c in AllCounties(raw, lib) :: c.stateZ.None? && c.countryZ.None?
    decreases |raw|
  {
    if |raw| > 0 {
      AllCountiesUnannotated(raw[..|raw| - 1], lib);
    }
  }

  /** Sum of one column's counts over the states. */
  function TotalCount(states: seq<State>, column: Column): nat {
    if |states| == 0 then 0
    else TotalCount(states[..|states| - 1], column) + Stat(states[|states| - 1].stats, column).count
  }

  /** Sum of one column's sums over the states. */
  function TotalSum(states: seq<State>, column: Column): real {
    if |states| == 0 then 0.0
    else TotalSum(states[..|states| - 1], column) + Stat(states[|states| - 1].stats, column).sum
  }

  lemma ValuesConcat(a: seq<County>, b: seq<County>, column: Column)
    ensures Values(a + b, column) == Values(a, column) + Values(b, column)
  {
  }

  lemma AllCountiesPrefixStep(raw: seq<RawState>, lib: NumericLib, k: nat)
    requires 0 < k <= |raw|
    ensures AllCounties(raw[..k], lib) == AllCounties(raw[..k - 1], lib) + StateCounties(raw[k - 1], lib)
  {
    assert raw[..k][..k - 1] == raw[..k - 1];
  }

  /** Statistics of a column over two consecutive runs of counties. */
  lemma SummarizeCountiesConcat(a: seq<County>, b: seq<County>, lib: NumericLib, column: Column)
    ensures Summarize(Values(a + b, column), lib).count
            == Summarize(Values(a, column), lib).count + Summarize(Values(b, column), lib).count
    ensures Summarize(Values(a + b, column), lib).sum
            == Summarize(Values(a, column), lib).sum + Summarize(Values(b, column), lib).sum
  {
    ValuesConcat(a, b, column);
    SummarizeConcat(Values(a, column), Values(b, column), lib);
  }

  /** Counts and sums over the counties of the first k states are the
      totals of those states' own statistics. */
  lemma {:induction false} TotalsOfPrefix(raw: seq<RawState>, states: seq<State>, lib: NumericLib, column: Column, k: nat)
    requires k <= |raw| == |states|
    requires forall i | 0 <= i < |raw| ::
      Stat(states[i].stats, column) == Summarize(Values(StateCounties(raw[i], lib), column), lib)
    ensures Summarize(Values(AllCounties(raw[..k], lib), column), lib).count == TotalCount(states[..k], column)
    ensures Summarize(Values(AllCounties(raw[..k], lib), column), lib).sum == TotalSum(states[..k], column)
    decreases k
  {
    if k > 0 {
      TotalsOfPrefix(raw, states, lib, column, k - 1);
      assert states[..k][..k - 1] == states[..k - 1];
      AllCountiesPrefixStep(raw, lib, k);
      SummarizeCountiesConcat(AllCounties(raw[..k - 1], lib), StateCounties(raw[k - 1], lib), lib, column);
    }
  }

  /** The country statistics are taken over all counties of all states: its
      count and sum of each column are the totals of the states' counts and
      sums. */
  lemma CountryStatsAreStateTotals(raw: seq<RawState>, cards: seq<Scorecard>, lib: NumericLib, column: Column)
    ensures Stat(Process(raw, cards, lib).country, column).count == TotalCount(Process(raw, cards, lib).states, column)
    ensures Stat(Process(raw, cards, lib).country, column).sum == TotalSum(Process(raw, cards, lib).states, column)
  {
    var r := Process(raw, cards, lib);
    forall i | 0 <= i < |raw|
      ensures Stat(r.states[i].stats, column) == Summarize(Values(StateCounties(raw[i], lib), column), lib)
    {
      StateStatistics(raw, cards, lib, i, column);
    }
    TotalsOfPrefix(raw, r.states, lib, column, |raw|);
    assert raw[..|raw|] == raw;
    assert r.states[..|raw|] == r.states;
    assert r.country == StatsOf(AllCounties(raw, lib), lib);
  }

  /** The first scorecard for the code is the one attached. */
  lemma {:induction false} FindScorecardIsFirst(cards: seq<Scorecard>, code: string, k: nat)
    requires k < |cards| && cards[k].state == code
    requires forall m | 0 <= m < k :: cards[m].state != code
    ensures FindScorecard(cards, code) == Some(cards[k])
    decreases k
  {
    if k > 0 {
      FindScorecardIsFirst(cards[1..], code, k - 1);
    }
  }

  /** States MO and KS with a scorecard for MO only: MO gets it, KS gets
      null. */
  lemma ScorecardExample(lib: NumericLib)
    ensures var cards := [Scorecard("MO", Some("2"))];
            var r := Process([RawState("29", "Missouri", "MO", []), RawState("20", "Kansas", "KS", [])], cards, lib);
            && r.states[0].scorecard == Some(Scorecard("MO", Some("2")))
            && r.states[1].scorecard.None?
  {
  }
}
