/** `enhanceData`: wraps the processed data's state list, each state's
    county list and the top-level county list as indexed arrays, so that the
    pages can look states and counties up by a column. */
module EnhanceData {
  import opened Wrappers
  import opened ProcessData
  import opened IndexedArray

  /** The data as loaded: `states` is absent (`None`) when the payload has no
      state list. */
  datatype Loaded = Loaded(states: Option<seq<State>>, counties: seq<County>, country: RegionStats)

  /** A list that is either a plain array or an indexed array. */
  datatype Collection<T> = Plain(items: seq<T>) | Indexed(wrapped: IndexedArray<T>)

  /** A state whose county list is an indexed array; every other field is
      the state's own. */
  datatype WrappedState = WrappedState(
    name: string,
    abv: string,
    code: string,
    fips: string,
    counties: IndexedArray<County>,
    stats: RegionStats,
    scorecard: Option<Scorecard>)

  /** The `country` field: the statistics, or the empty object `{}` of the
      fallback. */
  datatype Country = CountryStats(stats: RegionStats) | EmptyObject

  datatype Enhanced = Enhanced(states: Collection<WrappedState>, counties: Collection<County>, country: Country)

  function WrapState(s: State): WrappedState {
    WrappedState(s.name, s.abv, s.code, s.fips, Create(s.counties), s.stats, s.scorecard)
  }

  /** `enhanceData(data)`. */
  function Enhance(d: Loaded): (r: Enhanced)
    ensures d.states.None? ==> r == Enhanced(Plain([]), Plain([]), EmptyObject)
    ensures d.states.Some? ==>
      && r.states.Indexed? && r.counties.Indexed?
      && |r.states.wrapped.items| == |d.states.value|
      && r.counties.wrapped.items == d.counties
      && r.country == CountryStats(d.country)
      && r.states.wrapped.indexes == map[] && r.states.wrapped.memo == map[]
      && r.counties.wrapped.indexes == map[] && r.counties.wrapped.memo == map[]
  {
    match d.states
    case None => Enhanced(Plain([]), Plain([]), EmptyObject)
    case Some(states) =>
      Enhanced(
        Indexed(Create(seq(|states|, i requires 0 <= i < |states| => WrapState(states[i])))),
        Indexed(Create(d.counties)),
        CountryStats(d.country))
  }

  /** Each wrapped state keeps its position and every field, and its
      counties are an indexed array over the same records in the same order
      with nothing cached yet. */
  lemma WrappedStateKeepsFields(d: Loaded, i: nat)
    requires d.states.Some? && i < |d.states.value|
    ensures var s := d.states.value[i];
            var w := Enhance(d).states.wrapped.items[i];
            && w.name == s.name && w.abv == s.abv && w.code == s.code && w.fips == s.fips
            && w.stats == s.stats && w.scorecard == s.scorecard
            && w.counties.items == s.counties
            && w.counties.indexes == map[] && w.counties.memo == map[]
  {
  }

  /** Takes the wrappers off again. */
  function Unwrap(e: Enhanced): (d: Loaded)
    requires e.states.Indexed? && e.counties.Indexed? && e.country.CountryStats?
  {
    var states := e.states.wrapped.items;
    Loaded(
      Some(seq(|states|, i requires 0 <= i < |states| =>
        var w := states[i];
        State(w.name, w.abv, w.code, w.fips, w.counties.items, w.stats, w.scorecard))),
      e.counties.wrapped.items,
      e.country.stats)
  }

  /** Wrapping loses nothing: when the state list is present, unwrapping the
      result gives back the input. */
  lemma UnwrapEnhance(d: Loaded)
    requires d.states.Some?
    ensures Enhance(d).states.Indexed? && Enhance(d).counties.Indexed? && Enhance(d).country.CountryStats?
    ensures Unwrap(Enhance(d)) == d
  {
    var states := d.states.value;
    var back := Unwrap(Enhance(d)).states.value;
    assert |back| == |states|;
    forall i | 0 <= i < |states|
      ensures back[i] == states[i]
    {
      WrappedStateKeepsFields(d, i);
    }
    assert back == states;
  }
}
