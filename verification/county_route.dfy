/** The county index route: each row of the bundled county table is
    reshaped (`formatCountyData`), and the rows are grouped by state
    abbreviation into one entry per state. The fetch of the state metadata
    is a parameter: the route receives the fetched `states` object. */
module CountyRoute {
  import opened Wrappers
  import opened JsValue
  import opened Grouping

  /** A row of the bundled county table; every field is a string. */
  datatype CountyRow = CountyRow(
    fipsState: string,
    fipsCounty: string,
    county: string,
    count: string,
    keyCount: string,
    keyPct: string,
    stateAbv: string)

  /** A reshaped county; `None` is the NaN that `parseInt` returns for a
      string without digits. */
  datatype CountyData = CountyData(
    fips: string,
    county: string,
    totalVoters: Option<int>,
    purgedVoters: Option<int>,
    purgedPcnt: real)

  /** The five-character county FIPS code: the state part left-padded with
      '0' to two code units, then the county part to three. */
  function Fips(fipsState: string, fipsCounty: string): string {
    PadStart(fipsState, 2, '0') + PadStart(fipsCounty, 3, '0')
  }

  /** `formatCountyData(row)`; `parseFloat` is a parameter. */
  function FormatCountyData(row: CountyRow, parseFloat: string -> real): (c: CountyData)
    ensures c.county == row.county
    ensures c.purgedPcnt == parseFloat(row.keyPct)
    ensures Utf16Length(c.fips) >= 5
    ensures |row.fipsCounty| <= |c.fips| && c.fips[|c.fips| - |row.fipsCounty|..] == row.fipsCounty
  {
    var fips := Fips(row.fipsState, row.fipsCounty);
    assert Utf16Length(fips) >= 5 && fips[|fips| - |row.fipsCounty|..] == row.fipsCounty by {
      FipsNeverTruncates(row.fipsState, row.fipsCounty);
    }
    CountyData(fips, row.county, ParseInt(row.count), ParseInt(row.keyCount), parseFloat(row.keyPct))
  }

  // ---------------------------------------------------------------------
  // The FIPS code
  // ---------------------------------------------------------------------

  /** Padding never truncates: the code is as long, in code units, as the
      padded parts, it ends with the county part, and its first padded part
      ends with the state part. */
  lemma FipsNeverTruncates(fipsState: string, fipsCounty: string)
    ensures Utf16Length(Fips(fipsState, fipsCounty))
            == (if Utf16Length(fipsState) >= 2 then Utf16Length(fipsState) else 2)
               + (if Utf16Length(fipsCounty) >= 3 then Utf16Length(fipsCounty) else 3)
    ensures Fips(fipsState, fipsCounty)[|Fips(fipsState, fipsCounty)| - |fipsCounty|..] == fipsCounty
    ensures Fips(fipsState, fipsCounty)[..|PadStart(fipsState, 2, '0')|] == PadStart(fipsState, 2, '0')
    ensures PadStart(fipsState, 2, '0')[|PadStart(fipsState, 2, '0')| - |fipsState|..] == fipsState
  {
    var a := PadStart(fipsState, 2, '0');
    var b := PadStart(fipsCounty, 3, '0');
    UnitsOfConcat(a, b);
    SuffixOfConcat(a, b, |fipsCounty|);
    assert (a + b)[..|a|] == a;
  }

  lemma SuffixOfConcat(a: string, b: string, n: nat)
    requires n <= |b|
    ensures (a + b)[|a + b| - n..] == b[|b| - n..]
  {
  }

  /** With a state part of at most two code units and a county part of at
      most three, the code has exactly five code units, the first two
      those of the padded state part and the last three those of the padded
      county part. */
  lemma FipsLayout(fipsState: string, fipsCounty: string)
    requires Utf16Length(fipsState) <= 2 && Utf16Length(fipsCounty) <= 3
    ensures Utf16Length(Fips(fipsState, fipsCounty)) == 5
    ensures Units(Fips(fipsState, fipsCounty))[..2] == Units(PadStart(fipsState, 2, '0'))
    ensures Units(Fips(fipsState, fipsCounty))[2..] == Units(PadStart(fipsCounty, 3, '0'))
  {
    var a := PadStart(fipsState, 2, '0');
    var b := PadStart(fipsCounty, 3, '0');
    UnitsOfConcat(a, b);
    assert (Units(a) + Units(b))[..2] == Units(a) && (Units(a) + Units(b))[2..] == Units(b);
  }

  /** Within those lengths, two rows get the same code exactly when their
      padded state parts and their padded county parts agree. */
  lemma FipsDecomposes(s1: string, c1: string, s2: string, c2: string)
    requires Utf16Length(s1) <= 2 && Utf16Length(c1) <= 3 && Utf16Length(s2) <= 2 && Utf16Length(c2) <= 3
    ensures Fips(s1, c1) == Fips(s2, c2)
            <==> PadStart(s1, 2, '0') == PadStart(s2, 2, '0') && PadStart(c1, 3, '0') == PadStart(c2, 3, '0')
  {
    FipsLayout(s1, c1);
    FipsLayout(s2, c2);
    UnitsInjective(PadStart(s1, 2, '0'), PadStart(s2, 2, '0'));
    UnitsInjective(PadStart(c1, 3, '0'), PadStart(c2, 3, '0'));
  }

  predicate AllDigits(s: string) {
    forall i | 0 <= i < |s| :: IsDecimalDigit(s[i])
  }

  lemma {:induction false} DigitPrefixOfDigits(s: string)
    requires AllDigits(s)
    ensures DigitPrefixLength(s, 10) == |s|
    decreases |s|
  {
    if |s| > 0 {
      assert AllDigits(s[1..]) by {
        assert forall i | 0 <= i < |s| - 1 :: s[1..][i] == s[i + 1];
      }
      DigitPrefixOfDigits(s[1..]);
    }
  }

  /** `parseInt` of a non-empty digit string is its decimal value. */
  lemma ParseIntOfDigits(s: string)
    requires |s| > 0 && AllDigits(s)
    ensures ParseInt(s) == Some(DigitsValue(s, 10))
  {
    assert TrimStart(s) == s by {
      assert !IsWhiteSpace(s[0]);
    }
    assert SplitSign(s) == (false, s);
    assert |s| >= 2 ==> IsDecimalDigit(s[1]);
    assert SplitRadix(s) == (10, s);
    DigitPrefixOfDigits(s);
    assert s[..|s|] == s;
  }

  lemma {:induction false} LeadingZerosAddNothing(z: string, s: string)
    requires forall i | 0 <= i < |z| :: z[i] == '0'
    ensures DigitsValue(z + s, 10) == DigitsValue(s, 10)
    decreases |z| + |s|
  {
    if |s| == 0 {
      assert z + s == z;
      if |z| > 0 {
        LeadingZerosAddNothing(z[..|z| - 1], []);
        assert z[..|z| - 1] + [] == z[..|z| - 1];
      }
    } else {
      LeadingZerosAddNothing(z, s[..|s| - 1]);
      assert (z + s)[..|z + s| - 1] == z + s[..|s| - 1];
    }
  }

  /** Zero-padding keeps the numeric value of a digit string: the padded
      FIPS parts still parse to the same numbers. */
  lemma PaddingKeepsValue(s: string, n: nat)
    requires |s| > 0 && AllDigits(s)
    ensures ParseInt(PadStart(s, n, '0')) == ParseInt(s)
  {
    var p := PadStart(s, n, '0');
    ParseIntOfDigits(s);
    if Utf16Length(s) < n {
      var z := Repeat('0', n - Utf16Length(s));
      assert p == z + s;
      assert AllDigits(p) by {
        assert forall i | 0 <= i < |p| :: p[i] == '0' || p[i] == s[i - |z|];
      }
      ParseIntOfDigits(p);
      LeadingZerosAddNothing(z, s);
    }
  }

  /** A count printed in decimal parses back to the same number. */
  lemma VoterCountsRoundTrip(row: CountyRow, parseFloat: string -> real, total: int, purged: int)
    requires row.count == DecimalString(total) && row.keyCount == DecimalString(purged)
    ensures FormatCountyData(row, parseFloat).totalVoters == Some(total)
    ensures FormatCountyData(row, parseFloat).purgedVoters == Some(purged)
  {
    ParseIntOfDecimalString(total);
    ParseIntOfDecimalString(purged);
  }

  // ---------------------------------------------------------------------
  // The response
  // ---------------------------------------------------------------------

  /** One state of the response: the fetched state metadata (`None` when the
      code is not in it), the code, the FIPS state code of the group's first
      row, and the group's rows reshaped. */
  datatype StateEntry<S> = StateEntry(state: Option<S>, code: string, fips: string, counties: seq<CountyData>)

  datatype CountyIndex<S> = CountyIndex(snapshotCount: int, snapshotLatest: string, states: seq<StateEntry<S>>)

  function StateAbv(row: CountyRow): string {
    row.stateAbv
  }

  function FormatAll(rows: seq<CountyRow>, parseFloat: string -> real): (r: seq<CountyData>)
    ensures |r| == |rows|
    ensures forall j | 0 <= j < |rows| :: r[j] == FormatCountyData(rows[j], parseFloat)
  {
    seq(|rows|, j requires 0 <= j < |rows| => FormatCountyData(rows[j], parseFloat))
  }

  function Lookup<S>(states: map<string, S>, code: string): Option<S> {
    if code in states then Some(states[code]) else None
  }

  /** The body of the route's response. */
  function CountyIndexResponse<S>(rows: seq<CountyRow>, states: map<string, S>, parseFloat: string -> real): (r: CountyIndex<S>)
    ensures r.snapshotCount == 1
    ensures |r.states| == |GroupBy(rows, StateAbv).keys|
    ensures forall i | 0 <= i < |r.states| ::
      && r.states[i].code == GroupBy(rows, StateAbv).keys[i]
      && |KeyFilter(rows, StateAbv, r.states[i].code)| > 0
      && r.states[i].fips == KeyFilter(rows, StateAbv, r.states[i].code)[0].fipsState
      && r.states[i].counties == FormatAll(KeyFilter(rows, StateAbv, r.states[i].code), parseFloat)
      && r.states[i].state == Lookup(states, r.states[i].code)
  {
    var g := GroupBy(rows, StateAbv);
    CountyIndex(1, "2020-02-13T00:00:00Z",
      seq(|g.keys|, i requires 0 <= i < |g.keys| =>
        var group := g.groups[g.keys[i]];
        StateEntry(Lookup(states, g.keys[i]), g.keys[i], group[0].fipsState, FormatAll(group, parseFloat))))
  }

  /** The entries come in the order in which their states first occur
      among the rows. */
  lemma EntriesInFirstOccurrenceOrder<S>(rows: seq<CountyRow>, states: map<string, S>, parseFloat: string -> real)
    ensures var r := CountyIndexResponse(rows, states, parseFloat);
            && (forall a | 0 <= a < |r.states| :: FirstIndex(rows, StateAbv, r.states[a].code) < |rows|)
            && (forall a, b | 0 <= a < b < |r.states| ::
                  FirstIndex(rows, StateAbv, r.states[a].code) < FirstIndex(rows, StateAbv, r.states[b].code))
  {
    var r := CountyIndexResponse(rows, states, parseFloat);
    var keys := GroupBy(rows, StateAbv).keys;
    KeysInFirstOccurrenceOrder(rows, StateAbv);
    assert FirstOccurrenceOrder(keys, rows, StateAbv);
    assert forall a | 0 <= a < |r.states| :: r.states[a].code == keys[a];
  }

  /** Every row shows up, reshaped, in the entry of its own state, and that
      entry is the only one with its code. */
  lemma EveryRowInItsState<S>(rows: seq<CountyRow>, states: map<string, S>, parseFloat: string -> real, j: nat)
    requires j < |rows|
    ensures var r := CountyIndexResponse(rows, states, parseFloat);
            && (exists i | 0 <= i < |r.states| :: r.states[i].code == rows[j].stateAbv)
            && (forall i1, i2 | 0 <= i1 < i2 < |r.states| :: r.states[i1].code != r.states[i2].code)
            && (forall i | 0 <= i < |r.states| && r.states[i].code == rows[j].stateAbv ::
                  FormatCountyData(rows[j], parseFloat) in r.states[i].counties)
  {
    var r := CountyIndexResponse(rows, states, parseFloat);
    RowHasEntry(rows, states, parseFloat, j);
    EntryCodesDistinct(rows, states, parseFloat);
    forall i | 0 <= i < |r.states| && r.states[i].code == rows[j].stateAbv
      ensures FormatCountyData(rows[j], parseFloat) in r.states[i].counties
    {
      RowInEntry(rows, states, parseFloat, j, i);
    }
  }

  lemma RowHasEntry<S>(rows: seq<CountyRow>, states: map<string, S>, parseFloat: string -> real, j: nat)
    requires j < |rows|
    ensures exists i | 0 <= i < |CountyIndexResponse(rows, states, parseFloat).states| ::
              CountyIndexResponse(rows, states, parseFloat).states[i].code == rows[j].stateAbv
  {
    var r := CountyIndexResponse(rows, states, parseFloat);
    var g := GroupBy(rows, StateAbv);
    assert StateAbv(rows[j]) in g.groups;
    var i :| 0 <= i < |g.keys| && g.keys[i] == rows[j].stateAbv;
    assert r.states[i].code == rows[j].stateAbv;
  }

  lemma EntryCodesDistinct<S>(rows: seq<CountyRow>, states: map<string, S>, parseFloat: string -> real)
    ensures var r := CountyIndexResponse(rows, states, parseFloat);
            forall i1, i2 | 0 <= i1 < i2 < |r.states| :: r.states[i1].code != r.states[i2].code
  {
    var g := GroupBy(rows, StateAbv);
    assert DistinctKeys(g.keys);
  }

  lemma RowInEntry<S>(rows: seq<CountyRow>, states: map<string, S>, parseFloat: string -> real, j: nat, i: nat)
    requires j < |rows|
    requires i < |CountyIndexResponse(rows, states, parseFloat).states|
    requires CountyIndexResponse(rows, states, parseFloat).states[i].code == rows[j].stateAbv
    ensures FormatCountyData(rows[j], parseFloat) in CountyIndexResponse(rows, states, parseFloat).states[i].counties
  {
    RowInOwnGroup(rows, parseFloat, j);
  }

  /** A row, reshaped, is among the reshaped rows of its state. */
  lemma RowInOwnGroup(rows: seq<CountyRow>, parseFloat: string -> real, j: nat)
    requires j < |rows|
    ensures FormatCountyData(rows[j], parseFloat) in FormatAll(KeyFilter(rows, StateAbv, rows[j].stateAbv), parseFloat)
  {
    var group := KeyFilter(rows, StateAbv, rows[j].stateAbv);
    assert StateAbv(rows[j]) == rows[j].stateAbv;
    assert rows[j] in group;
    var m :| 0 <= m < |group| && group[m] == rows[j];
    assert FormatAll(group, parseFloat)[m] == FormatCountyData(rows[j], parseFloat);
  }

  /** Number of counties over the entries. */
  function CountyTotal<S>(entries: seq<StateEntry<S>>): nat {
    if |entries| == 0 then 0 else CountyTotal(entries[..|entries| - 1]) + |entries[|entries| - 1].counties|
  }

  lemma {:induction false} CountyTotalIsSizeSum<S>(entries: seq<StateEntry<S>>, ks: seq<string>, m: map<string, seq<CountyRow>>)
    requires |entries| == |ks|
    requires forall i | 0 <= i < |ks| :: ks[i] in m && |entries[i].counties| == |m[ks[i]]|
    ensures CountyTotal(entries) == SizeSum(ks, m)
    decreases |ks|
  {
    if |ks| > 0 {
      CountyTotalIsSizeSum(entries[..|ks| - 1], ks[..|ks| - 1], m);
    }
  }

  /** No row is lost or duplicated: the entries hold as many counties as
      there are rows. */
  lemma CountiesAddUp<S>(rows: seq<CountyRow>, states: map<string, S>, parseFloat: string -> real)
    ensures CountyTotal(CountyIndexResponse(rows, states, parseFloat).states) == |rows|
  {
    var r := CountyIndexResponse(rows, states, parseFloat);
    var g := GroupBy(rows, StateAbv);
    forall i | 0 <= i < |g.keys|
      ensures g.keys[i] in g.groups && |r.states[i].counties| == |g.groups[g.keys[i]]|
    {
      assert r.states[i].code == g.keys[i];
    }
    CountyTotalIsSizeSum(r.states, g.keys, g.groups);
    GroupSizesAddUp(rows, StateAbv);
  }
}
