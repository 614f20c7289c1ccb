# vpp-acorn core in Dafny

A model of the data core of the voter-purge explorer, a Next.js site that
shows, per US state and county, how many registered voters were dropped from
the rolls. The model covers these parts:

- **The indexed array** (`IndexedArray`). A read-only array wrapped in a
  proxy that adds `$find` (first record whose column value stringifies
  like a needle) and `$query` (all such records, memoised). A per-column
  index maps each stringified value to its ascending positions, and is
  built the first time a column is looked up. The structure's state
  (built indexes, memo) is passed explicitly: each lookup returns its
  result and the new state. Both lookups are proved equal to a linear scan.
- **`featureStats`** (`FeatureStats`). Count, sum, mean and deviation of
  one column. Missing values become 0 and are still counted.
- **`processData`** (`ProcessData`). Flattens the per-state county maps
  into county records, attaches each state's scorecard, and computes state
  and country statistics. It then writes the z-scores of the purged
  percentage into the states' county lists. The z-score arithmetic uses
  JavaScript numbers with NaN and the infinities (`JsNumber`), so a zero
  deviation is followed through.
- **`enhanceData`** (`EnhanceData`). Wraps the state list, each state's
  counties and the top-level counties as indexed arrays.
- **The county index route** (`CountyRoute`). `formatCountyData`
  (zero-padded FIPS code, `parseInt` of the voter counts), then grouping
  the rows by state abbreviation with `R.groupBy` (`Grouping`), in
  first-occurrence order.
- **The GeoJSON splitter** (`CountyMaps`). The format check, grouping of
  the features by `properties.state`, projection of each feature onto the
  seven properties the map uses, and the lower-cased output file name per
  state. The files written are returned as a list, and `Disk` folds them
  into the final name-to-content map.
- **The state list page** (`StatesPage`). The star drawing `getStars`,
  the card colour, the sort mode read from the query string, and
  `R.sortBy` by name or by descending star count. The sort (`StableSort`)
  is a stable insertion sort, proved sorted, a permutation and stable.
- **The country map's focus** (`CountryMap`). `resizeBoundsCentered` and
  the 1.5 zoom when a county is focused.

JavaScript's `String(v)`, `parseInt`, `padStart`, `repeat`, `toLowerCase`
and string `<` are modelled in `JsValue`. As in JavaScript, a string's length
and its order are taken over UTF-16 code units, so a character above U+FFFF
counts twice and compares by its high surrogate.

Some behaviours of the code that are easy to misread:
- Missing values are counted by `featureStats` and enter the mean and
  deviation as 0; they are not excluded.
- The purged percentage is stored as parsed, not divided by 100.
- No z-score legend is computed.
- The top-level `counties` list keeps the records as they were before the
  z-score pass, because the pass replaces the states' list entries with
  new objects.

## Model

| member | source | states |
|---|---|---|
| IndexedArray.Create | src/utils/indexedArray.ts:11-17 | A new indexed array holds exactly the given records, with no index built and nothing memoised. |
| IndexedArray.Get | src/utils/indexedArray.ts:20-33 | The proxy intercepts `_indexes` (the index store), `$find` and `$query`. |
| IndexedArray.GetDelegatesToArray | src/utils/indexedArray.ts:32 | Every other read goes to the array: position i reads record i, and `length` reads the array's length. |
| IndexedArray.GetIgnoresCaches | src/utils/indexedArray.ts:20-32 | Outside the three intercepted names, reads are the same whatever indexes and memo entries exist. |
| IndexedArray.ArrayIndex | src/utils/indexedArray.ts:32 | A property name reads as an array position only when it is the canonical decimal form of a position below the length. |
| IndexedArray.BuildIndex | src/utils/indexedArray.ts:73-83 | The built index maps every stringified value to exactly the ascending positions holding it, and holds the key of every record. |
| IndexedArray.IndexPartitionsPositions | src/utils/indexedArray.ts:73-83 | Each position lies in the bucket of its own key and in no other bucket. |
| IndexedArray.AbsentKeyMatchesNothing | src/utils/indexedArray.ts:73-83 | A key is absent from the index exactly when no record matches it. |
| IndexedArray.PositionsAscending | src/utils/indexedArray.ts:75-80 | Each bucket lists its positions in strictly ascending order. |
| IndexedArray.Lookup | src/utils/indexedArray.ts:66-67 | Reading the records at a bucket's positions gives the records that match, in array order (the linear-scan filter). |
| IndexedArray.EnsureIndex | src/utils/indexedArray.ts:41-43 | A column is indexed afterwards; an index already built is kept as it was, and the structure stays valid. |
| IndexedArray.Find | src/utils/indexedArray.ts:36-49 | `$find` returns the first record, scanning from position 0, whose column value stringifies like the needle, or nothing. Only the column's index may be added. |
| IndexedArray.Query | src/utils/indexedArray.ts:51-71 | `$query` returns exactly the matching records in order, as a fresh indexed array. The result is memoised per (column, needle); a repeated query hits the memo and changes nothing. |
| IndexedArray.FindIsHeadOfQuery | src/utils/indexedArray.ts:36-71 | `$find` returns the first element of what `$query` returns, and nothing when that is empty. |
| IndexedArray.LinearFindIsLowestMatch | src/utils/indexedArray.ts:46-48 | The record found is the one at the lowest matching position. |
| IndexedArray.QueryAsWritten | src/utils/indexedArray.ts:61-69 | With the memo keyed by `${column}_${needle}`, a hit returns whatever an earlier call stored under the same string. |
| IndexedArray.QueryAsWrittenReturnsForeignRecords | src/utils/indexedArray.ts:61-64 | Counterexample: ("a_b", "c") and ("a", "b_c") share a memo key, so the second query returns a record that does not match it. |
| JsValue.DecimalStringInjective | src/utils/indexedArray.ts:47 | Distinct integers stringify differently, so an integer needle never matches the key of another integer. |
| JsValue.IntAndStringFormShareKey | src/utils/indexedArray.ts:76 | An integer and a string have the same index key exactly when the string is the integer's decimal form. |
| JsValue.ParseIntOfDecimalString | src/app/counties/route.ts:18-19 | `parseInt` of an integer's decimal form gives back the integer. |
| JsValue.ParseIntSkipsSpace | src/pages/states/index.tsx:146 | `parseInt` ignores a leading white space character, including every Unicode space separator such as U+3000. |
| JsValue.UnitsInjective | src/pages/states/index.tsx:42-44 | Different strings have different UTF-16 code units; with it, `<` orders any two different names one way or the other. |
| JsValue.SurrogatesSortLow | src/pages/states/index.tsx:42-44 | A character above U+FFFF sorts before one from U+E000 to U+FFFF, because `<` compares code units. |
| JsValue.PadStartCountsCodeUnits | src/app/counties/route.ts:14-16 | A character above U+FFFF already has length 2: `padStart(2, '0')` leaves it alone and `padStart(3, '0')` adds one zero. |
| FeatureStats.ZeroFilled | src/app/utils.ts:39 | Each missing value becomes 0 and every present value is kept, position by position. |
| FeatureStats.ZeroFilledSum | src/app/utils.ts:39-42 | Zero-filling leaves the sum equal to the sum of the present values. |
| FeatureStats.Summarize | src/app/utils.ts:36-46 | `count` is the number of records, missing ones included. `sum` is the sum of the present values. `mean` and `std` are the library's, over the zero-filled array. |
| FeatureStats.SummarizeConcat | src/app/utils.ts:40-42 | Over a concatenation, counts add up and sums add up. |
| FeatureStats.MissingValueIsCountedAsZero | src/app/utils.ts:37-41 | A missing value raises the count by one, leaves the sum, and enters the library's array as 0. |
| JsNumber.Div | src/utils/processData.ts:49-52 | JavaScript division: NaN propagates; 0/0 is NaN; a finite non-zero divisor divides exactly. |
| JsNumber.ZScoreInverts | src/utils/processData.ts:51-52 | With a non-zero deviation the z-score is finite, and value = mean + z * deviation. |
| JsNumber.ZScoreAtMean | src/utils/processData.ts:49-52 | The mean itself scores 0 with a non-zero deviation, and NaN with a zero deviation. |
| JsNumber.ZScoreOfZeroDeviation | src/utils/processData.ts:49-52 | A zero deviation never gives a finite z-score. |
| ProcessData.FindScorecard | src/utils/processData.ts:37-38 | No scorecard exactly when no card has the state's code; otherwise a card with that code. |
| ProcessData.FindScorecardIsFirst | src/utils/processData.ts:37 | The attached scorecard is the first one for the code. |
| ProcessData.ScorecardExample | src/utils/processData.ts:37-38 | With a card for MO only, MO gets it and KS gets null. |
| ProcessData.Process | src/utils/processData.ts:4-73 | One state per input state, in order: name and abbreviation kept, `code` set to the abbreviation, `fips` to the numeric code, as many counties as its map has entries, and the first matching scorecard. |
| ProcessData.AnnotatedCounty | src/utils/processData.ts:12-57 | Each county of a state: named after its `county` field, its voter counts copied, keyed by its FIPS entry, pointing back at its state, its percentage parsed (null kept null), and z-scores against its state's and the country's mean and deviation. |
| ProcessData.StateStatistics | src/utils/processData.ts:26-49 | A state's statistics are those of its own counties; its country z-score compares its mean with the country's; the country statistics are over all counties. |
| ProcessData.AllCountiesAt | src/utils/processData.ts:24 | The concatenated list holds county j of state i after the counties of the states before it. |
| ProcessData.TopLevelCountiesArePreAnnotation | src/utils/processData.ts:24-71 | The top-level county at that position is the state's county without its two z-scores. |
| ProcessData.AllCountiesUnannotated | src/utils/processData.ts:24 | No record of the top-level county list carries a z-score. |
| ProcessData.CountryStatsAreStateTotals | src/utils/processData.ts:42-46 | For each column, the country's count and sum are the totals of the states' counts and sums. |
| Grouping.GroupBy | src/app/counties/route.ts:30 | Keys are distinct. The key list and the group map name the same keys. Each group is non-empty and holds exactly the elements with its key, in input order. Every element's key is present. |
| Grouping.KeysInFirstOccurrenceOrder | src/app/counties/route.ts:30 | Every key occurs in the input, and the keys are listed in the order of their first occurrence. |
| Grouping.GroupSizesAddUp | src/app/counties/route.ts:30 | The group sizes add up to the number of elements. |
| Grouping.ElementInExactlyOneGroup | src/app/counties/route.ts:30 | An element lies in the group of its own key and in no other group. |
| Grouping.KeyFilterKeepsOrder | src/app/counties/route.ts:30 | Two elements of the same group keep their relative input order. |
| Grouping.GroupTwo | src/scripts/countyMaps.ts:50-56 | Two elements with different keys make two groups, in input order. |
| CountyRoute.FormatCountyData | src/app/counties/route.ts:12-22 | The county name is kept, the percentage is `parseFloat` of `key_pct`, and the FIPS code is at least five code units long and ends with the county part. |
| CountyRoute.FipsNeverTruncates | src/app/counties/route.ts:14-16 | Padding never cuts: the code is as long, in code units, as the two padded parts, ends with the county part, and its state part ends with the given state code. |
| CountyRoute.FipsLayout | src/app/counties/route.ts:14-16 | For parts of at most two and three code units the code has five code units, two from the padded state part and three from the padded county part. |
| CountyRoute.FipsDecomposes | src/app/counties/route.ts:14-16 | Within those lengths, two codes agree exactly when the padded state parts and the padded county parts agree. |
| CountyRoute.PaddingKeepsValue | src/app/counties/route.ts:14-16 | Zero-padding a digit string keeps its numeric value. |
| CountyRoute.VoterCountsRoundTrip | src/app/counties/route.ts:18-19 | Counts written in decimal are read back as the same numbers. |
| CountyRoute.FormatAll | src/app/counties/route.ts:41-43 | Each row of a state's group is reshaped, in order. |
| CountyRoute.CountyIndexResponse | src/app/counties/route.ts:30-46 | One entry per state abbreviation, in the order of the grouping's keys. Each entry has its code, the fetched metadata for it, the FIPS state of its first row and its rows reshaped; `snapshot_count` is 1. |
| CountyRoute.EntriesInFirstOccurrenceOrder | src/app/counties/route.ts:30-45 | The entries come in the order in which their states first occur among the rows. |
| CountyRoute.EveryRowInItsState | src/app/counties/route.ts:30-45 | Every row appears, reshaped, in the entry of its own state, and no two entries share a code. |
| CountyRoute.CountiesAddUp | src/app/counties/route.ts:30-45 | The entries hold as many counties as there are rows: none lost, none duplicated. |
| EnhanceData.Enhance | src/utils/enhanceData.ts:4-27 | Without a state list the result is empty lists and `{}`. Otherwise the states and top-level counties become indexed arrays with nothing built, and the country is kept. |
| EnhanceData.WrappedStateKeepsFields | src/utils/enhanceData.ts:6-11 | Each wrapped state keeps its position and fields, and its counties become an indexed array over the same records in the same order. |
| EnhanceData.UnwrapEnhance | src/utils/enhanceData.ts:5-17 | When the state list is present, removing the wrappers gives back the input. |
| CountyMaps.Member | src/scripts/countyMaps.ts:51 | Reading a property fails with a TypeError exactly on null and undefined. |
| CountyMaps.SplitByState | src/scripts/countyMaps.ts:17-61 | A null or undefined input throws a TypeError; otherwise a malformed input throws `Invalid GeoJSON format`. |
| CountyMaps.SplitSucceedsIff | src/scripts/countyMaps.ts:17-56 | The script succeeds exactly on a feature collection whose features all have readable properties; any other failure of a well-formed input is a TypeError. |
| CountyMaps.SplitOutputs | src/scripts/countyMaps.ts:48-61 | One file per distinct state key, in the order of the grouping's keys. Each is named after the lower-cased key and holds that state's features, projected, in input order. |
| CountyMaps.FilesInFirstOccurrenceOrder | src/scripts/countyMaps.ts:48-61 | The files are written in the order in which their state keys first occur among the features. |
| CountyMaps.ProjectedFeature | src/scripts/countyMaps.ts:25-37 | A projected feature has type `Feature`, keeps the geometry, copies the six census properties and carries the state under `STATE`. |
| CountyMaps.OutputFeaturesBelongToTheirState | src/scripts/countyMaps.ts:22-60 | Every feature in a file carries a `STATE` that stringifies to that file's key. |
| CountyMaps.EveryFeatureWrittenOnce | src/scripts/countyMaps.ts:48-61 | The files hold as many features as the input: none lost, none duplicated. |
| CountyMaps.TwoStatesTwoFiles | src/scripts/countyMaps.ts:48-61 | Two features with different states give two files, one feature each, in input order. |
| CountyMaps.Disk | src/scripts/countyMaps.ts:44 | The file names present afterwards are exactly the names written. |
| CountyMaps.DiskHoldsLastWrite | src/scripts/countyMaps.ts:40-44 | The content under a name is the last file written under it. |
| CountyMaps.LowerCaseNames | src/scripts/countyMaps.ts:42 | "MO" and "mo" get the same file name. |
| CountyMaps.CaseVariantsShareAFile | src/scripts/countyMaps.ts:40-60 | States "MO" and "mo" are grouped apart but written to one file, and the second replaces the first. |
| StableSort.SortByPermutes | src/pages/states/index.tsx:42-44 | The sorted list is a permutation of the input. |
| StableSort.SortByComparable | src/pages/states/index.tsx:42-44 | With pairwise comparable keys, no element is followed by one with a smaller key. |
| StableSort.SortByStable | src/pages/states/index.tsx:42-44 | Elements with equal keys keep their input order. |
| StatesPage.SortModeOf | src/pages/states/index.tsx:31 | The list sorts by name exactly when `sort` is absent, empty or "name"; anything else sorts by score. |
| StatesPage.QueryNameSortsByName | src/pages/states/index.tsx:31-44 | With `sort` absent, empty or "name", the page lists a permutation of the states ordered by name. |
| StatesPage.NameOrder | src/pages/states/index.tsx:42-44 | In name mode the list is a permutation ordered by name (string `<` over UTF-16 code units), and equal names keep their order. |
| StatesPage.ScoreOrder | src/pages/states/index.tsx:42-44 | In score mode, with numeric ratings, the list is a permutation from most to fewest stars, and equal ratings keep their order. |
| StatesPage.DrawStars | src/pages/states/index.tsx:147 | The drawing succeeds exactly for 0 to 3 stars and then has three characters. |
| StatesPage.GetStars | src/pages/states/index.tsx:145-148 | `getStars` succeeds exactly when the parsed count is 0 to 3, and then draws three characters. |
| StatesPage.StarsDrawn | src/pages/states/index.tsx:147 | For n from 0 to 3: filled stars up to n, then empty stars. |
| StatesPage.GetStarsCountsBack | src/pages/states/index.tsx:145-148 | A rating of 0 to 3 in decimal draws exactly that many filled stars. |
| StatesPage.GetStarsRejectsOutOfRange | src/pages/states/index.tsx:145-148 | A rating outside 0 to 3 throws a RangeError. |
| StatesPage.GetStarsOfNoNumber | src/pages/states/index.tsx:146-147 | A missing rating, or one with no leading digits, draws three empty stars. |
| StatesPage.ScoreCardColor | src/pages/states/index.tsx:136-143 | The card is coloured exactly for the ratings "1", "2" and "3", and gray otherwise. |
| StatesPage.ColourMatchesStars | src/pages/states/index.tsx:136-148 | A coloured card shows 1 to 3 filled stars, the number its colour stands for. |
| StatesPage.PaddedRatingIsGrey | src/pages/states/index.tsx:136-148 | A rating with a leading space draws the same stars as without it, but its card is gray. |
| CountryMap.ResizeBoundsCentered | src/app/components/CountryMap.tsx:17-24 | The box is scaled by the factor in both dimensions and keeps its centre. |
| CountryMap.CentreAndSizeDetermineBox | src/app/components/CountryMap.tsx:17-24 | A box is determined by its centre and size, so the resize is the only box with the scaled size and the old centre. |
| CountryMap.ResizeComposes | src/app/components/CountryMap.tsx:17-24 | Resizing by f and then g is resizing by f * g. |
| CountryMap.ResizeInverts | src/app/components/CountryMap.tsx:17-24 | Resizing by a non-zero factor is undone by its reciprocal. |
| CountryMap.ZoomFactor | src/app/components/CountryMap.tsx:83 | The zoom is 1.5 exactly when a non-empty county name is focused, and 1 otherwise. |
| CountryMap.FocusedView | src/app/components/CountryMap.tsx:83-87 | A focused county is shown one and a half times its size; a state alone is shown at its own box. |

## Left out

- CountyMaps.Json: JSON numbers are integers only. Non-integer numbers, such as the float coordinates of every real geometry or a fractional `state` value, are not modelled. The split only copies geometry and stringifies the state, so neither changes what it computes for integer and string keys.
- CountyMaps.Disk: file names are not joined with the output directory or normalised by `path.join`. Keys are assumed to contain no `/`. A key like "x/../mo" would name the same file as "mo", a key like "../ks" would write outside the directory, and a missing directory part would make `writeFileSync` throw.
- Reading and writing files, `fetch`, the React components, routing side effects (`router.replace`, `router.push`), the DOM queries and SVG updates: I/O and rendering. The route receives the fetched `states` object as a parameter. The splitter returns the files it would write.
- numjs `mean` and `std`, and `parseFloat`: opaque parameters (`NumericLib`, `parseFloat`), because floating-point arithmetic is not modelled. Numbers are exact reals, extended with NaN and the infinities only for the z-score division.
- CountryMap.ResizeBoundsCentered: exact reals, not floating point, so rounding in the box arithmetic is not modelled.
- The logging in `featureStats` and the splitter: no effect on results.
- `Object.keys` ordering of integer-like keys: groups and county maps are kept in insertion order. An object whose keys look like array indices would enumerate them first in JavaScript.
- Prototype properties (`constructor`, `__proto__`) as group or index keys: a plain object would answer them; the model's maps do not.
- IndexedArray.Get: array methods and other prototype properties (`map`, `forEach`, ...) read as absent; only `length` and element positions are passed through.
- IndexedArray.BuildIndex: every record is a non-null object. On a null or undefined element, `String(item[propName])` throws a TypeError; that error path is not modelled.
- IndexedArray.Find: column values are undefined, null, booleans, integers or strings; non-integer numbers and objects are not modelled because JavaScript's number formatting is not.
- IndexedArray.Query: the result is a fresh indexed array each time rather than the identical memoised object, because object identity is not modelled.
- Mutation of the underlying array after an index is built: the model's records are immutable.
- StatesPage.ScoreOrder: requires every rating to be numeric. A non-numeric rating gives the key NaN, the comparator becomes inconsistent, and the order is then engine-defined.
- StatesPage.ToNumber: reads only optionally signed decimal integers; fractions, exponents, hexadecimal and `Infinity` forms are not modelled.
- JsValue.ToLower: only ASCII letters are lower-cased; `toLowerCase` on other Unicode letters is not modelled.
- JsValue.DecimalString: integers are printed with all their digits. JavaScript prints numbers of magnitude 10^21 and above in exponent form ("1e+21"), and integers above 2^53 are not exact doubles. Neither is modelled, because the model's integers are unbounded.
- JsValue.PadStart: the fill is a single character below U+10000, the only kind the application uses ('0'). A longer fill, or one above U+FFFF, would be cut into code units.
- JsValue.ParseInt: `parseInt` is modelled for decimal and `0x` hexadecimal prefixes; the precision limit of large numbers is not modelled.
- The content written per file is the JSON value; `JSON.stringify` formatting is not modelled. The model keeps a missing property as `undefined`, which `JSON.stringify` would omit.
- The TypeScript types of the records beyond the fields the core reads.

## Findings

| source | as written | input that shows it | evidently intended | confidence | as-written member | corrected member |
|---|---|---|---|---|---|---|
| src/utils/indexedArray.ts:61-64 | `$query` memoises under the string `${column}_${needle}`, which two different (column, needle) pairs can share | a record with `a_b = "c"` and `a = "x"`: `$query("a_b", "c")`, then `$query("a", "b_c")` returns the record although its `a` is not "b_c" | memoise per (column, needle) pair, so a query returns only records that match it | not executed | IndexedArray.QueryAsWrittenReturnsForeignRecords | IndexedArray.Query |
