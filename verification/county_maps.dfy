/** The GeoJSON splitting script: checks that the parsed input is a feature
    collection, groups its features by `properties.state`, projects each
    feature onto the properties the map needs, and names one output file per
    state. Reading the input and writing the files are not modelled; the
    files written are returned as a list, and `Disk` folds them into the
    final name |-> content map. */
module CountyMaps {
  import opened Wrappers
  import opened JsValue
  import opened Grouping

  /** A parsed JSON value (with `undefined` for a missing property). */
  datatype Json = Prim(v: Value) | Arr(elems: seq<Json>) | Obj(fields: map<string, Json>)

  /** `Invalid GeoJSON format`, or the TypeError of reading a property of
      null or undefined. */
  datatype Error = InvalidFormat | TypeError

  const Undef := Prim(Undefined)

  predicate IsNullish(j: Json) {
    j == Prim(Null) || j == Undef
  }

  /** `j.name`: a TypeError on null and undefined, the property (or
      undefined) on an object, undefined on anything else. */
  function Member(j: Json, name: string): (r: Result<Json, Error>)
    ensures r.Err? <==> IsNullish(j)
  {
    match j
    case Obj(m) => Ok(if name in m then m[name] else Undef)
    case Arr(_) => Ok(Undef)
    case Prim(v) => if v.Null? || v.Undefined? then Err(TypeError) else Ok(Undef)
  }

  /** A property read whose receiver is known not to be nullish. */
  function Read(j: Json, name: string): Json {
    match Member(j, name)
    case Ok(v) => v
    case Err(_) => Undef
  }

  function JoinComma(parts: seq<string>): string {
    if |parts| == 0 then "" else if |parts| == 1 then parts[0] else parts[0] + "," + JoinComma(parts[1..])
  }

  /** `String(j)`, the property name a value becomes when used as a key:
      arrays join their elements with commas (null and undefined as empty),
      objects read as `[object Object]`. */
  function JsonKey(j: Json): string
    decreases j
  {
    match j
    case Prim(v) => StringOf(v)
    case Obj(_) => "[object Object]"
    case Arr(es) => JoinComma(seq(|es|, i requires 0 <= i < |es| => if IsNullish(es[i]) then "" else JsonKey(es[i])))
  }

  /** `feature.properties.state`, as the key of the feature's group. */
  function StateKey(feature: Json): Result<string, Error> {
    match Member(feature, "properties")
    case Err(e) => Err(e)
    case Ok(props) =>
      match Member(props, "state")
      case Err(e) => Err(e)
      case Ok(state) => Ok(JsonKey(state))
  }

  predicate Readable(feature: Json) {
    StateKey(feature).Ok?
  }

  predicate AllReadable(features: seq<Json>) {
    forall i | 0 <= i < |features| :: Readable(features[i])
  }

  /** The grouping key of a feature whose state can be read. */
  function KeyOf(feature: Json): string {
    match StateKey(feature)
    case Ok(k) => k
    case Err(_) => ""
  }

  /** The six census properties copied to the output. */
  const CopiedProperties: seq<string> := ["STATEFP10", "COUNTYFP10", "NAME10", "NAMELSAD10", "INTPTLAT10", "INTPTLON10"]

  /** The output feature: type `Feature`, the copied properties plus
      `STATE` from `properties.state`, and the geometry as it was. */
  function Project(feature: Json): Json {
    var props := Read(feature, "properties");
    Obj(map[
      "type" := Prim(Str("Feature")),
      "properties" := Obj(ProjectedProperties(props)),
      "geometry" := Read(feature, "geometry")])
  }

  /** The copied census properties, and `STATE` read from `state`. */
  function ProjectedProperties(props: Json): map<string, Json> {
    (map name | name in CopiedProperties :: Read(props, name))["STATE" := Read(props, "state")]
  }

  function FeatureCollection(features: seq<Json>): Json {
    Obj(map["type" := Prim(Str("FeatureCollection")), "features" := Arr(features)])
  }

  /** The output file name of a state: its key in lower case. */
  function FileName(stateKey: string): string {
    ToLower(stateKey) + "_counties.json"
  }

  /** One file to write: the state key, the file name and its content. */
  datatype OutputFile = OutputFile(stateKey: string, name: string, content: Json)

  function ProjectAll(features: seq<Json>): (r: seq<Json>)
    ensures |r| == |features|
    ensures forall i | 0 <= i < |features| :: r[i] == Project(features[i])
  {
    seq(|features|, i requires 0 <= i < |features| => Project(features[i]))
  }

  /** The format check passes: the input has type `FeatureCollection` and an
      array of features. */
  predicate WellFormed(geo: Json) {
    !IsNullish(geo) && Read(geo, "type") == Prim(Str("FeatureCollection")) && Read(geo, "features").Arr?
  }

  /** The files for a list of features: one per state key, in the order the
      keys first occur. */
  function SplitFiles(features: seq<Json>): (files: seq<OutputFile>) {
    var g := GroupBy(features, KeyOf);
    seq(|g.keys|, i requires 0 <= i < |g.keys| =>
      OutputFile(g.keys[i], FileName(g.keys[i]), FeatureCollection(ProjectAll(g.groups[g.keys[i]]))))
  }

  /** The whole script on a parsed input: the files it writes, in order. */
  function SplitByState(geo: Json): (r: Result<seq<OutputFile>, Error>)
    ensures IsNullish(geo) ==> r == Err(TypeError)
    ensures !IsNullish(geo) && !WellFormed(geo) ==> r == Err(InvalidFormat)
  {
    if IsNullish(geo) then Err(TypeError)
    else if !WellFormed(geo) then Err(InvalidFormat)
    else
      var features := Read(geo, "features").elems;
      if !AllReadable(features) then Err(TypeError)
      else Ok(SplitFiles(features))
  }

  // ---------------------------------------------------------------------
  // Properties
  // ---------------------------------------------------------------------

  /** The script succeeds exactly on a well-formed input whose features all
      have readable properties. */
  lemma SplitSucceedsIff(geo: Json)
    ensures SplitByState(geo).Ok? <==> WellFormed(geo) && AllReadable(Read(geo, "features").elems)
    ensures SplitByState(geo).Err? && WellFormed(geo) ==> SplitByState(geo) == Err(TypeError)
  {
  }

  /** One file per distinct state key, in first-occurrence order, named
      after the lower-cased key and holding the group's features projected
      in input order. */
  lemma SplitOutputs(geo: Json)
    requires SplitByState(geo).Ok?
    ensures var features := Read(geo, "features").elems;
            var files := SplitByState(geo).value;
            && |files| == |GroupBy(features, KeyOf).keys|
            && forall i | 0 <= i < |files| ::
                 && files[i].stateKey == GroupBy(features, KeyOf).keys[i]
                 && files[i].name == FileName(files[i].stateKey)
                 && files[i].content == FeatureCollection(ProjectAll(KeyFilter(features, KeyOf, files[i].stateKey)))
  {
    assert SplitByState(geo).value == SplitFiles(Read(geo, "features").elems);
    SplitFilesShape(Read(geo, "features").elems);
  }

  /** The files come in the order in which their state keys first occur
      among the features. */
  lemma FilesInFirstOccurrenceOrder(geo: Json)
    requires SplitByState(geo).Ok?
    ensures var features := Read(geo, "features").elems;
            var files := SplitByState(geo).value;
            && (forall a | 0 <= a < |files| :: FirstIndex(features, KeyOf, files[a].stateKey) < |features|)
            && (forall a, b | 0 <= a < b < |files| ::
                  FirstIndex(features, KeyOf, files[a].stateKey) < FirstIndex(features, KeyOf, files[b].stateKey))
  {
    SplitOutputs(geo);
    KeysInFirstOccurrenceOrder(Read(geo, "features").elems, KeyOf);
  }

  lemma SplitFilesShape(features: seq<Json>)
    ensures var files := SplitFiles(features);
            && |files| == |GroupBy(features, KeyOf).keys|
            && forall i | 0 <= i < |files| ::
                 && files[i].stateKey == GroupBy(features, KeyOf).keys[i]
                 && files[i].name == FileName(files[i].stateKey)
                 && files[i].content == FeatureCollection(ProjectAll(KeyFilter(features, KeyOf, files[i].stateKey)))
  {
    var files := SplitFiles(features);
    forall i | 0 <= i < |files|
      ensures && files[i].stateKey == GroupBy(features, KeyOf).keys[i]
              && files[i].name == FileName(files[i].stateKey)
              && files[i].content == FeatureCollection(ProjectAll(KeyFilter(features, KeyOf, files[i].stateKey)))
    {
      SplitFileAt(features, i);
    }
  }

  /** File i of the files for a list of features, on its own. */
  lemma SplitFileAt(features: seq<Json>, i: nat)
    requires i < |SplitFiles(features)|
    ensures i < |GroupBy(features, KeyOf).keys|
    ensures var k := GroupBy(features, KeyOf).keys[i];
            SplitFiles(features)[i] == OutputFile(k, FileName(k), FeatureCollection(ProjectAll(KeyFilter(features, KeyOf, k))))
  {
  }

  /** File i of a successful run, on its own. */
  lemma SplitFile(geo: Json, i: nat)
    requires SplitByState(geo).Ok? && i < |SplitByState(geo).value|
    ensures i < |GroupBy(Read(geo, "features").elems, KeyOf).keys|
    ensures var k := GroupBy(Read(geo, "features").elems, KeyOf).keys[i];
            SplitByState(geo).value[i] == OutputFile(k, FileName(k), FeatureCollection(ProjectAll(KeyFilter(Read(geo, "features").elems, KeyOf, k))))
  {
    assert SplitByState(geo).value == SplitFiles(Read(geo, "features").elems);
    SplitFileAt(Read(geo, "features").elems, i);
  }

  /** A projected feature has type `Feature`, keeps the geometry, copies the
      six census properties, and carries the state under `STATE`. */
  lemma ProjectedFeature(feature: Json)
    requires Readable(feature)
    ensures Read(Project(feature), "type") == Prim(Str("Feature"))
    ensures Read(Project(feature), "geometry") == Read(feature, "geometry")
    ensures forall name | name in CopiedProperties ::
      Read(Read(Project(feature), "properties"), name) == Read(Read(feature, "properties"), name)
    ensures Read(Read(Project(feature), "properties"), "STATE") == Read(Read(feature, "properties"), "state")
  {
  }

  /** The `STATE` of a projected feature stringifies to the feature's key. */
  lemma ProjectedStateKey(feature: Json)
    requires Readable(feature)
    ensures JsonKey(Read(Read(Project(feature), "properties"), "STATE")) == KeyOf(feature)
  {
    ProjectedFeature(feature);
  }

  /** Every member of the group of key k has key k. */
  lemma GroupMemberKey(features: seq<Json>, k: string, j: nat)
    requires AllReadable(features) && j < |KeyFilter(features, KeyOf, k)|
    ensures Readable(KeyFilter(features, KeyOf, k)[j])
    ensures KeyOf(KeyFilter(features, KeyOf, k)[j]) == k
  {
    var group := KeyFilter(features, KeyOf, k);
    assert group[j] in group;
    var m :| 0 <= m < |features| && features[m] == group[j];
  }

  /** Each feature of each file carries, under `STATE`, a value that
      stringifies to that file's state key. */
  lemma OutputFeaturesBelongToTheirState(geo: Json, i: nat, j: nat)
    requires SplitByState(geo).Ok? && i < |SplitByState(geo).value|
    requires j < |Read(SplitByState(geo).value[i].content, "features").elems|
    ensures JsonKey(Read(Read(Read(SplitByState(geo).value[i].content, "features").elems[j], "properties"), "STATE"))
            == SplitByState(geo).value[i].stateKey
  {
    var features := Read(geo, "features").elems;
    SplitFile(geo, i);
    var k := SplitByState(geo).value[i].stateKey;
    var group := KeyFilter(features, KeyOf, k);
    assert Read(SplitByState(geo).value[i].content, "features").elems == ProjectAll(group);
    GroupMemberKey(features, k, j);
    ProjectedStateKey(group[j]);
  }

  /** Number of features over the files. */
  function FeatureTotal(files: seq<OutputFile>): nat {
    if |files| == 0 then 0
    else
      var c := files[|files| - 1].content;
      FeatureTotal(files[..|files| - 1]) + (if Read(c, "features").Arr? then |Read(c, "features").elems| else 0)
  }

  lemma {:induction false} FeatureTotalIsSizeSum(files: seq<OutputFile>, ks: seq<string>, m: map<string, seq<Json>>)
    requires |files| == |ks|
    requires forall i | 0 <= i < |ks| :: ks[i] in m && files[i].content == FeatureCollection(ProjectAll(m[ks[i]]))
    ensures FeatureTotal(files) == SizeSum(ks, m)
    decreases |ks|
  {
    if |ks| > 0 {
      FeatureTotalIsSizeSum(files[..|ks| - 1], ks[..|ks| - 1], m);
    }
  }

  /** Every input feature goes into exactly one file: the files hold as many
      features as the input. */
  lemma EveryFeatureWrittenOnce(geo: Json)
    requires SplitByState(geo).Ok?
    ensures FeatureTotal(SplitByState(geo).value) == |Read(geo, "features").elems|
  {
    var features := Read(geo, "features").elems;
    var g := GroupBy(features, KeyOf);
    assert SplitByState(geo).value == SplitFiles(features);
    SplitFilesShape(features);
    FeatureTotalIsSizeSum(SplitFiles(features), g.keys, g.groups);
    GroupSizesAddUp(features, KeyOf);
  }

  // ---------------------------------------------------------------------
  // The files on disk
  // ---------------------------------------------------------------------

  /** Writing the files in order: a later file of the same name replaces an
      earlier one. */
  function Disk(files: seq<OutputFile>): (d: map<string, Json>)
    ensures d.Keys == set i | 0 <= i < |files| :: files[i].name
  {
    if |files| == 0 then map[]
    else
      var d := Disk(files[..|files| - 1]);
      assert forall i | 0 <= i < |files| - 1 :: files[..|files| - 1][i] == files[i];
      d[files[|files| - 1].name := files[|files| - 1].content]
  }

  /** The file on disk under a name is the last one written under it. */
  lemma {:induction false} DiskHoldsLastWrite(files: seq<OutputFile>, i: nat)
    requires i < |files|
    requires forall j | i < j < |files| :: files[j].name != files[i].name
    ensures files[i].name in Disk(files) && Disk(files)[files[i].name] == files[i].content
    decreases |files|
  {
    if i < |files| - 1 {
      DiskHoldsLastWrite(files[..|files| - 1], i);
    }
  }

  /** A feature whose `properties.state` is the string `state`. */
  function FeatureOfState(state: string): Json {
    Obj(map["properties" := Obj(map["state" := Prim(Str(state))])])
  }

  lemma LowerCaseNames()
    ensures FileName("MO") == "mo_counties.json" && FileName("mo") == "mo_counties.json"
  {
    assert ToLower("MO") == "mo" by {
      assert LowerChar('M') == 'm' && LowerChar('O') == 'o';
    }
    assert ToLower("mo") == "mo";
  }

  lemma DiskOfTwoWrites(a: OutputFile, b: OutputFile)
    requires a.name == b.name
    ensures Disk([a, b]) == map[b.name := b.content]
  {
    assert [a, b][..1] == [a];
    assert [a][..0] == [];
  }

  /** The files for a list of features with exactly two state keys. */
  lemma SplitFilesOfTwoKeys(features: seq<Json>, k1: string, k2: string)
    requires GroupBy(features, KeyOf).keys == [k1, k2]
    ensures |SplitFiles(features)| == 2
    ensures SplitFiles(features)[0] == OutputFile(k1, FileName(k1), FeatureCollection(ProjectAll(KeyFilter(features, KeyOf, k1))))
    ensures SplitFiles(features)[1] == OutputFile(k2, FileName(k2), FeatureCollection(ProjectAll(KeyFilter(features, KeyOf, k2))))
  {
    SplitFileAt(features, 0);
    SplitFileAt(features, 1);
  }

  /** The files for two features whose state keys differ: one file each,
      in input order. */
  lemma TwoFiles(f1: Json, f2: Json)
    requires KeyOf(f1) != KeyOf(f2)
    ensures SplitFiles([f1, f2]) == [
              OutputFile(KeyOf(f1), FileName(KeyOf(f1)), FeatureCollection(ProjectAll([f1]))),
              OutputFile(KeyOf(f2), FileName(KeyOf(f2)), FeatureCollection(ProjectAll([f2])))]
  {
    GroupTwo(f1, f2, KeyOf);
    SplitFilesOfTwoKeys([f1, f2], KeyOf(f1), KeyOf(f2));
    KeyFilterTwo(f1, f2, KeyOf);
  }

  /** The files written for a collection of two features whose state keys
      differ: one file each, in input order. */
  lemma TwoStatesTwoFiles(f1: Json, f2: Json)
    requires Readable(f1) && Readable(f2) && KeyOf(f1) != KeyOf(f2)
    ensures SplitByState(FeatureCollection([f1, f2])) == Ok([
              OutputFile(KeyOf(f1), FileName(KeyOf(f1)), FeatureCollection(ProjectAll([f1]))),
              OutputFile(KeyOf(f2), FileName(KeyOf(f2)), FeatureCollection(ProjectAll([f2])))])
  {
    var geo := FeatureCollection([f1, f2]);
    assert WellFormed(geo);
    assert Read(geo, "features").elems == [f1, f2];
    assert AllReadable([f1, f2]);
    assert SplitByState(geo) == Ok(SplitFiles([f1, f2]));
    TwoFiles(f1, f2);
  }

  /** Two states whose keys differ only in letter case share a file name,
      so the second one's file replaces the first one's. */
  lemma CaseVariantsShareAFile()
    ensures var geo := FeatureCollection([FeatureOfState("MO"), FeatureOfState("mo")]);
            && SplitByState(geo).Ok?
            && |SplitByState(geo).value| == 2
            && SplitByState(geo).value[0].name == SplitByState(geo).value[1].name == "mo_counties.json"
            && Disk(SplitByState(geo).value) == map["mo_counties.json" := SplitByState(geo).value[1].content]
  {
    var f1 := FeatureOfState("MO");
    var f2 := FeatureOfState("mo");
    assert KeyOf(f1) == "MO" && KeyOf(f2) == "mo";
    TwoStatesTwoFiles(f1, f2);
    LowerCaseNames();
    var files := SplitByState(FeatureCollection([f1, f2])).value;
    DiskOfTwoWrites(files[0], files[1]);
    assert files == [files[0], files[1]];
  }
}
