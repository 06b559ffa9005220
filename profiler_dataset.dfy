/**
 * The bookkeeping of `process_dataset` and `process_column` in the profiler: the keyword-argument
 * check, the reconciliation of provided column metadata with the CSV header, the merge of
 * semantic types, the tally of dataset types, the bounding box of administrative areas and the
 * attribute keywords. Type detection, data loading and numeric statistics are parameters here.
 */
module ProfilerDataset {
  import opened Wrappers
  import opened Json
  import opened Seqs
  import opened ProfilerText

  // ---------------------------------------------------------------------------
  // Keyword arguments

  /** Keyword arguments, in the order of the call. */
  type Kwargs = seq<(string, Value)>

  function UnexpectedKeyword(key: string): string
  {
    "process_dataset() got unexpected keyword argument '" + key + "'"
  }

  /** The index of the first keyword other than the deprecated `sample_size`, looking from `from`. */
  function FirstOther(kw: Kwargs, from: nat): (r: Option<nat>)
    requires from <= |kw|
    ensures r.Some? ==> (from <= r.value < |kw| && kw[r.value].0 != "sample_size"
      && forall j :: from <= j < r.value ==> kw[j].0 == "sample_size")
    ensures r.None? ==> forall j :: from <= j < |kw| ==> kw[j].0 == "sample_size"
    decreases |kw| - from
  {
    if from == |kw| then None
    else if kw[from].0 != "sample_size" then Some(from)
    else FirstOther(kw, from + 1)
  }

  /**
   * The keyword-argument check: `sample_size` replaces `load_max_size`, and any other keyword
   * is a `TypeError` naming the first one.
   */
  function CheckKwargs(kw: Kwargs, loadMaxSize: Value): (r: Result<Value>)
    ensures r.Err? <==> exists i :: 0 <= i < |kw| && kw[i].0 != "sample_size"
    ensures r.Err? ==> exists i :: (0 <= i < |kw| && r.msg == UnexpectedKeyword(kw[i].0)
      && kw[i].0 != "sample_size" && forall j :: 0 <= j < i ==> kw[j].0 == "sample_size")
    ensures r.Ok? && kw == [] ==> r.value == loadMaxSize
    ensures r.Ok? && kw != [] ==> kw[0] == ("sample_size", r.value)
  {
    match FirstOther(kw, 0)
    case Some(i) => Err(UnexpectedKeyword(kw[i].0))
    case None =>
      if kw == [] then Ok(loadMaxSize)
      else Ok(kw[0].1)
  }

  // ---------------------------------------------------------------------------
  // Column metadata

  const CountMismatch: string := "Column metadata doesn't match number of columns"
  const NameMismatch: string := "Column names don't match"

  /** A provided column either has no `name` or has the header's name. */
  predicate NameAgrees(column: Dict, name: string)
  {
    "name" in column ==> column["name"] == Str(name)
  }

  /** The first position whose provided column disagrees with the header, if any. */
  function FirstDisagreement(provided: seq<Dict>, header: seq<string>): (r: Option<nat>)
    requires |provided| == |header|
    ensures r.Some? ==> r.value < |header| && !NameAgrees(provided[r.value], header[r.value])
    ensures r.Some? ==> forall k :: 0 <= k < r.value ==> NameAgrees(provided[k], header[k])
    ensures r.None? <==> forall k :: 0 <= k < |header| ==> NameAgrees(provided[k], header[k])
  {
    if provided == [] then None
    else if !NameAgrees(provided[0], header[0]) then Some(0)
    else
      match FirstDisagreement(provided[1..], header[1..])
      case Some(k) => Some(k + 1)
      case None => None
  }

  /**
   * Reconcile `metadata['columns']` (when provided) with the names read from the header: the
   * count and every provided name must agree, and every column then carries its header name.
   * Without provided columns, one `{'name': name}` per header name is made. `columns` is the list
   * the caller's metadata holds afterwards: the provided dicts are renamed in place, so when a
   * later name does not match, the columns before it have already been renamed.
   */
  method ReconcileColumns(provided: Option<seq<Dict>>, header: seq<string>)
    returns (columns: seq<Dict>, error: Option<string>)
    ensures provided.None? ==> (error.None? && |columns| == |header|
      && forall i :: 0 <= i < |header| ==> columns[i] == map["name" := Str(header[i])])
    ensures provided.Some? && |provided.value| != |header| ==>
      error == Some(CountMismatch) && columns == provided.value
    ensures provided.Some? && |provided.value| == |header| ==>
      var stop := FirstDisagreement(provided.value, header);
      var done := if stop.Some? then stop.value else |header|;
      && error == (if stop.Some? then Some(NameMismatch) else None)
      && |columns| == |header|
      && (forall i :: 0 <= i < done ==> columns[i] == provided.value[i]["name" := Str(header[i])])
      && (forall i :: done <= i < |header| ==> columns[i] == provided.value[i])
  {
    if provided.None? {
      return seq(|header|, i requires 0 <= i < |header| => map["name" := Str(header[i])]), None;
    }
    columns := provided.value;
    if |columns| != |header| {
      return columns, Some(CountMismatch);
    }
    var i := 0;
    while i < |columns|
      invariant 0 <= i <= |columns|
      invariant |columns| == |header|
      invariant forall k :: 0 <= k < i ==> NameAgrees(provided.value[k], header[k])
      invariant forall k :: 0 <= k < i ==> columns[k] == provided.value[k]["name" := Str(header[k])]
      invariant forall k :: i <= k < |columns| ==> columns[k] == provided.value[k]
    {
      if "name" in columns[i] && columns[i]["name"] != Str(header[i]) {
        return columns, Some(NameMismatch);
      }
      columns := columns[i := columns[i]["name" := Str(header[i])]];
      i := i + 1;
    }
    return columns, None;
  }

  // ---------------------------------------------------------------------------
  // Semantic types of a column

  /** `column_meta.setdefault('semantic_types', [])` followed by the appending loop. */
  method MergeSemanticTypes(existing: seq<string>, found: seq<string>) returns (semTypes: seq<string>)
    ensures semTypes == AppendAbsent(existing, found)
  {
    semTypes := existing;
    for i := 0 to |found|
      invariant semTypes == AppendAbsent(existing, found[..i])
    {
      assert found[..i + 1][..i] == found[..i];
      if found[i] !in semTypes {
        semTypes := semTypes + [found[i]];
      }
    }
    assert found[..|found|] == found;
  }

  // ---------------------------------------------------------------------------
  // Dataset types

  /** `types.DATASET_*`; declared in the alphabetical order of their names. */
  datatype DatasetType = Categorical | Numerical | Spatial | Temporal

  function TypeName(t: DatasetType): (r: string)
    ensures r != []
  {
    match t
    case Categorical => "categorical"
    case Numerical => "numerical"
    case Spatial => "spatial"
    case Temporal => "temporal"
  }

  function Rank(t: DatasetType): nat
  {
    match t
    case Categorical => 0
    case Numerical => 1
    case Spatial => 2
    case Temporal => 3
  }

  /** The declaration order is the order of the names. */
  lemma RankFollowsNames(a: DatasetType, b: DatasetType)
    requires Rank(a) < Rank(b)
    ensures TypeName(a)[0] < TypeName(b)[0]
  {
  }

  /** How many columns have dataset type `t`. */
  function CountType(kinds: seq<Option<DatasetType>>, t: DatasetType): nat
  {
    if kinds == [] then 0
    else CountType(kinds[..|kinds| - 1], t) + (if kinds[|kinds| - 1] == Some(t) then 1 else 0)
  }

  /**
   * The `collections.Counter` loop over the columns; `kinds[i]` is what `determine_dataset_type`
   * returned for column `i`. A type is a key exactly when some column has it.
   */
  method TallyDatasetTypes(kinds: seq<Option<DatasetType>>) returns (counts: map<DatasetType, nat>)
    ensures forall t :: t in counts <==> CountType(kinds, t) > 0
    ensures forall t :: t in counts ==> counts[t] == CountType(kinds, t)
  {
    counts := map[];
    for i := 0 to |kinds|
      invariant forall t :: t in counts <==> CountType(kinds[..i], t) > 0
      invariant forall t :: t in counts ==> counts[t] == CountType(kinds[..i], t)
    {
      assert kinds[..i + 1][..i] == kinds[..i];
      if kinds[i].Some? {
        var t := kinds[i].value;
        counts := counts[t := (if t in counts then counts[t] else 0) + 1];
      }
    }
    assert kinds[..|kinds|] == kinds;
  }

  /** The metadata key that carries the count of a type. */
  function CountKey(t: DatasetType): string
  {
    match t
    case Categorical => "nb_categorical_columns"
    case Numerical => "nb_numerical_columns"
    case Spatial => "nb_spatial_columns"
    case Temporal => "nb_temporal_columns"
  }

  /** The four keys differ in their fourth character. */
  lemma CountKeysDistinct(t: DatasetType, u: DatasetType)
    ensures CountKey(t) == CountKey(u) <==> t == u
  {
    assert CountKey(t)[3] == TypeName(t)[0] && CountKey(u)[3] == TypeName(u)[0];
  }

  predicate IsCountKey(k: string)
  {
    k == CountKey(Spatial) || k == CountKey(Temporal) || k == CountKey(Categorical) || k == CountKey(Numerical)
  }

  /** The order in which the keys are written. */
  const TypeKeyOrder: seq<DatasetType> := [Spatial, Temporal, Categorical, Numerical]

  /** The type of each rank. */
  function OfRank(k: nat): (t: DatasetType)
    requires k < 4
    ensures Rank(t) == k
  {
    if k == 0 then Categorical else if k == 1 then Numerical else if k == 2 then Spatial else Temporal
  }

  /** The types present of rank `k` or more, by rank. */
  function PresentFrom(counts: map<DatasetType, nat>, k: nat): (r: seq<DatasetType>)
    requires k <= 4
    ensures forall i :: 0 <= i < |r| ==> Rank(r[i]) >= k
    ensures forall i, j :: 0 <= i < j < |r| ==> Rank(r[i]) < Rank(r[j])
    ensures forall t :: t in r <==> t in counts && Rank(t) >= k
    decreases 4 - k
  {
    if k == 4 then []
    else
      var rest := PresentFrom(counts, k + 1);
      if OfRank(k) in counts then [OfRank(k)] + rest else rest
  }

  /** `sorted(set(dataset_types))`: the names of the types present, sorted. */
  function SortedTypes(counts: map<DatasetType, nat>): seq<string>
  {
    var present := PresentFrom(counts, 0);
    seq(|present|, i requires 0 <= i < |present| => TypeName(present[i]))
  }

  /** No two types share a name. */
  lemma TypeNameInjective(a: DatasetType, b: DatasetType)
    ensures TypeName(a) == TypeName(b) <==> a == b
  {
    assert TypeName(a)[0] == TypeName(b)[0] ==> a == b;
  }

  /** A type's name is listed exactly when the type occurs. */
  lemma SortedTypesMembers(counts: map<DatasetType, nat>, t: DatasetType)
    ensures TypeName(t) in SortedTypes(counts) <==> t in counts
  {
    if t in counts {
      PresentIsListed(counts, t);
    }
    if TypeName(t) in SortedTypes(counts) {
      ListedIsPresent(counts, t);
    }
  }

  lemma PresentIsListed(counts: map<DatasetType, nat>, t: DatasetType)
    requires t in counts
    ensures TypeName(t) in SortedTypes(counts)
  {
    var present := PresentFrom(counts, 0);
    var i :| 0 <= i < |present| && present[i] == t;
    assert SortedTypes(counts)[i] == TypeName(t);
  }

  lemma ListedIsPresent(counts: map<DatasetType, nat>, t: DatasetType)
    requires TypeName(t) in SortedTypes(counts)
    ensures t in counts
  {
    var present := PresentFrom(counts, 0);
    var r := SortedTypes(counts);
    var i :| 0 <= i < |r| && r[i] == TypeName(t);
    TypeNameInjective(present[i], t);
    assert present[i] in present;
  }

  /** `sorted(set(dataset_types))` is sorted and holds no duplicate. */
  lemma SortedTypesOrdered(counts: map<DatasetType, nat>)
    ensures var r := SortedTypes(counts);
      && (forall i :: 0 <= i < |r| ==> r[i] != [])
      && (forall i, j :: 0 <= i < j < |r| ==> r[i][0] < r[j][0])
  {
    var present := PresentFrom(counts, 0);
    var r := SortedTypes(counts);
    forall i | 0 <= i < |r|
      ensures r[i] != []
    {
      assert r[i] == TypeName(present[i]);
    }
    forall i, j | 0 <= i < j < |r|
      ensures r[i][0] < r[j][0]
    {
      RankFollowsNames(present[i], present[j]);
    }
  }

  function TypesValue(counts: map<DatasetType, nat>): Value
  {
    var names := SortedTypes(counts);
    Arr(seq(|names|, i requires 0 <= i < |names| => Str(names[i])))
  }

  /** The position of a type in `TypeKeyOrder`. */
  function KeyPosition(t: DatasetType): (j: nat)
    ensures j < |TypeKeyOrder| && TypeKeyOrder[j] == t
  {
    match t
    case Spatial => 0
    case Temporal => 1
    case Categorical => 2
    case Numerical => 3
  }

  /** The metadata after the first `i` rounds of the loop over the count keys. */
  function CountsUpTo(metadata: Dict, counts: map<DatasetType, nat>, i: nat): Dict
    requires i <= |TypeKeyOrder|
  {
    if i == 0 then metadata
    else
      var m := CountsUpTo(metadata, counts, i - 1);
      var t := TypeKeyOrder[i - 1];
      if t in counts then m[CountKey(t) := Int(counts[t])] else m
  }

  /** The loop over the count keys: each `nb_*_columns` key is set only for a type that occurs. */
  method SetCountKeys(metadata: Dict, counts: map<DatasetType, nat>) returns (m: Dict)
    ensures forall t :: t in counts ==> CountKey(t) in m && m[CountKey(t)] == Int(counts[t])
    ensures forall t :: t !in counts ==> (CountKey(t) in m <==> CountKey(t) in metadata)
    ensures forall t :: t !in counts && CountKey(t) in metadata ==> m[CountKey(t)] == metadata[CountKey(t)]
    ensures forall k :: !IsCountKey(k) ==> (k in m <==> k in metadata)
    ensures forall k :: k in metadata && !IsCountKey(k) ==> m[k] == metadata[k]
  {
    m := metadata;
    for i := 0 to |TypeKeyOrder|
      invariant m == CountsUpTo(metadata, counts, i)
    {
      var t := TypeKeyOrder[i];
      if t in counts {
        m := m[CountKey(t) := Int(counts[t])];
      }
    }
    CountKeysUpTo(metadata, counts, |TypeKeyOrder|);
    OtherKeysUpTo(metadata, counts, |TypeKeyOrder|);
  }

  /** After `i` rounds, the count keys of the first `i` types are set and the others untouched. */
  lemma {:induction false} CountKeysUpTo(metadata: Dict, counts: map<DatasetType, nat>, i: nat)
    requires i <= |TypeKeyOrder|
    ensures var m := CountsUpTo(metadata, counts, i);
      && (forall t :: t in counts && KeyPosition(t) < i ==> CountKey(t) in m && m[CountKey(t)] == Int(counts[t]))
      && (forall t :: !(t in counts && KeyPosition(t) < i) ==> (CountKey(t) in m <==> CountKey(t) in metadata))
      && (forall t :: !(t in counts && KeyPosition(t) < i) && CountKey(t) in metadata ==> m[CountKey(t)] == metadata[CountKey(t)])
  {
    if i > 0 {
      CountKeysUpTo(metadata, counts, i - 1);
      var t := TypeKeyOrder[i - 1];
      assert KeyPosition(t) == i - 1;
      forall u
        ensures CountKey(u) == CountKey(t) <==> u == t
      {
        CountKeysDistinct(u, t);
      }
    }
  }

  /** Every key that is not a count key keeps its presence and its value. */
  lemma {:induction false} OtherKeysUpTo(metadata: Dict, counts: map<DatasetType, nat>, i: nat)
    requires i <= |TypeKeyOrder|
    ensures var m := CountsUpTo(metadata, counts, i);
      && (forall k :: !IsCountKey(k) ==> (k in m <==> k in metadata))
      && (forall k :: k in metadata && !IsCountKey(k) ==> m[k] == metadata[k])
  {
    if i > 0 {
      OtherKeysUpTo(metadata, counts, i - 1);
      assert IsCountKey(CountKey(TypeKeyOrder[i - 1]));
    }
  }

  /** `types` is not one of the count keys. */
  lemma TypesIsNoCountKey()
    ensures forall t :: CountKey(t) != "types"
  {
    forall t
      ensures CountKey(t) != "types"
    {
      assert |CountKey(t)| > |"types"|;
    }
  }

  /**
   * Record the tally in `metadata`: the count keys as above, then `types` lists the types present;
   * every other key is left alone.
   */
  method RecordDatasetTypes(metadata: Dict, counts: map<DatasetType, nat>) returns (m: Dict)
    ensures forall t :: t in counts ==> CountKey(t) in m && m[CountKey(t)] == Int(counts[t])
    ensures forall t :: t !in counts ==> (CountKey(t) in m <==> CountKey(t) in metadata)
    ensures forall t :: t !in counts && CountKey(t) in metadata ==> m[CountKey(t)] == metadata[CountKey(t)]
    ensures "types" in m && m["types"] == TypesValue(counts)
    ensures forall k :: k != "types" && !IsCountKey(k) ==> (k in m <==> k in metadata)
    ensures forall k :: k in metadata && k != "types" && !IsCountKey(k) ==> m[k] == metadata[k]
  {
    m := SetCountKeys(metadata, counts);
    TypesIsNoCountKey();
    m := m["types" := TypesValue(counts)];
  }

  // ---------------------------------------------------------------------------
  // Bounding box of administrative areas

  /** `area.bounds`: minimum and maximum longitude, minimum and maximum latitude. */
  datatype Box = Box(minLon: real, maxLon: real, minLat: real, maxLat: real)

  /** A resolved area (or `None`); an area whose bounds are empty or `None` has `bounds == None`. */
  datatype Area = Area(bounds: Option<Box>)

  function MergeBoxes(a: Box, b: Box): Box
  {
    Box(if a.minLon <= b.minLon then a.minLon else b.minLon,
        if a.maxLon >= b.maxLon then a.maxLon else b.maxLon,
        if a.minLat <= b.minLat then a.minLat else b.minLat,
        if a.maxLat >= b.maxLat then a.maxLat else b.maxLat)
  }

  predicate Inside(b: Box, outer: Box)
  {
    outer.minLon <= b.minLon && b.maxLon <= outer.maxLon && outer.minLat <= b.minLat && b.maxLat <= outer.maxLat
  }

  predicate HasBounds(a: Option<Area>)
  {
    a.Some? && a.value.bounds.Some?
  }

  /**
   * The fold over the areas resolved for a column. The result is `None` exactly when no area has
   * bounds; otherwise every box lies inside it and each of its four sides is the side of a box.
   */
  method MergeAdminBounds(areas: seq<Option<Area>>) returns (merged: Option<Box>)
    ensures merged.None? <==> forall k :: 0 <= k < |areas| ==> !HasBounds(areas[k])
    ensures merged.Some? ==> forall k :: 0 <= k < |areas| && HasBounds(areas[k]) ==> Inside(areas[k].value.bounds.value, merged.value)
    ensures merged.Some? ==> exists k :: 0 <= k < |areas| && HasBounds(areas[k]) && areas[k].value.bounds.value.minLon == merged.value.minLon
    ensures merged.Some? ==> exists k :: 0 <= k < |areas| && HasBounds(areas[k]) && areas[k].value.bounds.value.maxLon == merged.value.maxLon
    ensures merged.Some? ==> exists k :: 0 <= k < |areas| && HasBounds(areas[k]) && areas[k].value.bounds.value.minLat == merged.value.minLat
    ensures merged.Some? ==> exists k :: 0 <= k < |areas| && HasBounds(areas[k]) && areas[k].value.bounds.value.maxLat == merged.value.maxLat
  {
    merged := None;
    for i := 0 to |areas|
      invariant merged.None? <==> forall k :: 0 <= k < i ==> !HasBounds(areas[k])
      invariant merged.Some? ==> forall k :: 0 <= k < i && HasBounds(areas[k]) ==> Inside(areas[k].value.bounds.value, merged.value)
      invariant merged.Some? ==> exists k :: 0 <= k < i && HasBounds(areas[k]) && areas[k].value.bounds.value.minLon == merged.value.minLon
      invariant merged.Some? ==> exists k :: 0 <= k < i && HasBounds(areas[k]) && areas[k].value.bounds.value.maxLon == merged.value.maxLon
      invariant merged.Some? ==> exists k :: 0 <= k < i && HasBounds(areas[k]) && areas[k].value.bounds.value.minLat == merged.value.minLat
      invariant merged.Some? ==> exists k :: 0 <= k < i && HasBounds(areas[k]) && areas[k].value.bounds.value.maxLat == merged.value.maxLat
    {
      if areas[i].None? {
        continue;
      }
      var b := areas[i].value.bounds;
      if b.Some? {
        if merged.None? {
          merged := b;
        } else {
          merged := Some(MergeBoxes(merged.value, b.value));
        }
      }
    }
  }

  /** The `envelope` range recorded for an admin column: `[[min_lon, max_lat], [max_lon, min_lat]]`. */
  datatype Envelope = Envelope(topLeft: (real, real), bottomRight: (real, real))

  /**
   * The coverage entry is built only for a box wider and taller than 0.01 degrees; its corners
   * are the north-west and south-east corners of the box.
   */
  function AdminEnvelope(merged: Option<Box>): (r: Option<Envelope>)
    ensures r.Some? <==> merged.Some? && merged.value.maxLon - merged.value.minLon > 0.01 && merged.value.maxLat - merged.value.minLat > 0.01
    ensures r.Some? ==> (r.value.topLeft == (merged.value.minLon, merged.value.maxLat)
      && r.value.bottomRight == (merged.value.maxLon, merged.value.minLat))
  {
    match merged
    case None => None
    case Some(m) =>
      if m.maxLon - m.minLon > 0.01 && m.maxLat - m.minLat > 0.01 then
        Some(Envelope((m.minLon, m.maxLat), (m.maxLon, m.minLat)))
      else None
  }

  // ---------------------------------------------------------------------------
  // Attribute keywords

  /** The keywords one column contributes: its name, then its pieces if they differ from `[name]`. */
  function ColumnKeywords(name: string): (r: seq<string>)
    ensures |r| >= 1 && r[0] == name
  {
    var kw := Split(Spaced(name));
    if kw != [name] then [name] + kw else [name]
  }

  /** The keywords of all columns, in column order. */
  function Keywords(names: seq<string>): seq<string>
  {
    if names == [] then [] else Keywords(names[..|names| - 1]) + ColumnKeywords(names[|names| - 1])
  }

  method AttributeKeywords(names: seq<string>) returns (keywords: seq<string>)
    ensures keywords == Keywords(names)
  {
    keywords := [];
    for i := 0 to |names|
      invariant keywords == Keywords(names[..i])
    {
      assert names[..i + 1][..i] == names[..i];
      ghost var before := keywords;
      keywords := keywords + [names[i]];
      var kw := ExpandAttributeName(names[i]);
      if kw != [names[i]] {
        keywords := keywords + kw;
        assert keywords == before + ([names[i]] + kw);
      }
      assert keywords == before + ColumnKeywords(names[i]);
    }
    assert names[..|names|] == names;
  }

  /** A column adds only its own name exactly when the name has no delimiter and no break. */
  lemma ColumnKeywordsSingle(name: string)
    ensures ColumnKeywords(name) == [name] <==>
      (forall k :: 0 <= k < |name| ==> !IsDelimiter(name[k])) && (forall k :: 0 <= k < |name| - 1 ==> !Breaks(name[k], name[k + 1]))
  {
    if forall k :: 0 <= k < |name| ==> !IsDelimiter(name[k]) {
      assert Spaced(name) == name;
      SplitSingle(name);
    } else {
      var k :| 0 <= k < |name| && IsDelimiter(name[k]);
      SplitSingleClean(Spaced(name), name);
    }
  }

  /** Every column name appears among the keywords, in column order. */
  lemma {:induction false} KeywordsListNames(names: seq<string>)
    ensures |Keywords(names)| >= |names|
    ensures forall i :: 0 <= i < |names| ==> names[i] in Keywords(names)
  {
    if names != [] {
      var p := names[..|names| - 1];
      KeywordsListNames(p);
      var before := Keywords(p);
      var added := ColumnKeywords(names[|names| - 1]);
      assert Keywords(names) == before + added;
      assert names == p + [added[0]];
      ListedInConcat(p, added[0], before, added);
    }
  }

  lemma ListedInConcat(p: seq<string>, last: string, before: seq<string>, added: seq<string>)
    requires added != [] && added[0] == last
    requires forall i :: 0 <= i < |p| ==> p[i] in before
    ensures forall i :: 0 <= i < |p| + 1 ==> (p + [last])[i] in before + added
  {
    assert added[0] in before + added;
  }
}
