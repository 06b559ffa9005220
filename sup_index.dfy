/**
 * `add_dataset_to_sup_index`: the documents a profiled dataset contributes to the supplementary
 * indices `datamart_columns`, `datamart_spatial_coverage` and `datamart_temporal_coverage`.
 * The Elasticsearch client is an append-only log of `(index name, document)` pairs; a Python
 * exception is an error string that stops the run, and the documents indexed before it stay.
 */
module SupIndex {
  import opened Wrappers
  import opened Json

  const KeyError: string := "KeyError"
  const TypeError: string := "TypeError"
  const IndexError: string := "IndexError"

  const ColumnsIndex: string := "datamart_columns"
  const SpatialIndex: string := "datamart_spatial_coverage"
  const TemporalIndex: string := "datamart_temporal_coverage"

  // ---------------------------------------------------------------------------
  // Python subscripts on JSON values

  /** `v[key]` with a string key. */
  function Lookup(v: Value, key: string): (r: Result<Value>)
    ensures r.Ok? <==> v.Obj? && key in v.fields
    ensures r.Ok? ==> r.value == v.fields[key]
  {
    if !v.Obj? then Err(TypeError)
    else if key in v.fields then Ok(v.fields[key])
    else Err(KeyError)
  }

  /** `v[i]` with a non-negative integer index; a dict with string keys never has it. */
  function At(v: Value, i: nat): (r: Result<Value>)
    ensures v.Arr? ==> (r.Ok? <==> i < |v.items|)
    ensures v.Arr? && r.Ok? ==> r.value == v.items[i]
    ensures !v.Arr? && !v.Str? ==> r.Err?
  {
    match v
    case Arr(items) => if i < |items| then Ok(items[i]) else Err(IndexError)
    case Str(s) => if i < |s| then Ok(Str([s[i]])) else Err(IndexError)
    case Obj(_) => Err(KeyError)
    case _ => Err(TypeError)
  }

  function Lookup2(v: Value, k1: string, k2: string): Result<Value>
  {
    match Lookup(v, k1)
    case Err(m) => Err(m)
    case Ok(w) => Lookup(w, k2)
  }

  function At2(v: Value, i: nat, j: nat): Result<Value>
  {
    match At(v, i)
    case Err(m) => Err(m)
    case Ok(w) => At(w, j)
  }

  // ---------------------------------------------------------------------------
  // The fields shared by every document

  /** The dataset fields that are not copied into the supplementary documents. */
  predicate Discarded(key: string)
  {
    || key == "columns" || key == "sample" || key == "materialize"
    || key == "spatial_coverage" || key == "temporal_coverage" || key == "manual_annotations"
  }

  function Prefixed(key: string): (r: string)
    ensures |r| == |key| + 8 && r[..8] == "dataset_" && r[8..] == key
  {
    "dataset_" + key
  }

  lemma PrefixedInjective()
    ensures forall a, b {:trigger Prefixed(a), Prefixed(b)} :: Prefixed(a) == Prefixed(b) ==> a == b
  {
    forall a, b | Prefixed(a) == Prefixed(b)
      ensures a == b
    {
      assert a == Prefixed(a)[8..];
    }
  }

  /**
   * `common_dataset_metadata`: `dataset_id`, then every kept dataset field under `dataset_<key>`;
   * a dataset field named `id` lands on `dataset_id` and wins over the identifier.
   */
  function CommonMetadata(datasetId: string, metadata: Dict): Dict
  {
    PrefixedInjective();
    map["dataset_id" := Str(datasetId)]
      + map k | k in metadata && !Discarded(k) :: Prefixed(k) := metadata[k]
  }

  lemma CommonMetadataKeys(datasetId: string, metadata: Dict)
    ensures forall k :: k in metadata && !Discarded(k) ==>
      Prefixed(k) in CommonMetadata(datasetId, metadata)
      && CommonMetadata(datasetId, metadata)[Prefixed(k)] == metadata[k]
    ensures "dataset_id" in CommonMetadata(datasetId, metadata)
    ensures "id" !in metadata ==> CommonMetadata(datasetId, metadata)["dataset_id"] == Str(datasetId)
    ensures forall key :: key in CommonMetadata(datasetId, metadata) ==>
      key == "dataset_id" || exists k :: k in metadata && !Discarded(k) && key == Prefixed(k)
  {
    PrefixedInjective();
    var c := CommonMetadata(datasetId, metadata);
    if "id" !in metadata {
      forall k | k in metadata && !Discarded(k)
        ensures Prefixed(k) != "dataset_id"
      {
        assert Prefixed(k)[8..] == k != "id" == "dataset_id"[8..];
      }
    }
  }

  // ---------------------------------------------------------------------------
  // The documents

  /** `dict(r, gte=r['range']['gte'], lte=r['range']['lte'])`: a numeric or temporal range. */
  function WithBounds(r: Value): Result<Value>
  {
    match Lookup2(r, "range", "gte")
    case Err(m) => Err(m)
    case Ok(gte) =>
      match Lookup2(r, "range", "lte")
      case Err(m) => Err(m)
      case Ok(lte) => Ok(Obj(r.fields["gte" := gte]["lte" := lte]))
  }

  /**
   * A spatial range, whose `coordinates` are the GeoJSON envelope `[[min_lon, max_lat],
   * [max_lon, min_lat]]`, with the four bounds copied to top-level fields.
   */
  function WithCorners(r: Value): Result<Value>
  {
    match Lookup2(r, "range", "coordinates")
    case Err(m) => Err(m)
    case Ok(c) =>
      match (At2(c, 0, 0), At2(c, 0, 1), At2(c, 1, 0), At2(c, 1, 1))
      case (Err(m), _, _, _) => Err(m)
      case (_, Err(m), _, _) => Err(m)
      case (_, _, Err(m), _) => Err(m)
      case (_, _, _, Err(m)) => Err(m)
      case (Ok(minLon), Ok(maxLat), Ok(maxLon), Ok(minLat)) =>
        Ok(Obj(r.fields["min_lon" := minLon]["max_lat" := maxLat]["max_lon" := maxLon]["min_lat" := minLat]))
  }

  /** A list comprehension over `items` that stops at the first exception. */
  function MapAll(items: seq<Value>, f: Value -> Result<Value>): (r: Result<seq<Value>>)
    ensures r.Ok? ==> |r.value| == |items|
  {
    if items == [] then Ok([])
    else
      match f(items[0])
      case Err(m) => Err(m)
      case Ok(x) =>
        match MapAll(items[1..], f)
        case Err(m) => Err(m)
        case Ok(xs) => Ok([x] + xs)
  }

  lemma {:induction false} MapAllOk(items: seq<Value>, f: Value -> Result<Value>)
    ensures MapAll(items, f).Ok? <==> forall i :: 0 <= i < |items| ==> f(items[i]).Ok?
    ensures MapAll(items, f).Ok? ==> forall i :: 0 <= i < |items| ==> MapAll(items, f).value[i] == f(items[i]).value
  {
    if items != [] {
      MapAllOk(items[1..], f);
      if f(items[0]).Ok? && MapAll(items[1..], f).Ok? {
        forall i | 1 <= i < |items|
          ensures MapAll(items, f).value[i] == f(items[i]).value
        {
          assert items[i] == items[1..][i - 1];
        }
      }
      if f(items[0]).Ok? && !MapAll(items[1..], f).Ok? {
        var i :| 0 <= i < |items[1..]| && !f(items[1..][i]).Ok?;
        assert items[i + 1] == items[1..][i];
      }
    }
  }

  /** Rewrite every element of the list stored in `v`. */
  function MapList(v: Value, f: Value -> Result<Value>): Result<Value>
  {
    if !v.Arr? then Err(TypeError)
    else
      match MapAll(v.items, f)
      case Err(m) => Err(m)
      case Ok(xs) => Ok(Arr(xs))
  }

  /**
   * The `datamart_columns` document of the column at `index`: the column's own fields without
   * `plot`, the common fields over them, `index`, and the `coverage` ranges with their bounds lifted.
   */
  function ColumnDoc(common: Dict, column: Value, index: nat): Result<Dict>
  {
    if !column.Obj? then Err(TypeError)
    else
      var d := ((column.fields - {"plot"}) + common)["index" := Int(index)];
      if "coverage" in d then
        match MapList(d["coverage"], WithBounds)
        case Err(m) => Err(m)
        case Ok(cov) => Ok(d["coverage" := cov])
      else Ok(d)
  }

  /** A coverage document: the common fields, the entry's fields over them, and its rewritten `ranges`. */
  function CoverageDoc(common: Dict, coverage: Value, rewrite: Value -> Result<Value>): Result<Dict>
  {
    if !coverage.Obj? then Err(TypeError)
    else
      var d := common + coverage.fields;
      if "ranges" !in d then Err(KeyError)
      else
        match MapList(d["ranges"], rewrite)
        case Err(m) => Err(m)
        case Ok(rs) => Ok(d["ranges" := rs])
  }

  lemma ColumnDocShape(common: Dict, column: Value, index: nat)
    requires "plot" !in common && "index" !in common && "coverage" !in common
    ensures ColumnDoc(common, column, index).Ok? <==>
      column.Obj? && ("coverage" in column.fields ==> MapList(column.fields["coverage"], WithBounds).Ok?)
    ensures ColumnDoc(common, column, index).Ok? ==>
      var d := ColumnDoc(common, column, index).value;
      && "plot" !in d
      && d["index"] == Int(index)
      && (forall k :: k in common ==> k in d && d[k] == common[k])
      && (forall k :: k in column.fields && k !in common && k != "plot" && k != "index" && k != "coverage" ==>
            k in d && d[k] == column.fields[k])
      && ("coverage" in d <==> "coverage" in column.fields)
  {
  }

  // ---------------------------------------------------------------------------
  // What gets indexed

  /** The documents indexed, in order, and the exception that stopped the run, if any. */
  datatype Emitted = Emitted(docs: seq<(string, Dict)>, error: Option<string>)

  /** One `es.index(name, make(item, i))` per item, stopping at the first exception. */
  function Emit(name: string, items: seq<Value>, make: (Value, nat) -> Result<Dict>): (r: Emitted)
    ensures |r.docs| <= |items|
  {
    if items == [] then Emitted([], None)
    else
      var prev := Emit(name, items[..|items| - 1], make);
      if prev.error.Some? then prev
      else
        match make(items[|items| - 1], |items| - 1)
        case Err(m) => Emitted(prev.docs, Some(m))
        case Ok(d) => Emitted(prev.docs + [(name, d)], None)
  }

  function EmitList(name: string, v: Value, make: (Value, nat) -> Result<Dict>): Emitted
  {
    if !v.Arr? then Emitted([], Some(TypeError)) else Emit(name, v.items, make)
  }

  /** Run `second` only when `first` ended without an exception. */
  function Then(first: Emitted, second: Emitted): Emitted
  {
    if first.error.Some? then first else Emitted(first.docs + second.docs, second.error)
  }

  function ColumnMaker(common: Dict): (Value, nat) -> Result<Dict>
  {
    (c: Value, i: nat) => ColumnDoc(common, c, i)
  }

  function CoverageMaker(common: Dict, rewrite: Value -> Result<Value>): (Value, nat) -> Result<Dict>
  {
    (c: Value, i: nat) => CoverageDoc(common, c, rewrite)
  }

  /** The documents for the list under `key`, or none when the dataset has no such field. */
  function IfPresent(metadata: Dict, key: string, name: string, make: (Value, nat) -> Result<Dict>): Emitted
  {
    if key !in metadata then Emitted([], None) else EmitList(name, metadata[key], make)
  }

  /** The three passes, given the common fields. */
  function DocsFor(common: Dict, metadata: Dict): Emitted
  {
    var columns :=
      if "columns" !in metadata then Emitted([], Some(KeyError))
      else EmitList(ColumnsIndex, metadata["columns"], ColumnMaker(common));
    Then(columns, CoverageDocs(common, metadata))
  }

  function CoverageDocs(common: Dict, metadata: Dict): Emitted
  {
    Then(IfPresent(metadata, "spatial_coverage", SpatialIndex, CoverageMaker(common, WithCorners)),
         IfPresent(metadata, "temporal_coverage", TemporalIndex, CoverageMaker(common, WithBounds)))
  }

  /** Everything `add_dataset_to_sup_index` indexes for one dataset. */
  function SupDocs(datasetId: string, metadata: Dict): Emitted
  {
    DocsFor(CommonMetadata(datasetId, metadata), metadata)
  }

  // ---------------------------------------------------------------------------
  // The indexing run

  /** The Elasticsearch client, reduced to the documents it has been given. */
  class IndexLog {
    var docs: seq<(string, Dict)>

    constructor ()
      ensures docs == []
    {
      docs := [];
    }

    /** `es.index(name, doc)`. */
    method Index(name: string, doc: Dict)
      modifies this
      ensures docs == old(docs) + [(name, doc)]
    {
      docs := docs + [(name, doc)];
    }
  }

  /** The loop over one list: index each document as soon as it is built. */
  method IndexAll(es: IndexLog, name: string, v: Value, make: (Value, nat) -> Result<Dict>)
    returns (error: Option<string>)
    modifies es
    ensures es.docs == old(es.docs) + EmitList(name, v, make).docs
    ensures error == EmitList(name, v, make).error
  {
    if !v.Arr? {
      return Some(TypeError);
    }
    var items := v.items;
    var i := 0;
    while i < |items|
      invariant 0 <= i <= |items|
      invariant Emit(name, items[..i], make).error.None?
      invariant es.docs == old(es.docs) + Emit(name, items[..i], make).docs
    {
      assert items[..i + 1][..i] == items[..i];
      var doc := make(items[i], i);
      if doc.Err? {
        EmitErrorSticks(name, items, make, i + 1);
        return Some(doc.msg);
      }
      es.Index(name, doc.value);
      i := i + 1;
    }
    assert items[..i] == items;
    return None;
  }

  /** The optional spatial or temporal pass. */
  method IndexIfPresent(es: IndexLog, metadata: Dict, key: string, name: string, make: (Value, nat) -> Result<Dict>)
    returns (error: Option<string>)
    modifies es
    ensures es.docs == old(es.docs) + IfPresent(metadata, key, name, make).docs
    ensures error == IfPresent(metadata, key, name, make).error
  {
    if key in metadata {
      error := IndexAll(es, name, metadata[key], make);
    } else {
      error := None;
    }
  }

  /** The spatial pass, then the temporal one unless the first raised. */
  method IndexCoverages(es: IndexLog, common: Dict, metadata: Dict) returns (error: Option<string>)
    modifies es
    ensures es.docs == old(es.docs) + CoverageDocs(common, metadata).docs
    ensures error == CoverageDocs(common, metadata).error
  {
    ghost var start := es.docs;
    ghost var spatial := IfPresent(metadata, "spatial_coverage", SpatialIndex, CoverageMaker(common, WithCorners));
    ghost var temporal := IfPresent(metadata, "temporal_coverage", TemporalIndex, CoverageMaker(common, WithBounds));
    error := IndexIfPresent(es, metadata, "spatial_coverage", SpatialIndex, CoverageMaker(common, WithCorners));
    if error.Some? {
      return;
    }
    error := IndexIfPresent(es, metadata, "temporal_coverage", TemporalIndex, CoverageMaker(common, WithBounds));
    assert es.docs == start + spatial.docs + temporal.docs;
  }

  method IndexDocs(es: IndexLog, common: Dict, metadata: Dict) returns (error: Option<string>)
    modifies es
    ensures es.docs == old(es.docs) + DocsFor(common, metadata).docs
    ensures error == DocsFor(common, metadata).error
  {
    if "columns" !in metadata {
      return Some(KeyError);
    }
    ghost var start := es.docs;
    ghost var columns := EmitList(ColumnsIndex, metadata["columns"], ColumnMaker(common));
    error := IndexAll(es, ColumnsIndex, metadata["columns"], ColumnMaker(common));
    if error.Some? {
      return;
    }
    ghost var coverages := CoverageDocs(common, metadata);
    error := IndexCoverages(es, common, metadata);
    assert es.docs == start + columns.docs + coverages.docs;
  }

  /** `add_dataset_to_sup_index(es, dataset_id, metadata)`. */
  method AddDatasetToSupIndex(es: IndexLog, datasetId: string, metadata: Dict)
    returns (error: Option<string>)
    modifies es
    ensures es.docs == old(es.docs) + SupDocs(datasetId, metadata).docs
    ensures error == SupDocs(datasetId, metadata).error
  {
    var common := CommonMetadata(datasetId, metadata);
    error := IndexDocs(es, common, metadata);
  }

  // ---------------------------------------------------------------------------
  // Properties

  /** Once an item fails, the items after it change nothing. */
  lemma {:induction false} EmitErrorSticks(name: string, items: seq<Value>, make: (Value, nat) -> Result<Dict>, k: nat)
    requires k <= |items| && Emit(name, items[..k], make).error.Some?
    ensures Emit(name, items, make) == Emit(name, items[..k], make)
    decreases |items| - k
  {
    if k < |items| {
      assert items[..k + 1][..k] == items[..k];
      EmitErrorSticks(name, items, make, k + 1);
    } else {
      assert items[..k] == items;
    }
  }

  /** Each item gives one document, in order, until the first item whose document fails. */
  lemma {:induction false} EmitInOrder(name: string, items: seq<Value>, make: (Value, nat) -> Result<Dict>)
    ensures var e := Emit(name, items, make);
      forall i :: 0 <= i < |e.docs| ==> make(items[i], i).Ok? && e.docs[i] == (name, make(items[i], i).value)
    ensures var e := Emit(name, items, make);
      e.error.None? <==> |e.docs| == |items|
    ensures var e := Emit(name, items, make);
      e.error.Some? ==> make(items[|e.docs|], |e.docs|).Err? && e.error.value == make(items[|e.docs|], |e.docs|).msg
  {
    if items != [] {
      var front := items[..|items| - 1];
      EmitInOrder(name, front, make);
      forall i | 0 <= i < |front| ensures front[i] == items[i] { }
    }
  }

  /** The common fields never collide with the keys a column document sets or rewrites. */
  lemma CommonAvoidsColumnKeys(datasetId: string, metadata: Dict)
    ensures var c := CommonMetadata(datasetId, metadata);
      "plot" !in c && "index" !in c && "coverage" !in c
  {
    CommonMetadataKeys(datasetId, metadata);
    var c := CommonMetadata(datasetId, metadata);
    forall key | key in c
      ensures key != "plot" && key != "index" && key != "coverage"
    {
      if key != "dataset_id" {
        var k :| k in metadata && !Discarded(k) && key == Prefixed(k);
        assert key[..8] == "dataset_";
        assert key[0] == 'd' && |key| >= 8;
      }
    }
  }

  /**
   * The `datamart_columns` documents come first, one per column in column order, whether or not a
   * later document fails: each has the column's position as `index`, no `plot`, and every kept
   * dataset field under `dataset_<key>`. A run that completes has one for every column.
   */
  lemma ColumnDocsInOrder(datasetId: string, metadata: Dict)
    ensures SupDocs(datasetId, metadata).error.None? ==>
      "columns" in metadata && metadata["columns"].Arr? && |metadata["columns"].items| <= |SupDocs(datasetId, metadata).docs|
    ensures "columns" in metadata && metadata["columns"].Arr? ==>
      var cols := metadata["columns"].items;
      var docs := SupDocs(datasetId, metadata).docs;
      forall i :: 0 <= i < |cols| && i < |docs| ==>
        && docs[i].0 == ColumnsIndex
        && "index" in docs[i].1 && docs[i].1["index"] == Int(i)
        && "plot" !in docs[i].1
        && (forall k :: k in metadata && !Discarded(k) ==> Prefixed(k) in docs[i].1 && docs[i].1[Prefixed(k)] == metadata[k])
  {
    var common := CommonMetadata(datasetId, metadata);
    var docs := SupDocs(datasetId, metadata).docs;
    ColumnsComeFirst(common, metadata);
    assert docs == DocsFor(common, metadata).docs;
    if "columns" in metadata && metadata["columns"].Arr? {
      var cols := metadata["columns"].items;
      forall i | 0 <= i < |cols| && i < |docs|
        ensures docs[i].0 == ColumnsIndex && "index" in docs[i].1 && docs[i].1["index"] == Int(i) && "plot" !in docs[i].1
        ensures forall k :: k in metadata && !Discarded(k) ==> Prefixed(k) in docs[i].1 && docs[i].1[Prefixed(k)] == metadata[k]
      {
        ColumnDocCarriesDataset(datasetId, metadata, cols[i], i);
      }
    }
  }

  lemma ColumnDocCarriesDataset(datasetId: string, metadata: Dict, column: Value, i: nat)
    requires ColumnDoc(CommonMetadata(datasetId, metadata), column, i).Ok?
    ensures var d := ColumnDoc(CommonMetadata(datasetId, metadata), column, i).value;
      && "index" in d && d["index"] == Int(i) && "plot" !in d
      && forall k :: k in metadata && !Discarded(k) ==> Prefixed(k) in d && d[Prefixed(k)] == metadata[k]
  {
    var common := CommonMetadata(datasetId, metadata);
    CommonMetadataKeys(datasetId, metadata);
    CommonAvoidsColumnKeys(datasetId, metadata);
    ColumnDocShape(common, column, i);
  }

  /** The documents of the first `n` columns all build. */
  predicate ColumnsBuild(common: Dict, cols: seq<Value>, n: nat)
    requires n <= |cols|
  {
    forall j :: 0 <= j < n ==> ColumnDoc(common, cols[j], j).Ok?
  }

  /**
   * Whatever the outcome, the documents start with the column documents: every document at a
   * column's position is that column's, and when the documents of the first `n` columns build,
   * those `n` are indexed. A run that completes has built every column's document.
   */
  lemma ColumnsComeFirst(common: Dict, metadata: Dict)
    ensures DocsFor(common, metadata).error.None? ==>
      "columns" in metadata && metadata["columns"].Arr? && |metadata["columns"].items| <= |DocsFor(common, metadata).docs|
    ensures "columns" in metadata && metadata["columns"].Arr? ==>
      var cols := metadata["columns"].items;
      var docs := DocsFor(common, metadata).docs;
      && (forall i :: 0 <= i < |cols| && i < |docs| ==>
            ColumnDoc(common, cols[i], i).Ok? && docs[i] == (ColumnsIndex, ColumnDoc(common, cols[i], i).value))
      && (forall n :: 0 <= n <= |cols| && ColumnsBuild(common, cols, n) ==> n <= |docs|)
  {
    if "columns" in metadata && metadata["columns"].Arr? {
      var cols := metadata["columns"].items;
      var columns := Emit(ColumnsIndex, cols, ColumnMaker(common));
      EmitInOrder(ColumnsIndex, cols, ColumnMaker(common));
      var docs := DocsFor(common, metadata).docs;
      assert docs[..|columns.docs|] == columns.docs;
      assert columns.error.Some? ==> docs == columns.docs;
      forall i | 0 <= i < |cols| && i < |docs|
        ensures ColumnDoc(common, cols[i], i).Ok? && docs[i] == (ColumnsIndex, ColumnDoc(common, cols[i], i).value)
      {
        assert i < |columns.docs|;
        assert docs[i] == columns.docs[i];
        assert ColumnMaker(common)(cols[i], i) == ColumnDoc(common, cols[i], i);
      }
      forall n | 0 <= n <= |cols| && ColumnsBuild(common, cols, n)
        ensures n <= |docs|
      {
        if columns.error.Some? {
          var m := |columns.docs|;
          assert ColumnMaker(common)(cols[m], m) == ColumnDoc(common, cols[m], m);
        }
      }
    }
  }

  /** A numeric or temporal range gets `gte` and `lte` exactly when its `range` object holds both. */
  lemma WithBoundsLifts(r: Value)
    ensures WithBounds(r).Ok? <==>
      r.Obj? && "range" in r.fields && r.fields["range"].Obj?
      && "gte" in r.fields["range"].fields && "lte" in r.fields["range"].fields
    ensures WithBounds(r).Ok? ==>
      var b := r.fields["range"].fields;
      WithBounds(r).value == Obj(r.fields["gte" := b["gte"]]["lte" := b["lte"]])
  {
  }

  /** The envelope `[[a, b], [c, d]]` gives `min_lon = a`, `max_lat = b`, `max_lon = c`, `min_lat = d`. */
  lemma WithCornersOfEnvelope(r: Value, a: Value, b: Value, c: Value, d: Value)
    requires r.Obj? && "range" in r.fields && r.fields["range"].Obj?
    requires "coordinates" in r.fields["range"].fields
    requires r.fields["range"].fields["coordinates"] == Arr([Arr([a, b]), Arr([c, d])])
    ensures WithCorners(r).Ok? && WithCorners(r).value.Obj?
    ensures var f := WithCorners(r).value.fields;
      && f["min_lon"] == a && f["max_lat"] == b && f["max_lon"] == c && f["min_lat"] == d
      && forall k :: k in r.fields ==> k in f && (k == "min_lon" || k == "max_lat" || k == "max_lon" || k == "min_lat" || f[k] == r.fields[k])
  {
  }
}
