/**
 * The helpers of the geographic data builder: reading Wikidata SPARQL bindings, the geoshape URL
 * fix, flattening GeoJSON polygons into points, the bounding-box folds of `bounds0` / `bounds1`,
 * and the OpenStreetMap bounding box of an administrative area. The SPARQL endpoint, the HTTP
 * downloads, CSV files and `json.loads` are outside the model: their answers are the inputs here.
 * A failed `assert`, `index` or dict lookup is an `Err`.
 */
module GeoData {
  import opened Wrappers
  import opened Seqs
  import opened PyStr

  // ---------------------------------------------------------------------------
  // SPARQL bindings
  // ---------------------------------------------------------------------------

  /** One bound variable of a SPARQL result row: `{'type': ..., 'value': ...}`. */
  datatype Binding = Binding(kind: string, value: string)

  const EntityPrefix: string := "http://www.wikidata.org/entity/"

  /** `literal(item)`. */
  function Literal(item: Binding): (r: Result<string>)
    ensures r.Ok? <==> item.kind == "literal"
    ensures r.Ok? ==> r.value == item.value
  {
    if item.kind != "literal" then Err("AssertionError") else Ok(item.value)
  }

  /** `uri(item)`. */
  function Uri(item: Binding): (r: Result<string>)
    ensures r.Ok? <==> item.kind == "uri"
    ensures r.Ok? ==> r.value == item.value
  {
    if item.kind != "uri" then Err("AssertionError") else Ok(item.value)
  }

  /** `q_entity_uri(item)`: the entity id after the Wikidata entity prefix. */
  function QEntityUri(item: Binding): (r: Result<string>)
    ensures r.Ok? <==> item.kind == "uri" && EntityPrefix <= item.value
    ensures r.Ok? ==> item.value == EntityPrefix + r.value
  {
    if item.kind != "uri" then Err("AssertionError")
    else if !(EntityPrefix <= item.value) then Err("AssertionError")
    else Ok(item.value[|EntityPrefix|..])
  }

  /** An entity URI gives back exactly its id. */
  lemma QEntityUriRoundTrip(id: string)
    ensures QEntityUri(Binding("uri", EntityPrefix + id)) == Ok(id)
  {
    assert (EntityPrefix + id)[|EntityPrefix|..] == id;
  }

  // ---------------------------------------------------------------------------
  // The geoshape URL fix
  // ---------------------------------------------------------------------------

  /** `u.index('/')`: the position of the first `/`. */
  function FirstSlash(u: string): (r: nat)
    requires '/' in u
    ensures r < |u| && u[r] == '/' && forall k :: 0 <= k < r ==> u[k] != '/'
  {
    if u[0] == '/' then 0 else 1 + FirstSlash(u[1..])
  }

  /**
   * The workaround for `+` in geoshape URLs: every `+` after the FIRST `/` (`index`, although the
   * variable is called `last_slash`) becomes `_`. A URL without `/` makes `index` raise.
   */
  function FixShapeUri(u: string): (r: Result<string>)
    ensures r.Ok? <==> '/' in u
  {
    if '/' !in u then Err("ValueError: substring not found")
    else Ok(ReplaceAfterSlash(u, FirstSlash(u)))
  }

  /** The rewrite once the slash is found at `slash`: only done when a `+` follows it. */
  function ReplaceAfterSlash(u: string, slash: nat): string
    requires slash < |u|
  {
    var tail := u[slash + 1..];
    if '+' in tail then u[..slash + 1] + ReplaceChar(tail, '+', '_') else u
  }

  /**
   * The fixed URL keeps everything up to and including the first `/`, and after it has `_` where
   * the original had `+` and the original character everywhere else.
   */
  lemma FixShapeUriSpec(u: string)
    requires '/' in u
    ensures var r := FixShapeUri(u).value;
      var s := FirstSlash(u);
      && |r| == |u|
      && r[..s + 1] == u[..s + 1]
      && forall k :: s < k < |u| ==> r[k] == (if u[k] == '+' then '_' else u[k])
  {
    ReplaceAfterSlashSpec(u, FirstSlash(u));
  }

  /** `ReplaceAfterSlash` keeps the first `s + 1` characters and replaces `+` after them. */
  lemma ReplaceAfterSlashSpec(u: string, s: nat)
    requires s < |u|
    ensures var r := ReplaceAfterSlash(u, s);
      && |r| == |u|
      && r[..s + 1] == u[..s + 1]
      && forall k :: s < k < |u| ==> r[k] == (if u[k] == '+' then '_' else u[k])
  {
    var head, tail := u[..s + 1], u[s + 1..];
    if '+' in tail {
      var fixed := ReplaceChar(tail, '+', '_');
      var r := head + fixed;
      assert r[..s + 1] == head;
      forall k | s < k < |u|
        ensures r[k] == (if u[k] == '+' then '_' else u[k])
      {
        assert r[k] == fixed[k - s - 1];
        assert tail[k - s - 1] == u[k];
      }
    } else {
      forall k | s < k < |u|
        ensures u[k] != '+'
      {
        assert tail[k - s - 1] == u[k];
      }
    }
  }

  /** Without a `+` after the first `/`, the URL is unchanged. */
  lemma FixShapeUriKeepsPlusFree(u: string)
    requires '/' in u && forall k :: FirstSlash(u) < k < |u| ==> u[k] != '+'
    ensures FixShapeUri(u) == Ok(u)
  {
    var s := FirstSlash(u);
    var tail := u[s + 1..];
    assert forall k :: 0 <= k < |tail| ==> tail[k] == u[s + 1 + k];
  }

  /** The first `/` is the one with no `/` before it. */
  lemma {:induction false} FirstSlashAt(u: string, s: nat)
    requires s < |u| && u[s] == '/' && forall k :: 0 <= k < s ==> u[k] != '/'
    ensures FirstSlash(u) == s
  {
    if s > 0 {
      FirstSlashAt(u[1..], s - 1);
    }
  }

  /** The fix is idempotent: a fixed URL is left as it is. */
  lemma FixShapeUriIdempotent(u: string)
    requires '/' in u
    ensures FixShapeUri(FixShapeUri(u).value) == FixShapeUri(u)
  {
    var r := FixShapeUri(u).value;
    FixShapeUriSpec(u);
    var s := FirstSlash(u);
    assert forall k :: 0 <= k <= s ==> r[k] == u[k] by {
      assert forall k :: 0 <= k <= s ==> r[k] == r[..s + 1][k] && u[k] == u[..s + 1][k];
    }
    FirstSlashAt(r, s);
    FixShapeUriKeepsPlusFree(r);
  }

  // ---------------------------------------------------------------------------
  // GeoJSON points
  // ---------------------------------------------------------------------------

  /** A GeoJSON position `[longitude, latitude]`; floats are taken as exact reals. */
  datatype Point = Point(lon: real, lat: real)

  /** A feature's `geometry`: polygons are lists of rings, rings lists of positions. */
  datatype Geometry =
    | Polygon(rings: seq<seq<Point>>)
    | MultiPolygon(polygons: seq<seq<seq<Point>>>)
    | OtherGeometry(kind: string)

  /** One entry of `shape['data']['features']`; `kind` is its `type`. */
  datatype Feature = Feature(kind: string, geometry: Geometry)

  /** The rings of a list of polygons, in order. */
  function PolygonRings(polygons: seq<seq<seq<Point>>>): seq<seq<Point>>
  {
    if polygons == [] then [] else PolygonRings(polygons[..|polygons| - 1]) + polygons[|polygons| - 1]
  }

  /** The points `get_shape_points` takes from one feature, in document order. */
  function FeaturePoints(f: Feature): (r: Result<seq<Point>>)
    ensures r.Ok? <==> f.kind == "Feature" && !f.geometry.OtherGeometry?
  {
    if f.kind != "Feature" then Err("AssertionError")
    else
      match f.geometry
      case Polygon(rings) => Ok(Concat(rings))
      case MultiPolygon(polygons) => Ok(Concat(PolygonRings(polygons)))
      case OtherGeometry(kind) => Err("AssertionError: Unrecognized geometry '" + kind + "'")
  }

  /** `get_shape_points(shape)`, from the list of features. */
  function ShapePoints(features: seq<Feature>): Result<seq<Point>>
  {
    if features == [] then Ok([])
    else
      match ShapePoints(features[..|features| - 1])
      case Err(e) => Err(e)
      case Ok(ps) =>
        match FeaturePoints(features[|features| - 1])
        case Err(e) => Err(e)
        case Ok(qs) => Ok(ps + qs)
  }

  /** The points come out only if every feature is a `Feature` with a polygon or multipolygon. */
  lemma {:induction false} ShapePointsOk(features: seq<Feature>)
    ensures ShapePoints(features).Ok? <==> forall i :: 0 <= i < |features| ==> FeaturePoints(features[i]).Ok?
  {
    if features != [] {
      var init := features[..|features| - 1];
      ShapePointsOk(init);
      assert forall i :: 0 <= i < |init| ==> init[i] == features[i];
    }
  }

  /** The points of two lists of features are the points of the first, then those of the second. */
  lemma {:induction false} ShapePointsAppend(a: seq<Feature>, b: seq<Feature>)
    requires ShapePoints(a).Ok? && ShapePoints(b).Ok?
    ensures ShapePoints(a + b) == Ok(ShapePoints(a).value + ShapePoints(b).value)
  {
    if b == [] {
      assert a + b == a;
      assert ShapePoints(a).value + ShapePoints(b).value == ShapePoints(a).value;
    } else {
      var init, f := b[..|b| - 1], b[|b| - 1];
      assert (a + b)[..|a + b| - 1] == a + init;
      assert (a + b)[|a + b| - 1] == f;
      assert ShapePoints(init).Ok? && FeaturePoints(f).Ok?;
      ShapePointsAppend(a, init);
      var pa, pi, q := ShapePoints(a).value, ShapePoints(init).value, FeaturePoints(f).value;
      assert ShapePoints(b).value == pi + q;
      assert ShapePoints(a + b).value == (pa + pi) + q;
      assert (pa + pi) + q == pa + (pi + q);
    }
  }

  /** A multipolygon of one polygon has that polygon's points. */
  lemma SinglePolygon(rings: seq<seq<Point>>)
    ensures FeaturePoints(Feature("Feature", MultiPolygon([rings]))) == FeaturePoints(Feature("Feature", Polygon(rings)))
  {
    assert [rings][..0] == [];
    assert PolygonRings([rings]) == [] + rings;
    assert [] + rings == rings;
  }

  /** The `for polygon ... for point ...` loops over the rings of one polygon, appending to `points`. */
  method AppendRings(points: seq<Point>, rings: seq<seq<Point>>) returns (points': seq<Point>)
    ensures points' == points + Concat(rings)
  {
    points' := points;
    for i := 0 to |rings|
      invariant points' == points + Concat(rings[..i])
    {
      for j := 0 to |rings[i]|
        invariant points' == points + Concat(rings[..i]) + rings[i][..j]
      {
        points' := points' + [rings[i][j]];
        assert rings[i][..j + 1] == rings[i][..j] + [rings[i][j]];
      }
      assert rings[i][..|rings[i]|] == rings[i];
      assert rings[..i + 1] == rings[..i] + [rings[i]];
      ConcatAppend(rings[..i], rings[i]);
    }
    assert rings[..|rings|] == rings;
  }

  /** `get_shape_points(shape)`: the nested loops over features, polygons and rings. */
  method GetShapePoints(features: seq<Feature>) returns (r: Result<seq<Point>>)
    ensures r == ShapePoints(features)
  {
    var points: seq<Point> := [];
    for i := 0 to |features|
      invariant ShapePoints(features[..i]) == Ok(points)
    {
      var feature := features[i];
      assert features[..i + 1][..i] == features[..i];
      if feature.kind != "Feature" {
        assert features[..i + 1][i] == feature;
        PrefixErr(features, i + 1);
        return Err("AssertionError");
      }
      match feature.geometry {
        case Polygon(rings) =>
          points := AppendRings(points, rings);
        case MultiPolygon(polygons) =>
          for m := 0 to |polygons|
            invariant points == ShapePoints(features[..i]).value + Concat(PolygonRings(polygons[..m]))
          {
            assert polygons[..m + 1][..m] == polygons[..m];
            ConcatSplit(PolygonRings(polygons[..m]), polygons[m]);
            points := AppendRings(points, polygons[m]);
          }
          assert polygons[..|polygons|] == polygons;
        case OtherGeometry(kind) =>
          PrefixErr(features, i + 1);
          return Err("AssertionError: Unrecognized geometry '" + kind + "'");
      }
    }
    assert features[..|features|] == features;
    r := Ok(points);
  }

  /** Once a prefix of the features fails, the whole list fails with the same error. */
  lemma {:induction false} PrefixErr(features: seq<Feature>, n: nat)
    requires n <= |features| && ShapePoints(features[..n]).Err?
    ensures ShapePoints(features) == ShapePoints(features[..n])
    decreases |features| - n
  {
    if n < |features| {
      assert features[..n + 1][..n] == features[..n];
      PrefixErr(features, n + 1);
    } else {
      assert features[..n] == features;
    }
  }

  // ---------------------------------------------------------------------------
  // Bounding boxes
  // ---------------------------------------------------------------------------

  /** `(min long, max long, min lat, max lat)`. */
  datatype BBox = BBox(minLon: real, maxLon: real, minLat: real, maxLat: real)

  function RMin(a: real, b: real): real { if a <= b then a else b }
  function RMax(a: real, b: real): real { if a >= b then a else b }

  /** The box after one more point: the box of that point alone when there is none yet. */
  function Widen(m: Option<BBox>, p: Point): BBox
  {
    match m
    case None => BBox(p.lon, p.lon, p.lat, p.lat)
    case Some(b) => BBox(RMin(b.minLon, p.lon), RMax(b.maxLon, p.lon), RMin(b.minLat, p.lat), RMax(b.maxLat, p.lat))
  }

  /** The `merged` tuple after folding `points` into `m`. */
  function Merged(m: Option<BBox>, points: seq<Point>): Option<BBox>
  {
    if points == [] then m else Some(Widen(Merged(m, points[..|points| - 1]), points[|points| - 1]))
  }

  predicate Inside(p: Point, b: BBox)
  {
    b.minLon <= p.lon <= b.maxLon && b.minLat <= p.lat <= b.maxLat
  }

  /** Each side of the box is reached by one of the points. */
  predicate Attained(b: BBox, points: seq<Point>)
  {
    && (exists i :: 0 <= i < |points| && points[i].lon == b.minLon)
    && (exists i :: 0 <= i < |points| && points[i].lon == b.maxLon)
    && (exists i :: 0 <= i < |points| && points[i].lat == b.minLat)
    && (exists i :: 0 <= i < |points| && points[i].lat == b.maxLat)
  }

  /**
   * Folding points into nothing gives nothing only for no points, and otherwise the smallest box
   * around them: every point is inside and every side is reached by a point.
   */
  lemma {:induction false} MergedIsBox(points: seq<Point>)
    ensures Merged(None, points).None? <==> points == []
    ensures Merged(None, points).Some? ==>
      var b := Merged(None, points).value;
      (forall i :: 0 <= i < |points| ==> Inside(points[i], b)) && Attained(b, points)
  {
    if points != [] {
      var n := |points| - 1;
      var init, p := points[..n], points[n];
      MergedIsBox(init);
      var b := Merged(None, points).value;
      assert forall i :: 0 <= i < n ==> points[i] == init[i];
      if init == [] {
        assert Attained(b, points) by {
          assert points[0] == p;
        }
      } else {
        var c := Merged(None, init).value;
        assert b == Widen(Some(c), p);
        assert Attained(b, points) by {
          var i0 :| 0 <= i0 < |init| && init[i0].lon == c.minLon;
          var i1 :| 0 <= i1 < |init| && init[i1].lon == c.maxLon;
          var i2 :| 0 <= i2 < |init| && init[i2].lat == c.minLat;
          var i3 :| 0 <= i3 < |init| && init[i3].lat == c.maxLat;
          assert points[i0] == init[i0] && points[i1] == init[i1] && points[i2] == init[i2] && points[i3] == init[i3];
          assert points[n] == p;
        }
      }
    }
  }

  /** Starting from the first point's box and folding the rest is folding them all. */
  lemma {:induction false} MergedFromFirst(p: Point, rest: seq<Point>)
    ensures Merged(Some(Widen(None, p)), rest) == Merged(None, [p] + rest)
  {
    if rest != [] {
      var n := |rest| - 1;
      MergedFromFirst(p, rest[..n]);
      assert ([p] + rest)[..|[p] + rest| - 1] == [p] + rest[..n];
    } else {
      assert [p] + rest == [p];
      assert [p][..0] == [];
    }
  }

  /**
   * The box `bounds0` / `bounds1` write for one shape: `points[0]` starts the fold, so a shape
   * without points raises `IndexError`.
   */
  function Bounds(points: seq<Point>): (r: Result<BBox>)
    ensures r.Ok? <==> points != []
  {
    if points == [] then Err("IndexError") else Ok(Merged(Some(Widen(None, points[0])), points[1..]).value)
  }

  /** The box of a shape holds all its points and each side is reached by one. */
  lemma BoundsIsBox(points: seq<Point>)
    requires points != []
    ensures var b := Bounds(points).value;
      (forall i :: 0 <= i < |points| ==> Inside(points[i], b)) && Attained(b, points)
  {
    MergedFromFirst(points[0], points[1..]);
    assert [points[0]] + points[1..] == points;
    MergedIsBox(points);
  }

  /** The `merged` loop of `bounds0` / `bounds1`. */
  method ShapeBounds(points: seq<Point>) returns (r: Result<BBox>)
    ensures r == Bounds(points)
  {
    if |points| == 0 {
      return Err("IndexError");
    }
    var merged := Widen(None, points[0]);
    var rest := points[1..];
    for i := 0 to |rest|
      invariant Some(merged) == Merged(Some(Widen(None, points[0])), rest[..i])
    {
      assert rest[..i + 1][..i] == rest[..i];
      merged := Widen(Some(merged), rest[i]);
    }
    assert rest[..|rest|] == rest;
    r := Ok(merged);
  }

  // ---------------------------------------------------------------------------
  // bounds1: one box per level-1 area, from its first shape
  // ---------------------------------------------------------------------------

  /** A row of `geoshapes1.csv`, with its shape already decoded. */
  datatype ShapeRow = ShapeRow(area: string, features: seq<Feature>)

  /** What the shape loop of `bounds1` has written so far, and the areas still without a box. */
  datatype Bounds1State = Bounds1State(written: seq<(string, BBox)>, remaining: set<string>)

  /** One row of the shape loop of `bounds1`. */
  function Bounds1Step(allAdmins: set<string>, st: Bounds1State, row: ShapeRow): Result<Bounds1State>
  {
    if row.area !in allAdmins then Err("AssertionError")
    else if row.area !in st.remaining then Ok(st)
    else
      match ShapePoints(row.features)
      case Err(e) => Err(e)
      case Ok(points) =>
        match Bounds(points)
        case Err(e) => Err(e)
        case Ok(b) => Ok(Bounds1State(st.written + [(row.area, b)], st.remaining - {row.area}))
  }

  /** The shape loop of `bounds1` over `rows`, from all areas remaining and nothing written. */
  function Bounds1Of(allAdmins: set<string>, rows: seq<ShapeRow>): Result<Bounds1State>
  {
    if rows == [] then Ok(Bounds1State([], allAdmins))
    else
      match Bounds1Of(allAdmins, rows[..|rows| - 1])
      case Err(e) => Err(e)
      case Ok(st) => Bounds1Step(allAdmins, st, rows[|rows| - 1])
  }

  /** Areas with a box written, in order. */
  function WrittenAreas(written: seq<(string, BBox)>): (r: seq<string>)
    ensures |r| == |written| && forall k :: 0 <= k < |written| ==> r[k] == written[k].0
  {
    if written == [] then [] else WrittenAreas(written[..|written| - 1]) + [written[|written| - 1].0]
  }

  /**
   * Every area gets at most one box (later shapes for it are skipped), only known areas get one,
   * and the remaining areas are exactly the known ones without a box.
   */
  ghost predicate Bounds1Invariant(allAdmins: set<string>, st: Bounds1State)
  {
    var areas := WrittenAreas(st.written);
    && NoDuplicates(areas)
    && (forall k :: 0 <= k < |areas| ==> areas[k] in allAdmins)
    && st.remaining == allAdmins - (set a | a in areas)
  }

  lemma {:induction false} Bounds1StepKeeps(allAdmins: set<string>, st: Bounds1State, row: ShapeRow)
    requires Bounds1Invariant(allAdmins, st) && Bounds1Step(allAdmins, st, row).Ok?
    ensures Bounds1Invariant(allAdmins, Bounds1Step(allAdmins, st, row).value)
  {
    if row.area in st.remaining {
      var st' := Bounds1Step(allAdmins, st, row).value;
      var areas, areas' := WrittenAreas(st.written), WrittenAreas(st'.written);
      assert areas' == areas + [row.area] by {
        assert st'.written[..|st'.written| - 1] == st.written;
      }
      assert (set a | a in areas') == (set a | a in areas) + {row.area};
    }
  }

  /**
   * The shape loop of `bounds1` fails exactly on an unknown area or on a shape it cannot bound;
   * when it succeeds, every known area has at most one box, from its first shape, and the areas
   * left for OpenStreetMap are the known ones without a box.
   */
  lemma {:induction false} Bounds1Written(allAdmins: set<string>, rows: seq<ShapeRow>)
    requires Bounds1Of(allAdmins, rows).Ok?
    ensures Bounds1Invariant(allAdmins, Bounds1Of(allAdmins, rows).value)
  {
    if rows != [] {
      var init := rows[..|rows| - 1];
      Bounds1Written(allAdmins, init);
      Bounds1StepKeeps(allAdmins, Bounds1Of(allAdmins, init).value, rows[|rows| - 1]);
    } else {
      assert (set a | a in WrittenAreas([])) == {};
    }
  }

  /** A second shape for an area that already has a box changes nothing. */
  lemma DuplicateShapeSkipped(allAdmins: set<string>, rows: seq<ShapeRow>, row: ShapeRow)
    requires Bounds1Of(allAdmins, rows).Ok?
    requires row.area in allAdmins && row.area in WrittenAreas(Bounds1Of(allAdmins, rows).value.written)
    ensures Bounds1Of(allAdmins, rows + [row]) == Bounds1Of(allAdmins, rows)
  {
    Bounds1Written(allAdmins, rows);
    assert (rows + [row])[..|rows|] == rows;
  }

  /** A shape row for an area that is not a known level-1 area is an assertion failure. */
  lemma UnknownAreaFails(allAdmins: set<string>, rows: seq<ShapeRow>, row: ShapeRow)
    requires Bounds1Of(allAdmins, rows).Ok? && row.area !in allAdmins
    ensures Bounds1Of(allAdmins, rows + [row]).Err?
  {
    assert (rows + [row])[..|rows|] == rows;
  }

  /** The shape loop of `bounds1`, updating `remaining_admins` in place. */
  method Bounds1Shapes(allAdmins: set<string>, rows: seq<ShapeRow>) returns (r: Result<Bounds1State>)
    ensures r == Bounds1Of(allAdmins, rows)
  {
    var written: seq<(string, BBox)> := [];
    var remaining := allAdmins;
    for i := 0 to |rows|
      invariant Bounds1Of(allAdmins, rows[..i]) == Ok(Bounds1State(written, remaining))
    {
      var row := rows[i];
      assert rows[..i + 1][..i] == rows[..i];
      if row.area !in allAdmins {
        Bounds1PrefixErr(allAdmins, rows, i + 1);
        return Err("AssertionError");
      }
      if row.area !in remaining {
        continue;
      }
      remaining := remaining - {row.area};
      var points := GetShapePoints(row.features);
      if points.Err? {
        Bounds1PrefixErr(allAdmins, rows, i + 1);
        return Err(points.msg);
      }
      var b := ShapeBounds(points.value);
      if b.Err? {
        Bounds1PrefixErr(allAdmins, rows, i + 1);
        return Err(b.msg);
      }
      written := written + [(row.area, b.value)];
    }
    assert rows[..|rows|] == rows;
    r := Ok(Bounds1State(written, remaining));
  }

  lemma {:induction false} Bounds1PrefixErr(allAdmins: set<string>, rows: seq<ShapeRow>, n: nat)
    requires n <= |rows| && Bounds1Of(allAdmins, rows[..n]).Err?
    ensures Bounds1Of(allAdmins, rows) == Bounds1Of(allAdmins, rows[..n])
    decreases |rows| - n
  {
    if n < |rows| {
      assert rows[..n + 1][..n] == rows[..n];
      Bounds1PrefixErr(allAdmins, rows, n + 1);
    } else {
      assert rows[..n] == rows;
    }
  }

  // ---------------------------------------------------------------------------
  // The OpenStreetMap box of an area
  // ---------------------------------------------------------------------------

  /** An entry of the relation's `elements`. */
  datatype Element =
    | Node(id: int, lat: real, lon: real)
    | Way(tags: Option<map<string, string>>, nodes: seq<int>)
    | OtherElement

  /** `'tags' in element and element['tags'].get('boundary') == 'administrative'`. */
  predicate IsAdministrative(e: Element)
  {
    e.Way? && e.tags.Some? && "boundary" in e.tags.value && e.tags.value["boundary"] == "administrative"
  }

  /** The `nodes` dict: node id to position; a later node with the same id replaces an earlier one. */
  function NodeTable(elements: seq<Element>): map<int, Point>
  {
    if elements == [] then map[]
    else
      var t := NodeTable(elements[..|elements| - 1]);
      var e := elements[|elements| - 1];
      if e.Node? then t[e.id := Point(e.lon, e.lat)] else t
  }

  /** The node ids of the administrative ways, in order. */
  function AdminNodeIds(elements: seq<Element>): seq<int>
  {
    if elements == [] then []
    else
      var e := elements[|elements| - 1];
      AdminNodeIds(elements[..|elements| - 1]) + (if IsAdministrative(e) then e.nodes else [])
  }

  /** Folding node ids into the box; an id missing from the table is a `KeyError`. */
  function MergeIds(m: Option<BBox>, table: map<int, Point>, ids: seq<int>): Result<Option<BBox>>
  {
    if ids == [] then Ok(m)
    else
      match MergeIds(m, table, ids[..|ids| - 1])
      case Err(e) => Err(e)
      case Ok(m') => if ids[|ids| - 1] in table then Ok(Some(Widen(m', table[ids[|ids| - 1]]))) else Err("KeyError")
  }

  /** The box `bounds1` caches for an area from its OpenStreetMap relation. */
  function OsmBounds(elements: seq<Element>): Result<Option<BBox>>
  {
    MergeIds(None, NodeTable(elements), AdminNodeIds(elements))
  }

  /** Every id has a position in the table. */
  predicate AllKnown(table: map<int, Point>, ids: seq<int>)
  {
    forall k :: 0 <= k < |ids| ==> ids[k] in table
  }

  /** The positions of the ids, in order. */
  function Positions(table: map<int, Point>, ids: seq<int>): (r: seq<Point>)
    requires AllKnown(table, ids)
    ensures |r| == |ids| && forall k :: 0 <= k < |ids| ==> r[k] == table[ids[k]]
  {
    if ids == [] then [] else Positions(table, ids[..|ids| - 1]) + [table[ids[|ids| - 1]]]
  }

  /** Folding ids whose positions are all known is folding those positions; otherwise a `KeyError`. */
  lemma {:induction false} MergeIdsPoints(m: Option<BBox>, table: map<int, Point>, ids: seq<int>)
    ensures MergeIds(m, table, ids).Ok? <==> AllKnown(table, ids)
    ensures AllKnown(table, ids) ==> MergeIds(m, table, ids) == Ok(Merged(m, Positions(table, ids)))
  {
    if ids != [] {
      var n := |ids| - 1;
      MergeIdsPoints(m, table, ids[..n]);
      assert forall k :: 0 <= k < n ==> ids[..n][k] == ids[k];
      if AllKnown(table, ids) {
        assert Positions(table, ids)[..n] == Positions(table, ids[..n]);
      }
    }
  }

  /**
   * The OpenStreetMap box: a `KeyError` if an administrative way names a node the relation does
   * not hold; otherwise `None` when the administrative ways have no nodes, and else the smallest
   * box around their nodes.
   */
  lemma OsmBoundsIsBox(elements: seq<Element>)
    ensures var t, ids := NodeTable(elements), AdminNodeIds(elements);
      var r := OsmBounds(elements);
      && (r.Ok? <==> AllKnown(t, ids))
      && (r.Ok? ==> (r.value.None? <==> ids == []))
      && (r.Ok? && r.value.Some? ==>
            (forall k :: 0 <= k < |ids| ==> Inside(t[ids[k]], r.value.value))
            && Attained(r.value.value, Positions(t, ids)))
  {
    var t, ids := NodeTable(elements), AdminNodeIds(elements);
    MergeIdsPoints(None, t, ids);
    if AllKnown(t, ids) {
      MergedIsBox(Positions(t, ids));
    }
  }

  /** The first loop of the OpenStreetMap part of `bounds1`: the `nodes` dict. */
  method ReadNodes(elements: seq<Element>) returns (nodes: map<int, Point>)
    ensures nodes == NodeTable(elements)
  {
    nodes := map[];
    for i := 0 to |elements|
      invariant nodes == NodeTable(elements[..i])
    {
      assert elements[..i + 1][..i] == elements[..i];
      var e := elements[i];
      if e.Node? {
        nodes := nodes[e.id := Point(e.lon, e.lat)];
      }
    }
    assert elements[..|elements|] == elements;
  }

  /** Splitting the ids splits the fold. */
  lemma {:induction false} MergeIdsAppend(m: Option<BBox>, table: map<int, Point>, a: seq<int>, b: seq<int>)
    ensures MergeIds(m, table, a + b) ==
      match MergeIds(m, table, a) case Err(e) => Err(e) case Ok(m') => MergeIds(m', table, b)
  {
    if b == [] {
      assert a + b == a;
      if MergeIds(m, table, a).Err? {
        assert MergeIds(m, table, a) == Err(MergeIds(m, table, a).msg);
      }
    } else {
      var n := |b| - 1;
      MergeIdsAppend(m, table, a, b[..n]);
      assert (a + b)[..|a + b| - 1] == a + b[..n];
    }
  }

  /** The node ids of a list of elements split along the list. */
  lemma {:induction false} AdminNodeIdsAppend(a: seq<Element>, b: seq<Element>)
    ensures AdminNodeIds(a + b) == AdminNodeIds(a) + AdminNodeIds(b)
  {
    if b == [] {
      assert a + b == a;
    } else {
      var n := |b| - 1;
      AdminNodeIdsAppend(a, b[..n]);
      assert (a + b)[..|a + b| - 1] == a + b[..n];
    }
  }

  /** One more id: the fold fails if it already failed or the id is unknown. */
  lemma MergeIdsSnoc(table: map<int, Point>, ids: seq<int>, id: int)
    ensures MergeIds(None, table, ids + [id]) ==
      match MergeIds(None, table, ids)
      case Err(e) => Err(e)
      case Ok(m) => if id in table then Ok(Some(Widen(m, table[id]))) else Err("KeyError")
  {
    assert (ids + [id])[..|ids|] == ids;
  }

  /** The fold of ids that already failed on a prefix fails the same way. */
  lemma MergeIdsFailed(table: map<int, Point>, ids: seq<int>, n: nat)
    requires n <= |ids| && MergeIds(None, table, ids[..n]).Err?
    ensures MergeIds(None, table, ids) == MergeIds(None, table, ids[..n])
  {
    MergeIdsAppend(None, table, ids[..n], ids[n..]);
    assert ids[..n] + ids[n..] == ids;
  }

  /** The `for node in element['nodes']` loop of one administrative way. */
  method MergeWayNodes(merged: Option<BBox>, nodes: map<int, Point>, ghost done: seq<int>, ids: seq<int>)
    returns (r: Result<Option<BBox>>)
    requires MergeIds(None, nodes, done) == Ok(merged)
    ensures r == MergeIds(None, nodes, done + ids)
  {
    var m := merged;
    ghost var all := done + ids;
    assert all[..|done|] == done;
    for j := 0 to |ids|
      invariant MergeIds(None, nodes, all[..|done| + j]) == Ok(m)
    {
      var id := ids[j];
      assert all[..|done| + j + 1] == all[..|done| + j] + [id];
      MergeIdsSnoc(nodes, all[..|done| + j], id);
      if id !in nodes {
        MergeIdsFailed(nodes, all, |done| + j + 1);
        return Err("KeyError");
      }
      m := Some(Widen(m, nodes[id]));
    }
    assert all[..|all|] == all;
    r := Ok(m);
  }

  /** The loop over the administrative ways and their nodes, folding the `merged` tuple. */
  method MergeWays(elements: seq<Element>, nodes: map<int, Point>) returns (r: Result<Option<BBox>>)
    ensures r == MergeIds(None, nodes, AdminNodeIds(elements))
  {
    var merged: Option<BBox> := None;
    for i := 0 to |elements|
      invariant MergeIds(None, nodes, AdminNodeIds(elements[..i])) == Ok(merged)
    {
      var e := elements[i];
      ghost var done := AdminNodeIds(elements[..i]);
      assert elements[..i + 1][..i] == elements[..i];
      assert elements[..i + 1][i] == e;
      assert AdminNodeIds(elements[..i + 1]) == done + (if IsAdministrative(e) then e.nodes else []);
      if IsAdministrative(e) {
        var next := MergeWayNodes(merged, nodes, done, e.nodes);
        if next.Err? {
          AdminNodeIdsAppend(elements[..i + 1], elements[i + 1..]);
          MergeIdsAppend(None, nodes, AdminNodeIds(elements[..i + 1]), AdminNodeIds(elements[i + 1..]));
          assert elements[..i + 1] + elements[i + 1..] == elements;
          return next;
        }
        merged := next.value;
      } else {
        assert done + [] == done;
      }
    }
    assert elements[..|elements|] == elements;
    r := Ok(merged);
  }

  /** The OpenStreetMap box of one area from its relation's elements. */
  method OsmAreaBounds(elements: seq<Element>) returns (r: Result<Option<BBox>>)
    ensures r == OsmBounds(elements)
  {
    var nodes := ReadNodes(elements);
    r := MergeWays(elements, nodes);
  }
}
