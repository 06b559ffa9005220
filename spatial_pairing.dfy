/**
 * Pairing of latitude and longitude columns by name in the profiler: each name is stripped,
 * lower-cased and loses the first latitude (or longitude) marker it contains; a longitude column
 * is paired with the latitude column whose normalized name is the same.
 */
module SpatialPairing {
  import opened Wrappers
  import opened PyStr

  /** `LATITUDE`, in the order the markers are tried. */
  const Latitude: seq<string> := ["latitude", "lat", "ycoord", "y_coord"]
  /** `LONGITUDE`, in the order the markers are tried. */
  const Longitude: seq<string> := ["longitude", "long", "lon", "lng", "xcoord", "x_coord"]

  // ---------------------------------------------------------------------------
  // Name normalization

  /** Remove the first occurrence of the first marker, in `markers` order, that occurs in `name`. */
  function CutFirstMarker(name: string, markers: seq<string>): string
  {
    if markers == [] then name
    else
      match Find(name, markers[0])
      case Some(i) => name[..i] + name[i + |markers[0]|..]
      case None => CutFirstMarker(name, markers[1..])
  }

  /** No marker occurs anywhere in `name`. */
  predicate NoMarker(name: string, markers: seq<string>)
  {
    forall k, j :: 0 <= k < |markers| && 0 <= j <= |name| ==> !OccursAt(name, markers[k], j)
  }

  /**
   * `markers[k]` is the marker that gets cut, at `i`: it occurs first at `i`, and no marker
   * before it occurs anywhere in `name`.
   */
  predicate CutAt(name: string, markers: seq<string>, k: nat, i: nat)
  {
    && k < |markers|
    && OccursAt(name, markers[k], i)
    && (forall j :: 0 <= j < i ==> !OccursAt(name, markers[k], j))
    && (forall k', j :: 0 <= k' < k && 0 <= j <= |name| ==> !OccursAt(name, markers[k'], j))
  }

  /** The marker `CutAt` picks is the one `CutFirstMarker` removes. */
  lemma {:induction false} CutFirstMarkerAt(name: string, markers: seq<string>, k: nat, i: nat)
    requires CutAt(name, markers, k, i)
    ensures CutFirstMarker(name, markers) == name[..i] + name[i + |markers[k]|..]
  {
    if k == 0 {
      assert Find(name, markers[0]).Some?;
      assert Find(name, markers[0]).value == i;
    } else {
      assert Find(name, markers[0]).None? by {
        assert forall j :: 0 <= j <= |name| ==> !OccursAt(name, markers[0], j);
      }
      assert CutAt(name, markers[1..], k - 1, i) by {
        forall k', j | 0 <= k' < k - 1 && 0 <= j <= |name|
          ensures !OccursAt(name, markers[1..][k'], j)
        {
          assert markers[1..][k'] == markers[k' + 1];
        }
      }
      CutFirstMarkerAt(name, markers[1..], k - 1, i);
    }
  }

  /** A name that contains no marker is left as it is. */
  lemma {:induction false} CutFirstMarkerUnchanged(name: string, markers: seq<string>)
    requires NoMarker(name, markers)
    ensures CutFirstMarker(name, markers) == name
  {
    if markers != [] {
      assert Find(name, markers[0]).None? by {
        assert forall j :: 0 <= j <= |name| ==> !OccursAt(name, markers[0], j);
      }
      assert NoMarker(name, markers[1..]) by {
        forall k, j | 0 <= k < |markers| - 1 && 0 <= j <= |name|
          ensures !OccursAt(name, markers[1..][k], j)
        {
          assert markers[1..][k] == markers[k + 1];
        }
      }
      CutFirstMarkerUnchanged(name, markers[1..]);
    }
  }

  /**
   * A name that contains some marker has a first one, in `markers` order, and that one's first
   * occurrence is what gets cut.
   */
  lemma {:induction false} SomeMarkerIsCut(name: string, markers: seq<string>) returns (k: nat, i: nat)
    requires !NoMarker(name, markers)
    ensures CutAt(name, markers, k, i)
    ensures CutFirstMarker(name, markers) == name[..i] + name[i + |markers[k]|..]
  {
    match Find(name, markers[0])
    case Some(at) =>
      k, i := 0, at;
    case None =>
      assert !NoMarker(name, markers[1..]) by {
        var k', j :| 0 <= k' < |markers| && 0 <= j <= |name| && OccursAt(name, markers[k'], j);
        assert k' != 0;
        assert markers[1..][k' - 1] == markers[k'];
      }
      var k1, i1 := SomeMarkerIsCut(name, markers[1..]);
      k, i := k1 + 1, i1;
      assert markers[1..][k1] == markers[k];
      forall k', j | 0 <= k' < k && 0 <= j <= |name|
        ensures !OccursAt(name, markers[k'], j)
      {
        if k' > 0 {
          assert markers[1..][k' - 1] == markers[k'];
        }
      }
  }

  /** Where no character of `s[lo..hi]` starts `sub`, no occurrence of `sub` starts. */
  lemma AbsentByFirstChar(s: string, sub: string, lo: nat, hi: nat)
    requires sub != [] && forall j :: lo <= j < hi && j < |s| ==> s[j] != sub[0]
    ensures forall j :: lo <= j < hi ==> !OccursAt(s, sub, j)
  {
    forall j | lo <= j < hi
      ensures !OccursAt(s, sub, j)
    {
      if j + |sub| <= |s| {
        assert s[j..j + |sub|][0] == s[j] != sub[0];
      }
    }
  }

  /** `normalize_latlong_column_name(name, markers)`. */
  function Normalize(name: string, markers: seq<string>): string
  {
    CutFirstMarker(Lower(Strip(name)), markers)
  }

  function NormLat(name: string): string { Normalize(name, Latitude) }
  function NormLong(name: string): string { Normalize(name, Longitude) }

  // ---------------------------------------------------------------------------
  // The pairing, over column positions

  /** `normalized_lat`: each normalized latitude name maps to the last column that has it. */
  function LatIndex(normLat: string -> string, names: seq<string>): (m: map<string, nat>)
    ensures forall key :: key in m ==> m[key] < |names| && normLat(names[m[key]]) == key
    ensures forall i :: 0 <= i < |names| ==> normLat(names[i]) in m && i <= m[normLat(names[i])]
  {
    if names == [] then map[]
    else LatIndex(normLat, names[..|names| - 1])[normLat(names[|names| - 1]) := |names| - 1]
  }

  /** One more latitude column. */
  lemma LatIndexSnoc(normLat: string -> string, names: seq<string>, i: nat)
    requires i < |names|
    ensures LatIndex(normLat, names[..i + 1]) == LatIndex(normLat, names[..i])[normLat(names[i]) := i]
  {
    assert names[..i + 1][..i] == names[..i];
  }

  /**
   * The state after the loop over the longitude columns: what is left of `normalized_lat`, the
   * matched `(latitude, longitude)` positions and the positions of the unmatched longitudes.
   */
  datatype Matching = Matching(remaining: map<string, nat>, matched: seq<(nat, nat)>, missedLong: seq<nat>)

  function Match(normLat: string -> string, normLong: string -> string, latNames: seq<string>, longNames: seq<string>): (m: Matching)
    ensures forall key :: key in m.remaining ==> m.remaining[key] < |latNames|
    ensures forall p :: 0 <= p < |m.matched| ==> m.matched[p].0 < |latNames| && m.matched[p].1 < |longNames|
    ensures forall p :: 0 <= p < |m.missedLong| ==> m.missedLong[p] < |longNames|
  {
    if longNames == [] then Matching(LatIndex(normLat, latNames), [], [])
    else
      var prev := Match(normLat, normLong, latNames, longNames[..|longNames| - 1]);
      MatchStep(prev, normLong(longNames[|longNames| - 1]), |longNames| - 1)
  }

  /** The longitude column at `j`, whose normalized name is `key`, takes its latitude or is missed. */
  function MatchStep(prev: Matching, key: string, j: nat): Matching
  {
    if key in prev.remaining then
      Matching(prev.remaining - {key}, prev.matched + [(prev.remaining[key], j)], prev.missedLong)
    else
      Matching(prev.remaining, prev.matched, prev.missedLong + [j])
  }

  /** One more longitude column. */
  lemma MatchSnoc(normLat: string -> string, normLong: string -> string, latNames: seq<string>, longNames: seq<string>, j: nat)
    requires j < |longNames|
    ensures Match(normLat, normLong, latNames, longNames[..j + 1])
      == MatchStep(Match(normLat, normLong, latNames, longNames[..j]), normLong(longNames[j]), j)
  {
    assert longNames[..j + 1][..j] == longNames[..j];
  }

  /** What is left of `normalized_lat` is a part of it. */
  predicate RemainingFromIndex(index: map<string, nat>, m: Matching)
  {
    forall key :: key in m.remaining ==> key in index && m.remaining[key] == index[key]
  }

  /**
   * Every pair joins a longitude with the latitude `normalized_lat` gives for its normalized
   * name, and that name has been popped.
   */
  predicate PairsFromIndex(normLong: string -> string, longNames: seq<string>, index: map<string, nat>, m: Matching)
  {
    forall p :: 0 <= p < |m.matched| ==>
      && m.matched[p].1 < |longNames|
      && normLong(longNames[m.matched[p].1]) in index
      && index[normLong(longNames[m.matched[p].1])] == m.matched[p].0
      && normLong(longNames[m.matched[p].1]) !in m.remaining
  }

  /** Pairs and missed longitudes come in longitude order, and every longitude is one of them. */
  predicate InLongitudeOrder(longNames: seq<string>, m: Matching)
  {
    && (forall p, q :: 0 <= p < q < |m.matched| ==> m.matched[p].1 < m.matched[q].1)
    && (forall p, q :: 0 <= p < q < |m.missedLong| ==> m.missedLong[p] < m.missedLong[q])
    && |m.matched| + |m.missedLong| == |longNames|
  }

  /** No latitude column is used twice. */
  predicate LatitudesDistinct(m: Matching)
  {
    forall p, q :: 0 <= p < q < |m.matched| ==> m.matched[p].0 != m.matched[q].0
  }

  /** The facts the loop keeps about `Match`. */
  predicate MatchInvariant(normLat: string -> string, normLong: string -> string, latNames: seq<string>, longNames: seq<string>, m: Matching)
  {
    var index := LatIndex(normLat, latNames);
    && RemainingFromIndex(index, m)
    && PairsFromIndex(normLong, longNames, index, m)
    && InLongitudeOrder(longNames, m)
    && LatitudesDistinct(m)
  }

  lemma {:induction false} MatchFromIndex(normLat: string -> string, normLong: string -> string, latNames: seq<string>, longNames: seq<string>)
    ensures var m := Match(normLat, normLong, latNames, longNames);
      RemainingFromIndex(LatIndex(normLat, latNames), m) && PairsFromIndex(normLong, longNames, LatIndex(normLat, latNames), m)
  {
    if longNames != [] {
      var front := longNames[..|longNames| - 1];
      MatchFromIndex(normLat, normLong, latNames, front);
      var prev := Match(normLat, normLong, latNames, front);
      var index := LatIndex(normLat, latNames);
      var j := |longNames| - 1;
      var key := normLong(longNames[j]);
      var m := Match(normLat, normLong, latNames, longNames);
      assert m == MatchStep(prev, key, j);
      forall p | 0 <= p < |prev.matched|
        ensures longNames[prev.matched[p].1] == front[prev.matched[p].1]
      {
      }
      if key in prev.remaining {
        assert m.matched[|prev.matched|] == (index[key], j);
      }
    }
  }

  lemma {:induction false} MatchInOrder(normLat: string -> string, normLong: string -> string, latNames: seq<string>, longNames: seq<string>)
    ensures InLongitudeOrder(longNames, Match(normLat, normLong, latNames, longNames))
  {
    if longNames != [] {
      MatchInOrder(normLat, normLong, latNames, longNames[..|longNames| - 1]);
    }
  }

  lemma {:induction false} MatchLatitudesDistinct(normLat: string -> string, normLong: string -> string, latNames: seq<string>, longNames: seq<string>)
    ensures LatitudesDistinct(Match(normLat, normLong, latNames, longNames))
  {
    if longNames != [] {
      var front := longNames[..|longNames| - 1];
      MatchLatitudesDistinct(normLat, normLong, latNames, front);
      MatchFromIndex(normLat, normLong, latNames, front);
      var prev := Match(normLat, normLong, latNames, front);
      var index := LatIndex(normLat, latNames);
      var key := normLong(longNames[|longNames| - 1]);
      if key in prev.remaining {
        forall p | 0 <= p < |prev.matched|
          ensures prev.matched[p].0 != prev.remaining[key]
        {
          var other := normLong(front[prev.matched[p].1]);
          assert normLat(latNames[index[other]]) == other;
          assert normLat(latNames[index[key]]) == key;
        }
      }
    }
  }

  lemma MatchKeepsInvariant(normLat: string -> string, normLong: string -> string, latNames: seq<string>, longNames: seq<string>)
    ensures MatchInvariant(normLat, normLong, latNames, longNames, Match(normLat, normLong, latNames, longNames))
  {
    MatchFromIndex(normLat, normLong, latNames, longNames);
    MatchInOrder(normLat, normLong, latNames, longNames);
    MatchLatitudesDistinct(normLat, normLong, latNames, longNames);
  }

  /** The positions below `n` that are values of `m`, ascending: `sorted(normalized_lat.values())`. */
  function Ascending(n: nat, m: map<string, nat>): (r: seq<nat>)
    ensures forall p :: 0 <= p < |r| ==> r[p] < n && r[p] in m.Values
    ensures forall i :: 0 <= i < n && i in m.Values ==> i in r
    ensures forall p, q :: 0 <= p < q < |r| ==> r[p] < r[q]
  {
    if n == 0 then []
    else if n - 1 in m.Values then Ascending(n - 1, m) + [n - 1]
    else Ascending(n - 1, m)
  }

  /** The names at the given positions. */
  function NamesAt<V>(cols: seq<(string, V)>, at: seq<nat>): (r: seq<string>)
    requires forall p :: 0 <= p < |at| ==> at[p] < |cols|
    ensures |r| == |at| && forall p :: 0 <= p < |at| ==> r[p] == cols[at[p]].0
  {
    seq(|at|, p requires 0 <= p < |at| => cols[at[p]].0)
  }

  function Names<V>(cols: seq<(string, V)>): (r: seq<string>)
    ensures |r| == |cols| && forall i :: 0 <= i < |cols| ==> r[i] == cols[i].0
  {
    seq(|cols|, i requires 0 <= i < |cols| => cols[i].0)
  }

  // ---------------------------------------------------------------------------
  // The method

  /** The first loop of `pair_latlong_columns`: fill `normalized_lat`. */
  method NormalizeLatitudes<V>(normLat: string -> string, columnsLat: seq<(string, V)>) returns (normalizedLat: map<string, nat>)
    ensures normalizedLat == LatIndex(normLat, Names(columnsLat))
  {
    var latNames := Names(columnsLat);
    normalizedLat := map[];
    var i := 0;
    while i < |columnsLat|
      invariant 0 <= i <= |columnsLat|
      invariant normalizedLat == LatIndex(normLat, latNames[..i])
    {
      LatIndexSnoc(normLat, latNames, i);
      normalizedLat := normalizedLat[normLat(columnsLat[i].0) := i];
      i := i + 1;
    }
    assert latNames[..i] == latNames;
  }

  /** What the second loop has built so far, against the matching it tracks. */
  ghost predicate LoopTracks<V>(columnsLat: seq<(string, V)>, columnsLong: seq<(string, V)>, pairs: seq<((string, V), (string, V))>, missedLong: seq<string>, m: Matching)
  {
    && |pairs| == |m.matched|
    && (forall p :: 0 <= p < |pairs| ==>
          m.matched[p].0 < |columnsLat| && m.matched[p].1 < |columnsLong| && pairs[p] == (columnsLat[m.matched[p].0], columnsLong[m.matched[p].1]))
    && |missedLong| == |m.missedLong|
    && (forall p :: 0 <= p < |m.missedLong| ==> m.missedLong[p] < |columnsLong| && missedLong[p] == columnsLong[m.missedLong[p]].0)
  }

  /** The second loop: match each longitude column, popping the latitude it takes. */
  method MatchLongitudes<V>(normLat: string -> string, normLong: string -> string, columnsLat: seq<(string, V)>, columnsLong: seq<(string, V)>, index: map<string, nat>)
    returns (pairs: seq<((string, V), (string, V))>, missedLong: seq<string>, normalizedLat: map<string, nat>)
    requires index == LatIndex(normLat, Names(columnsLat))
    ensures var m := Match(normLat, normLong, Names(columnsLat), Names(columnsLong));
      && |pairs| == |m.matched|
      && (forall p :: 0 <= p < |pairs| ==> pairs[p] == (columnsLat[m.matched[p].0], columnsLong[m.matched[p].1]))
      && missedLong == NamesAt(columnsLong, m.missedLong)
      && normalizedLat == m.remaining
  {
    var latNames := Names(columnsLat);
    var longNames := Names(columnsLong);
    normalizedLat := index;
    pairs := [];
    missedLong := [];
    ghost var matched: seq<(nat, nat)> := [];
    ghost var missedAt: seq<nat> := [];
    var j := 0;
    while j < |columnsLong|
      invariant 0 <= j <= |columnsLong|
      invariant Match(normLat, normLong, latNames, longNames[..j]) == Matching(normalizedLat, matched, missedAt)
      invariant LoopTracks(columnsLat, columnsLong, pairs, missedLong, Matching(normalizedLat, matched, missedAt))
    {
      MatchSnoc(normLat, normLong, latNames, longNames, j);
      assert columnsLong[j].0 == longNames[j];
      normalizedLat, pairs, missedLong, matched, missedAt :=
        MatchOne(normLong, columnsLat, columnsLong, j, normalizedLat, pairs, missedLong, matched, missedAt);
      j := j + 1;
    }
    assert longNames[..j] == longNames;
  }

  /** One turn of the second loop, on the longitude column at `j`. */
  method MatchOne<V>(normLong: string -> string, columnsLat: seq<(string, V)>, columnsLong: seq<(string, V)>, j: nat,
      normalizedLat: map<string, nat>, pairs: seq<((string, V), (string, V))>, missedLong: seq<string>, ghost matched: seq<(nat, nat)>, ghost missedAt: seq<nat>)
    returns (normalizedLat': map<string, nat>, pairs': seq<((string, V), (string, V))>, missedLong': seq<string>, ghost matched': seq<(nat, nat)>, ghost missedAt': seq<nat>)
    requires j < |columnsLong|
    requires forall key :: key in normalizedLat ==> normalizedLat[key] < |columnsLat|
    requires LoopTracks(columnsLat, columnsLong, pairs, missedLong, Matching(normalizedLat, matched, missedAt))
    ensures Matching(normalizedLat', matched', missedAt') == MatchStep(Matching(normalizedLat, matched, missedAt), normLong(columnsLong[j].0), j)
    ensures LoopTracks(columnsLat, columnsLong, pairs', missedLong', Matching(normalizedLat', matched', missedAt'))
  {
    var name := columnsLong[j].0;
    var normName := normLong(name);
    if normName in normalizedLat {
      pairs' := pairs + [(columnsLat[normalizedLat[normName]], columnsLong[j])];
      matched' := matched + [(normalizedLat[normName], j)];
      normalizedLat' := normalizedLat - {normName};
      missedLong', missedAt' := missedLong, missedAt;
    } else {
      normalizedLat', pairs', matched' := normalizedLat, pairs, matched;
      missedLong' := missedLong + [name];
      missedAt' := missedAt + [j];
    }
  }

  /** The last step: `[columns_lat[i][0] for i in sorted(normalized_lat.values())]`, walking the positions in order. */
  method LeftoverNames<V>(columnsLat: seq<(string, V)>, normalizedLat: map<string, nat>) returns (missedLat: seq<string>)
    ensures missedLat == NamesAt(columnsLat, Ascending(|columnsLat|, normalizedLat))
  {
    missedLat := [];
    ghost var at: seq<nat> := [];
    var k := 0;
    while k < |columnsLat|
      invariant 0 <= k <= |columnsLat|
      invariant at == Ascending(k, normalizedLat)
      invariant missedLat == NamesAt(columnsLat, at)
    {
      if k in normalizedLat.Values {
        missedLat := missedLat + [columnsLat[k].0];
        at := at + [k];
      }
      k := k + 1;
    }
  }

  /**
   * `pair_latlong_columns(columns_lat, columns_long)`: the pairs of columns, then the latitude
   * names left over in column order and the longitude names that found no match.
   */
  method PairLatlongColumns<V>(columnsLat: seq<(string, V)>, columnsLong: seq<(string, V)>)
    returns (pairs: seq<((string, V), (string, V))>, missedLat: seq<string>, missedLong: seq<string>)
    ensures var m := Match(NormLat, NormLong, Names(columnsLat), Names(columnsLong));
      && MatchInvariant(NormLat, NormLong, Names(columnsLat), Names(columnsLong), m)
      && |pairs| == |m.matched|
      && (forall p :: 0 <= p < |pairs| ==> pairs[p] == (columnsLat[m.matched[p].0], columnsLong[m.matched[p].1]))
      && missedLong == NamesAt(columnsLong, m.missedLong)
      && missedLat == NamesAt(columnsLat, Ascending(|columnsLat|, m.remaining))
  {
    var index := NormalizeLatitudes(NormLat, columnsLat);
    var remaining;
    pairs, missedLong, remaining := MatchLongitudes(NormLat, NormLong, columnsLat, columnsLong, index);
    missedLat := LeftoverNames(columnsLat, remaining);
    MatchKeepsInvariant(NormLat, NormLong, Names(columnsLat), Names(columnsLong));
  }

  // ---------------------------------------------------------------------------
  // Properties

  /**
   * A latitude column whose normalized name a later latitude column shares is overwritten in
   * `normalized_lat`: it is in no pair and not among the missed latitudes.
   */
  lemma OverwrittenLatitudeVanishes(normLat: string -> string, normLong: string -> string, latNames: seq<string>, longNames: seq<string>, i: nat, j: nat)
    requires i < j < |latNames| && normLat(latNames[i]) == normLat(latNames[j])
    ensures var m := Match(normLat, normLong, latNames, longNames);
      && (forall p :: 0 <= p < |m.matched| ==> m.matched[p].0 != i)
      && i !in Ascending(|latNames|, m.remaining)
  {
    MatchKeepsInvariant(normLat, normLong, latNames, longNames);
    var m := Match(normLat, normLong, latNames, longNames);
    var index := LatIndex(normLat, latNames);
    assert index[normLat(latNames[i])] >= j;
    forall p | 0 <= p < |m.matched|
      ensures m.matched[p].0 != i
    {
      var key := normLong(longNames[m.matched[p].1]);
      assert normLat(latNames[index[key]]) == key;
    }
    var left := Ascending(|latNames|, m.remaining);
    forall p | 0 <= p < |left|
      ensures left[p] != i
    {
      assert left[p] in m.remaining.Values;
      var key :| key in m.remaining && m.remaining[key] == left[p];
      assert normLat(latNames[index[key]]) == key;
    }
  }

  // ---------------------------------------------------------------------------
  // Worked examples of the normalization

  /** A name that is nothing but the marker normalizes to the empty string. */
  lemma NormalizeLatitudeAlone(name: string, markers: seq<string>)
    requires name == "latitude" && markers == Latitude
    ensures Normalize(name, markers) == ""
  {
    StripUnchanged(name);
    LowerLatitude(name);
    CutLatitude(name, markers);
  }

  lemma CutLatitude(name: string, markers: seq<string>)
    requires name == "latitude" && markers == Latitude
    ensures CutFirstMarker(name, markers) == ""
  {
    assert OccursAt(name, markers[0], 0);
    CutFirstMarkerAt(name, markers, 0, 0);
  }

  lemma LowerLatitude(name: string)
    requires name == "latitude"
    ensures Lower(name) == name
  {
  }

  lemma LowerStartLonDeg(name: string, low: string)
    requires name == "start_Lon_deg" && low == "start_lon_deg"
    ensures Lower(name) == low
  {
  }

  /** Neither `longitude` nor `long` occurs in `start_lon_deg`, so `lon` is the marker cut. */
  lemma LonIsTheMarker(low: string)
    requires low == "start_lon_deg"
    ensures CutAt(low, Longitude, 2, 6)
  {
    AbsentByFirstChar(low, Longitude[0], 0, 6);
    AbsentByFirstChar(low, Longitude[0], 7, |low| + 1);
    assert !OccursAt(low, Longitude[0], 6);
    AbsentByFirstChar(low, Longitude[1], 0, 6);
    AbsentByFirstChar(low, Longitude[1], 7, |low| + 1);
    assert low[6..10][3] == low[9] == '_';
    assert !OccursAt(low, Longitude[1], 6);
    AbsentByFirstChar(low, Longitude[2], 0, 6);
    assert OccursAt(low, Longitude[2], 6);
  }

  /** `'start_Lon_deg'` becomes `'start__deg'`: only the first marker found is removed. */
  lemma NormalizeStartLonDeg(name: string, low: string, markers: seq<string>)
    requires name == "start_Lon_deg" && low == "start_lon_deg" && markers == Longitude
    ensures Normalize(name, markers) == "start__deg"
  {
    StripUnchanged(name);
    LowerStartLonDeg(name, low);
    CutStartLonDeg(low, markers);
  }

  lemma CutStartLonDeg(low: string, markers: seq<string>)
    requires low == "start_lon_deg" && markers == Longitude
    ensures CutFirstMarker(low, markers) == "start__deg"
  {
    LonIsTheMarker(low);
    CutFirstMarkerAt(low, markers, 2, 6);
    assert low[..6] + low[9..] == "start__deg";
  }
}
