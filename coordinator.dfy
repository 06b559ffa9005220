/**
 * The coordinator's bounded list of recent discoveries (`RecentList`) and the summary it stores for
 * each discovered dataset (`Coordinator.build_discovery`).
 */
module Coordinator {
  import opened Wrappers
  import opened Seqs
  import opened Json

  /** `NB_RECENT`: how many recent discoveries the coordinator keeps. */
  const NbRecent: nat := 15

  // ---------------------------------------------------------------------------
  // Specification of the list operations, on the sequence of (key, value) entries
  // ---------------------------------------------------------------------------

  /** `list(itertools.islice(init, size))`: the first `size` entries. */
  function Islice<T>(s: seq<T>, size: nat): (r: seq<T>)
    ensures |r| <= size && r <= s
    ensures |s| <= size ==> r == s
    ensures |s| >= size ==> |r| == size
  {
    if |s| <= size then s else s[..size]
  }

  /** The position of the first entry with this key, if any. */
  function IndexOf<K(==), V>(items: seq<(K, V)>, key: K): (r: Option<nat>)
    ensures r.Some? ==> r.value < |items| && items[r.value].0 == key
    ensures r.Some? ==> forall j :: 0 <= j < r.value ==> items[j].0 != key
    ensures r.None? <==> forall j :: 0 <= j < |items| ==> items[j].0 != key
  {
    if items == [] then None
    else if items[0].0 == key then Some(0)
    else
      match IndexOf(items[1..], key)
      case Some(i) => Some(i + 1)
      case None => None
  }

  /** No two entries share a key. */
  predicate DistinctKeys<K(==), V>(items: seq<(K, V)>)
  {
    forall i, j :: 0 <= i < j < |items| ==> items[i].0 != items[j].0
  }

  /** The entries after `insert_or_replace(key, value)`. */
  function InsertedOrReplaced<K(==), V>(items: seq<(K, V)>, size: nat, key: K, value: V): seq<(K, V)>
  {
    match IndexOf(items, key)
    case Some(i) => items[i := (key, value)]
    case None => Islice([(key, value)] + items, size)
  }

  /** `__iter__`: the values, in list order. */
  function ValuesOf<K, V>(items: seq<(K, V)>): (r: seq<V>)
    ensures |r| == |items| && forall i :: 0 <= i < |items| ==> r[i] == items[i].1
  {
    if items == [] then [] else [items[0].1] + ValuesOf(items[1..])
  }

  /** The list never grows beyond `size`. */
  lemma InsertKeepsBound<K, V>(items: seq<(K, V)>, size: nat, key: K, value: V)
    requires |items| <= size
    ensures |InsertedOrReplaced(items, size, key, value)| <= size
  {
  }

  /**
   * A key already present is replaced where it stands: the length and every other entry are
   * unchanged.
   */
  lemma {:induction false} ReplaceInPlace<K, V>(items: seq<(K, V)>, size: nat, key: K, value: V)
    requires DistinctKeys(items) && exists i :: 0 <= i < |items| && items[i].0 == key
    ensures var r := InsertedOrReplaced(items, size, key, value);
      |r| == |items| && forall j :: 0 <= j < |items| ==> r[j] == if items[j].0 == key then (key, value) else items[j]
  {
    var i :| 0 <= i < |items| && items[i].0 == key;
    var k := IndexOf(items, key);
    assert k == Some(k.value);
    assert k.value == i;
  }

  /**
   * A new key goes to the front, every other entry moves one place back, and the oldest ones beyond
   * `size` are dropped.
   */
  lemma InsertAtFront<K, V>(items: seq<(K, V)>, size: nat, key: K, value: V)
    requires forall j :: 0 <= j < |items| ==> items[j].0 != key
    ensures var r := InsertedOrReplaced(items, size, key, value);
      && |r| == Min(size, |items| + 1)
      && (size > 0 ==> r[0] == (key, value))
      && forall j :: 0 <= j < |items| && j + 1 < size ==> r[j + 1] == items[j]
  {
  }

  /** Keys stay pairwise distinct. */
  lemma {:induction false} InsertKeepsDistinct<K, V>(items: seq<(K, V)>, size: nat, key: K, value: V)
    requires DistinctKeys(items)
    ensures DistinctKeys(InsertedOrReplaced(items, size, key, value))
  {
    var r := InsertedOrReplaced(items, size, key, value);
    match IndexOf(items, key)
    case Some(i) =>
      forall a, b | 0 <= a < b < |r|
        ensures r[a].0 != r[b].0
      {
        if a == i {
          assert r[b] == items[b];
        } else if b == i {
          assert r[a] == items[a];
        } else {
          assert r[a] == items[a] && r[b] == items[b];
        }
      }
    case None =>
      var n := [(key, value)] + items;
      assert DistinctKeys(n) by {
        forall a, b | 0 <= a < b < |n|
          ensures n[a].0 != n[b].0
        {
          if a == 0 {
            assert n[b] == items[b - 1];
          } else {
            assert n[a] == items[a - 1] && n[b] == items[b - 1];
          }
        }
      }
  }

  /** Once inserted, the value is listed, unless the list has no room at all. */
  lemma {:induction false} InsertedIsListed<K, V>(items: seq<(K, V)>, size: nat, key: K, value: V)
    requires size > 0
    ensures var r := InsertedOrReplaced(items, size, key, value);
      (key, value) in r && value in ValuesOf(r)
  {
    var r := InsertedOrReplaced(items, size, key, value);
    match IndexOf(items, key)
    case Some(i) =>
      assert r[i] == (key, value);
    case None =>
      assert r[0] == (key, value);
  }

  // ---------------------------------------------------------------------------
  // The list itself
  // ---------------------------------------------------------------------------

  /** `RecentList(size, init)`: the most recent entries first, at most `size` of them. */
  class RecentList<K(==), V> {
    var size: nat
    var items: seq<(K, V)>

    ghost predicate Valid()
      reads this
    {
      |items| <= size
    }

    /** `init` is `None` when no initial entries are given. */
    constructor(size: nat, init: Option<seq<(K, V)>>)
      ensures Valid() && this.size == size
      ensures items == match init case Some(s) => Islice(s, size) case None => []
    {
      this.size := size;
      match init
      case Some(s) =>
        items := Islice(s, size);
      case None =>
        items := [];
    }

    method InsertOrReplace(key: K, value: V)
      requires Valid()
      modifies this
      ensures Valid() && size == old(size)
      ensures items == InsertedOrReplaced(old(items), size, key, value)
    {
      var i := 0;
      while i < |items|
        invariant 0 <= i <= |items| && items == old(items)
        invariant forall j :: 0 <= j < i ==> items[j].0 != key
      {
        if items[i].0 == key {
          items := items[i := (key, value)];
          return;
        }
        i := i + 1;
      }
      items := [(key, value)] + items;
      if |items| > size {
        items := items[..size];
      }
    }

    /** `__iter__`. */
    function Values(): (r: seq<V>)
      reads this
      ensures |r| == |items| && forall i :: 0 <= i < |items| ==> r[i] == items[i].1
    {
      ValuesOf(items)
    }
  }

  // ---------------------------------------------------------------------------
  // build_discovery
  // ---------------------------------------------------------------------------

  /**
   * `Coordinator.build_discovery(dataset_id, metadata)`. A `materialize` entry that is not a dict
   * raises `AttributeError` on `.get`, which is the error here.
   */
  function BuildDiscovery(datasetId: string, metadata: Dict): (r: Result<Dict>)
    ensures r.Ok? <==> ("materialize" !in metadata || metadata["materialize"].Obj?)
    ensures r.Ok? ==> r.value.Keys == {"id", "discoverer", "discovered", "profiled", "name", "types"}
  {
    var materialize := Get(metadata, "materialize", Obj(map[]));
    if !materialize.Obj? then Err("AttributeError: 'get'")
    else
      Ok(map[
        "id" := Str(datasetId),
        "discoverer" := Get(materialize.fields, "identifier", Str("(unknown)")),
        "discovered" := Get(materialize.fields, "date", Str("???")),
        "profiled" := Get(metadata, "date", Str("???")),
        "name" := Get(metadata, "name", Null),
        "types" := Get(metadata, "types", Null)])
  }

  /**
   * The summary carries the dataset's id and the metadata's own fields where they exist, and the
   * defaults `(unknown)`, `???` and `None` where they do not.
   */
  lemma BuildDiscoveryFields(datasetId: string, metadata: Dict)
    requires "materialize" !in metadata || metadata["materialize"].Obj?
    ensures var d := BuildDiscovery(datasetId, metadata).value;
      var m := if "materialize" in metadata then metadata["materialize"].fields else map[];
      && d["id"] == Str(datasetId)
      && d["discoverer"] == (if "identifier" in m then m["identifier"] else Str("(unknown)"))
      && d["discovered"] == (if "date" in m then m["date"] else Str("???"))
      && d["profiled"] == (if "date" in metadata then metadata["date"] else Str("???"))
      && d["name"] == (if "name" in metadata then metadata["name"] else Null)
      && d["types"] == (if "types" in metadata then metadata["types"] else Null)
  {
  }

  /** With no metadata at all, every field takes its default. */
  lemma BuildDiscoveryDefaults(datasetId: string)
    ensures BuildDiscovery(datasetId, map[]) == Ok(map[
      "id" := Str(datasetId), "discoverer" := Str("(unknown)"), "discovered" := Str("???"),
      "profiled" := Str("???"), "name" := Null, "types" := Null])
  {
  }
}
