/**
 * Address resolution through Nominatim in `nominatim_resolve_all` and `_nominatim_batch`: the
 * stripped non-blank values are counted, short ones are looked up in a cache or gathered into a
 * batch of distinct values with their multiplicities, and every full batch is sent to the service
 * at once. The service is the parameter `geocode`, which answers one query with a location or
 * nothing; retries, HTTP errors and the split of a failing batch are not modelled.
 */
module SpatialNominatim {
  import opened Wrappers
  import opened PyStr
  import opened Seqs

  const MaxAddressLength: nat := 90
  const MaxNominatimRequests: nat := 200
  const NominatimBatchSize: nat := 30

  // ---------------------------------------------------------------------------
  // The batch: a dict from value to count, in insertion order
  // ---------------------------------------------------------------------------

  datatype Batch = Batch(keys: seq<string>, counts: map<string, nat>)

  const EmptyBatch: Batch := Batch([], map[])

  /** The keys are the dict's keys, each once, in insertion order. */
  ghost predicate ValidBatch(b: Batch)
  {
    NoDuplicates(b.keys) && forall k :: k in b.counts <==> k in b.keys
  }

  /** `[loc] * count`. */
  function Repeat<L>(x: L, n: nat): (r: seq<L>)
    ensures |r| == n && forall k :: 0 <= k < n ==> r[k] == x
  {
    seq(n, _ => x)
  }

  /** `[loc] * count` for a value the service finds, nothing for one it does not. */
  function FoundOne<L>(v: string, count: nat, geocode: string -> Option<L>): (r: seq<L>)
    ensures |r| == (if geocode(v).Some? then count else 0)
  {
    match geocode(v)
    case Some(loc) => Repeat(loc, count)
    case None => []
  }

  /** The locations a batch contributes: each found value's location, as many times as it was seen. */
  function Found<L>(keys: seq<string>, counts: map<string, nat>, geocode: string -> Option<L>): seq<L>
    requires forall k :: k in keys ==> k in counts
  {
    if keys == [] then []
    else
      var v := keys[|keys| - 1];
      Found(keys[..|keys| - 1], counts, geocode) + FoundOne(v, counts[v], geocode)
  }

  /** The occurrences of the values the service did not find. */
  function Missed<L>(keys: seq<string>, counts: map<string, nat>, geocode: string -> Option<L>): nat
    requires forall k :: k in keys ==> k in counts
  {
    if keys == [] then 0
    else
      var v := keys[|keys| - 1];
      Missed(keys[..|keys| - 1], counts, geocode) + (if geocode(v).Some? then 0 else counts[v])
  }

  /** The cache entries a batch adds: the service's answer for each value, `None` when not found. */
  function Answers<L>(keys: seq<string>, geocode: string -> Option<L>): (m: map<string, Option<L>>)
    ensures forall k :: k in m <==> k in keys
    ensures forall k :: k in m ==> m[k] == geocode(k)
  {
    if keys == [] then map[]
    else
      var v := keys[|keys| - 1];
      Answers(keys[..|keys| - 1], geocode)[v := geocode(v)]
  }

  /** `nominatim_query(url, q=list(batch.keys()))`: one answer per query, in order. */
  function Query<L>(keys: seq<string>, geocode: string -> Option<L>): (r: seq<Option<L>>)
    ensures |r| == |keys| && forall i :: 0 <= i < |keys| ==> r[i] == geocode(keys[i])
  {
    seq(|keys|, i requires 0 <= i < |keys| => geocode(keys[i]))
  }

  lemma BatchStep<L>(keys: seq<string>, i: nat, counts: map<string, nat>, geocode: string -> Option<L>)
    requires i < |keys| && forall k :: k in keys ==> k in counts
    ensures forall k :: k in keys[..i] ==> k in counts
    ensures Found(keys[..i + 1], counts, geocode) ==
      Found(keys[..i], counts, geocode) + FoundOne(keys[i], counts[keys[i]], geocode)
    ensures Missed(keys[..i + 1], counts, geocode) ==
      Missed(keys[..i], counts, geocode) + (if geocode(keys[i]).Some? then 0 else counts[keys[i]])
    ensures Answers(keys[..i + 1], geocode) == Answers(keys[..i], geocode)[keys[i] := geocode(keys[i])]
  {
    assert keys[..i + 1][..i] == keys[..i];
    assert forall k :: k in keys[..i + 1] ==> k in keys;
  }

  lemma AppendAssoc<T>(a: seq<T>, b: seq<T>, c: seq<T>)
    ensures a + (b + c) == (a + b) + c
  {
  }

  lemma UnionUpdate<K, V>(a: map<K, V>, b: map<K, V>, k: K, v: V)
    ensures a + b[k := v] == (a + b)[k := v]
  {
  }

  /** `_nominatim_batch`: the zip over the answers and the batch items; the caller clears the batch. */
  method NominatimBatch<L>(batch: Batch, locations: seq<L>, cache: map<string, Option<L>>, geocode: string -> Option<L>)
    returns (notFound: nat, newLocations: seq<L>, newCache: map<string, Option<L>>)
    requires ValidBatch(batch)
    ensures notFound == Missed(batch.keys, batch.counts, geocode)
    ensures newLocations == locations + Found(batch.keys, batch.counts, geocode)
    ensures newCache == cache + Answers(batch.keys, geocode)
  {
    var keys := batch.keys;
    var locs := Query(keys, geocode);
    notFound := 0;
    newLocations := locations;
    newCache := cache;
    for i := 0 to |keys|
      invariant notFound == Missed(keys[..i], batch.counts, geocode)
      invariant newLocations == locations + Found(keys[..i], batch.counts, geocode)
      invariant newCache == cache + Answers(keys[..i], geocode)
    {
      BatchStep(keys, i, batch.counts, geocode);
      UnionUpdate(cache, Answers(keys[..i], geocode), keys[i], locs[i]);
      var value := keys[i];
      var count := batch.counts[value];
      AppendAssoc(locations, Found(keys[..i], batch.counts, geocode), FoundOne(value, count, geocode));
      if locs[i].Some? {
        newCache := newCache[value := locs[i]];
        newLocations := newLocations + Repeat(locs[i].value, count);
      } else {
        newCache := newCache[value := None];
        notFound := notFound + count;
      }
    }
    assert keys[..|keys|] == keys;
  }

  // ---------------------------------------------------------------------------
  // The resolution, value by value
  // ---------------------------------------------------------------------------

  /**
   * The state of `nominatim_resolve_all` between two values. `stopped` is the `break`; `sent` (every
   * value sent to the service, in order) and `pending` (the values added to the batch since it was last
   * sent) are not in the source: they let the properties below be stated.
   */
  datatype Resolver<L> = Resolver(
    cache: map<string, Option<L>>,
    locations: seq<L>,
    notFound: nat,
    nonEmpty: nat,
    batch: Batch,
    stopped: bool,
    sent: seq<string>,
    pending: seq<string>)

  function Start<L>(): Resolver<L>
  {
    Resolver(map[], [], 0, 0, EmptyBatch, false, [], [])
  }

  /** `_nominatim_batch` followed by `batch.clear()`. */
  function Flush<L>(r: Resolver<L>, geocode: string -> Option<L>): (f: Resolver<L>)
    requires ValidBatch(r.batch)
  {
    r.(cache := r.cache + Answers(r.batch.keys, geocode),
       locations := r.locations + Found(r.batch.keys, r.batch.counts, geocode),
       notFound := r.notFound + Missed(r.batch.keys, r.batch.counts, geocode),
       sent := r.sent + r.batch.keys,
       batch := EmptyBatch,
       pending := [])
  }

  /** One iteration of the loop over `array`, given `value.strip()`. */
  function Step<L>(r: Resolver<L>, v: string, maxRequests: nat, geocode: string -> Option<L>): (s: Resolver<L>)
    requires ValidBatch(r.batch)
  {
    if r.stopped then r else Counted(r, v, maxRequests, geocode)
  }

  /** `value = value.strip()`; a blank value is skipped, any other one counted in `non_empty`. */
  function Counted<L>(r: Resolver<L>, v: string, maxRequests: nat, geocode: string -> Option<L>): (s: Resolver<L>)
    requires ValidBatch(r.batch)
  {
    if v == [] then r else Visit(r.(nonEmpty := r.nonEmpty + 1), v, maxRequests, geocode)
  }

  /** A counted value: too long, cached, already in the batch, or new. */
  function Visit<L>(r: Resolver<L>, v: string, maxRequests: nat, geocode: string -> Option<L>): (s: Resolver<L>)
    requires ValidBatch(r.batch)
  {
    if |v| > MaxAddressLength then r
    else if v in r.cache then
      if r.cache[v].Some? then r.(locations := r.locations + [r.cache[v].value]) else r
    else if v in r.batch.counts then
      r.(batch := r.batch.(counts := r.batch.counts[v := r.batch.counts[v] + 1]), pending := r.pending + [v])
    else AddNew(r, v, maxRequests, geocode)
  }

  /** `batch[value] = 1`, and the batch is sent when it is full; the loop stops once the cache is big enough. */
  function AddNew<L>(r: Resolver<L>, v: string, maxRequests: nat, geocode: string -> Option<L>): (s: Resolver<L>)
    requires ValidBatch(r.batch) && v !in r.batch.counts
  {
    var r := r.(batch := Batch(r.batch.keys + [v], r.batch.counts[v := 1]), pending := r.pending + [v]);
    if |r.batch.keys| == NominatimBatchSize then
      var f := Flush(r, geocode);
      f.(stopped := |f.cache| >= maxRequests)
    else r
  }

  /** The state after the loop has seen `values`. */
  function Run<L>(values: seq<string>, maxRequests: nat, geocode: string -> Option<L>): (r: Resolver<L>)
    ensures ValidBatch(r.batch)
  {
    if values == [] then Start()
    else
      var prev := Run(values[..|values| - 1], maxRequests, geocode);
      StepKeepsValid(prev, Strip(values[|values| - 1]), maxRequests, geocode);
      Step(prev, Strip(values[|values| - 1]), maxRequests, geocode)
  }

  lemma StepKeepsValid<L>(r: Resolver<L>, v: string, maxRequests: nat, geocode: string -> Option<L>)
    requires ValidBatch(r.batch)
    ensures ValidBatch(Step(r, v, maxRequests, geocode).batch)
  {
    if !r.stopped && v != [] && |v| <= MaxAddressLength && v !in r.cache && v !in r.batch.counts {
      var b := r.batch;
      assert ValidBatch(Batch(b.keys + [v], b.counts[v := 1]));
    }
  }

  /** The batch left over after the loop is sent only while the request budget is not used up. */
  function Finish<L>(r: Resolver<L>, maxRequests: nat, geocode: string -> Option<L>): Resolver<L>
    requires ValidBatch(r.batch)
  {
    if |r.batch.keys| > 0 && |r.cache| < maxRequests then Flush(r, geocode) else r
  }

  function Resolved<L>(values: seq<string>, maxRequests: nat, geocode: string -> Option<L>): Resolver<L>
  {
    Finish(Run(values, maxRequests, geocode), maxRequests, geocode)
  }

  /** The loop variables of the method agree with a state of the model. */
  ghost predicate Agrees<L>(r: Resolver<L>, cache: map<string, Option<L>>, locations: seq<L>, notFound: nat, nonEmpty: nat,
                      batch: Batch, stopped: bool)
  {
    r.cache == cache && r.locations == locations && r.notFound == notFound && r.nonEmpty == nonEmpty &&
    r.batch == batch && r.stopped == stopped
  }

  lemma {:induction false} RunStaysStopped<L>(values: seq<string>, i: nat, maxRequests: nat, geocode: string -> Option<L>)
    requires i <= |values| && Run(values[..i], maxRequests, geocode).stopped
    ensures Run(values, maxRequests, geocode) == Run(values[..i], maxRequests, geocode)
    decreases |values| - i
  {
    if i < |values| {
      assert values[..i + 1][..i] == values[..i];
      RunStaysStopped(values, i + 1, maxRequests, geocode);
    } else {
      assert values[..i] == values;
    }
  }

  /** The body of the loop for one value of `array`, on the loop variables of a state that has not stopped. */
  method ResolveOne<L>(ghost r: Resolver<L>, value: string, maxRequests: nat, geocode: string -> Option<L>,
                       cache: map<string, Option<L>>, locations: seq<L>, notFound: nat, nonEmpty: nat, batch: Batch)
    returns (cache': map<string, Option<L>>, locations': seq<L>, notFound': nat, nonEmpty': nat, batch': Batch, stopped': bool)
    requires ValidBatch(r.batch) && Agrees(r, cache, locations, notFound, nonEmpty, batch, false)
    ensures Agrees(Step(r, Strip(value), maxRequests, geocode), cache', locations', notFound', nonEmpty', batch', stopped')
  {
    var v := Strip(value);
    cache', locations', notFound', nonEmpty', batch', stopped' :=
      CountValue(r, v, maxRequests, geocode, cache, locations, notFound, nonEmpty, batch);
  }

  lemma CountedNonBlank<L>(r: Resolver<L>, v: string, maxRequests: nat, geocode: string -> Option<L>)
    requires ValidBatch(r.batch) && v != []
    ensures Counted(r, v, maxRequests, geocode) == Visit(r.(nonEmpty := r.nonEmpty + 1), v, maxRequests, geocode)
  {
  }

  method CountValue<L>(ghost r: Resolver<L>, v: string, maxRequests: nat, geocode: string -> Option<L>,
                       cache: map<string, Option<L>>, locations: seq<L>, notFound: nat, nonEmpty: nat, batch: Batch)
    returns (cache': map<string, Option<L>>, locations': seq<L>, notFound': nat, nonEmpty': nat, batch': Batch, stopped': bool)
    requires ValidBatch(r.batch) && Agrees(r, cache, locations, notFound, nonEmpty, batch, false)
    ensures Agrees(Counted(r, v, maxRequests, geocode), cache', locations', notFound', nonEmpty', batch', stopped')
  {
    if v == [] {
      return cache, locations, notFound, nonEmpty, batch, false;
    }
    ghost var counted := r.(nonEmpty := r.nonEmpty + 1);
    CountedNonBlank(r, v, maxRequests, geocode);
    cache', locations', notFound', nonEmpty', batch', stopped' :=
      VisitValue(counted, v, maxRequests, geocode, cache, locations, notFound, nonEmpty + 1, batch);
  }

  method VisitValue<L>(ghost r: Resolver<L>, v: string, maxRequests: nat, geocode: string -> Option<L>,
                       cache: map<string, Option<L>>, locations: seq<L>, notFound: nat, nonEmpty: nat, batch: Batch)
    returns (cache': map<string, Option<L>>, locations': seq<L>, notFound': nat, nonEmpty': nat, batch': Batch, stopped': bool)
    requires ValidBatch(r.batch) && Agrees(r, cache, locations, notFound, nonEmpty, batch, false)
    ensures Agrees(Visit(r, v, maxRequests, geocode), cache', locations', notFound', nonEmpty', batch', stopped')
  {
    cache', locations', notFound', nonEmpty', batch', stopped' := cache, locations, notFound, nonEmpty, batch, false;
    if |v| > MaxAddressLength {
    } else if v in cache {
      if cache[v].Some? {
        locations' := locations + [cache[v].value];
      }
    } else if v in batch.counts {
      batch' := batch.(counts := batch.counts[v := batch.counts[v] + 1]);
    } else {
      cache', locations', notFound', batch', stopped' := AddNewValue(r, v, maxRequests, geocode, cache, locations, notFound, batch);
    }
  }

  method AddNewValue<L>(ghost r: Resolver<L>, v: string, maxRequests: nat, geocode: string -> Option<L>,
                        cache: map<string, Option<L>>, locations: seq<L>, notFound: nat, batch: Batch)
    returns (cache': map<string, Option<L>>, locations': seq<L>, notFound': nat, batch': Batch, stopped': bool)
    requires ValidBatch(r.batch) && v !in r.batch.counts && Agrees(r, cache, locations, notFound, r.nonEmpty, batch, false)
    ensures Agrees(AddNew(r, v, maxRequests, geocode), cache', locations', notFound', r.nonEmpty, batch', stopped')
  {
    cache', locations', notFound', stopped' := cache, locations, notFound, false;
    batch' := Batch(batch.keys + [v], batch.counts[v := 1]);
    ghost var added := r.(batch := batch', pending := r.pending + [v]);
    AddNewShape(r, v, maxRequests, geocode);
    if |batch'.keys| == NominatimBatchSize {
      cache', locations', notFound', batch', stopped' := SendFullBatch(added, maxRequests, geocode, cache, locations, notFound, batch');
    }
  }

  /** A full batch is sent and cleared; the loop stops once the cache holds `max_requests` values. */
  method SendFullBatch<L>(ghost r: Resolver<L>, maxRequests: nat, geocode: string -> Option<L>,
                          cache: map<string, Option<L>>, locations: seq<L>, notFound: nat, batch: Batch)
    returns (cache': map<string, Option<L>>, locations': seq<L>, notFound': nat, batch': Batch, stopped': bool)
    requires ValidBatch(r.batch) && Agrees(r, cache, locations, notFound, r.nonEmpty, batch, false)
    ensures var f := Flush(r, geocode); Agrees(f.(stopped := |f.cache| >= maxRequests), cache', locations', notFound', r.nonEmpty, batch', stopped')
  {
    var missed;
    missed, locations', cache' := NominatimBatch(batch, locations, cache, geocode);
    notFound' := notFound + missed;
    batch' := EmptyBatch;
    stopped' := |cache'| >= maxRequests;
  }

  /** The two outcomes of `AddNew`: the value joins the batch, which is sent if it is then full. */
  lemma AddNewShape<L>(r: Resolver<L>, v: string, maxRequests: nat, geocode: string -> Option<L>)
    requires ValidBatch(r.batch) && v !in r.batch.counts
    ensures var added := r.(batch := Batch(r.batch.keys + [v], r.batch.counts[v := 1]), pending := r.pending + [v]);
      && ValidBatch(added.batch)
      && AddNew(r, v, maxRequests, geocode) ==
        if |added.batch.keys| == NominatimBatchSize then
          Flush(added, geocode).(stopped := |Flush(added, geocode).cache| >= maxRequests)
        else added
  {
  }

  /** `nominatim_resolve_all(url, array, max_requests)`: the locations found and the number of non-blank values. */
  method NominatimResolveAll<L>(values: seq<string>, maxRequests: nat, geocode: string -> Option<L>)
    returns (locations: seq<L>, nonEmpty: nat)
    ensures locations == Resolved(values, maxRequests, geocode).locations
    ensures nonEmpty == Resolved(values, maxRequests, geocode).nonEmpty
  {
    var cache: map<string, Option<L>> := map[];
    locations := [];
    var notFound: nat := 0;
    nonEmpty := 0;
    var batch := EmptyBatch;
    var stopped := false;
    var i := 0;
    while i < |values| && !stopped
      invariant 0 <= i <= |values|
      invariant Agrees(Run(values[..i], maxRequests, geocode), cache, locations, notFound, nonEmpty, batch, stopped)
    {
      assert values[..i + 1][..i] == values[..i];
      cache, locations, notFound, nonEmpty, batch, stopped :=
        ResolveOne(Run(values[..i], maxRequests, geocode), values[i], maxRequests, geocode, cache, locations, notFound, nonEmpty, batch);
      i := i + 1;
    }
    ghost var r := Run(values, maxRequests, geocode);
    if stopped {
      RunStaysStopped(values, i, maxRequests, geocode);
    } else {
      assert values[..i] == values;
    }
    assert Agrees(r, cache, locations, notFound, nonEmpty, batch, stopped);
    if |batch.keys| > 0 && |cache| < maxRequests {
      var missed;
      missed, locations, cache := NominatimBatch(batch, locations, cache, geocode);
    }
  }

  // ---------------------------------------------------------------------------
  // Properties of the resolution
  // ---------------------------------------------------------------------------

  /** The stripped values of `array`. */
  function Stripped(values: seq<string>): (r: seq<string>)
    ensures |r| == |values| && forall i :: 0 <= i < |values| ==> r[i] == Strip(values[i])
  {
    seq(|values|, i requires 0 <= i < |values| => Strip(values[i]))
  }

  /** How many of the (stripped) values are not blank. */
  function NonBlank(seen: seq<string>): nat
  {
    if seen == [] then 0 else NonBlank(seen[..|seen| - 1]) + (if seen[|seen| - 1] == [] then 0 else 1)
  }

  /** A value that may be sent to the service: a non-blank stripped value seen, at most 90 characters long. */
  ghost predicate Queryable(v: string, seen: seq<string>)
  {
    0 < |v| <= MaxAddressLength && v in seen
  }

  /** The cache holds exactly the values sent so far, each sent once, and none of them is in the batch. */
  ghost predicate CacheIsSent<L>(r: Resolver<L>)
  {
    && NoDuplicates(r.sent)
    && (forall k :: k in r.cache <==> k in r.sent)
    && (forall k :: k in r.batch.counts ==> k !in r.cache)
  }

  /** Every cached answer is the service's answer for that value. */
  ghost predicate CacheHoldsAnswers<L>(r: Resolver<L>, geocode: string -> Option<L>)
  {
    forall k :: k in r.cache ==> r.cache[k] == geocode(k)
  }

  /** Everything sent or waiting in the batch is queryable. */
  ghost predicate OnlyQueryable<L>(r: Resolver<L>, seen: seq<string>)
  {
    (forall k :: k in r.sent ==> Queryable(k, seen)) && (forall k :: k in r.batch.counts ==> Queryable(k, seen))
  }

  /**
   * The batch is the tally of the values added since it was last sent: its keys are those values in the
   * order of their first occurrence, each with its number of occurrences, and it never reaches 30 keys.
   */
  ghost predicate BatchOfPending<L>(r: Resolver<L>)
  {
    |r.batch.keys| < NominatimBatchSize && Tallies(r.batch, r.pending)
  }

  /** `batch` is the tally of `pending`: its first occurrences in order, and how often each occurs. */
  ghost predicate Tallies(batch: Batch, pending: seq<string>)
  {
    && batch.keys == AppendAbsent([], pending)
    && (forall k :: k in batch.counts ==> batch.counts[k] == multiset(pending)[k])
  }

  /**
   * The loop stops only once the cache holds `max_requests` values, and the batch is then empty; until it
   * stops, the cache stays under the budget after the first batch; and the overshoot is less than a batch.
   */
  ghost predicate WithinBudget<L>(r: Resolver<L>, maxRequests: nat)
  {
    && |r.sent| < Max(maxRequests, 1) + NominatimBatchSize
    && (r.stopped ==> |r.cache| >= maxRequests && r.batch.keys == [])
    && (!r.stopped && r.sent != [] ==> |r.cache| < maxRequests)
  }

  /** `non_empty` counts the non-blank values seen, all of them unless the loop stopped early. */
  ghost predicate CountsNonBlank<L>(r: Resolver<L>, seen: seq<string>)
  {
    r.nonEmpty <= NonBlank(seen) && (!r.stopped ==> r.nonEmpty == NonBlank(seen))
  }

  /** Until the loop stops, every queryable value seen is cached or waiting in the batch. */
  ghost predicate Complete<L>(r: Resolver<L>, seen: seq<string>)
  {
    !r.stopped ==> forall k :: Queryable(k, seen) ==> k in r.cache || k in r.batch.counts
  }

  lemma {:induction false} NoDuplicatesConcat<T>(a: seq<T>, b: seq<T>)
    requires NoDuplicates(a) && NoDuplicates(b) && forall k :: k in b ==> k !in a
    ensures NoDuplicates(a + b)
  {
    forall i, j | 0 <= i < j < |a + b|
      ensures (a + b)[i] != (a + b)[j]
    {
      if j < |a| {
        assert (a + b)[i] == a[i] && (a + b)[j] == a[j];
      } else if i < |a| {
        assert (a + b)[i] in a && (a + b)[j] in b;
      } else {
        assert (a + b)[i] == b[i - |a|] && (a + b)[j] == b[j - |a|];
      }
    }
  }

  lemma {:induction false} DistinctCount<T>(s: seq<T>)
    requires NoDuplicates(s)
    ensures |set k | k in s| == |s|
  {
    if s != [] {
      var p := s[..|s| - 1];
      var x := s[|s| - 1];
      assert NoDuplicates(p);
      DistinctCount(p);
      assert (set k | k in s) == (set k | k in p) + {x};
      assert x !in p;
    }
  }

  /** `len(cache)` is the number of values sent. */
  lemma CacheSize<L>(r: Resolver<L>)
    requires CacheIsSent(r)
    ensures |r.cache| == |r.sent|
  {
    DistinctCount(r.sent);
    assert r.cache.Keys == set k | k in r.sent;
  }

  lemma {:induction false} StepCacheIsSent<L>(r: Resolver<L>, v: string, maxRequests: nat, geocode: string -> Option<L>)
    requires ValidBatch(r.batch) && CacheIsSent(r) && CacheHoldsAnswers(r, geocode)
    ensures CacheIsSent(Step(r, v, maxRequests, geocode))
    ensures CacheHoldsAnswers(Step(r, v, maxRequests, geocode), geocode)
  {
    if !r.stopped && v != [] {
      StepVisits(r, v, maxRequests, geocode);
      VisitCacheIsSent(r.(nonEmpty := r.nonEmpty + 1), v, maxRequests, geocode);
    }
  }

  lemma VisitCacheIsSent<L>(r: Resolver<L>, v: string, maxRequests: nat, geocode: string -> Option<L>)
    requires ValidBatch(r.batch) && CacheIsSent(r) && CacheHoldsAnswers(r, geocode)
    ensures CacheIsSent(Visit(r, v, maxRequests, geocode))
    ensures CacheHoldsAnswers(Visit(r, v, maxRequests, geocode), geocode)
  {
    if |v| <= MaxAddressLength && v !in r.cache && v !in r.batch.counts {
      AddNewCacheIsSent(r, v, maxRequests, geocode);
    }
  }

  lemma AddNewCacheIsSent<L>(r: Resolver<L>, v: string, maxRequests: nat, geocode: string -> Option<L>)
    requires ValidBatch(r.batch) && CacheIsSent(r) && CacheHoldsAnswers(r, geocode)
    requires v !in r.cache && v !in r.batch.counts
    ensures CacheIsSent(AddNew(r, v, maxRequests, geocode))
    ensures CacheHoldsAnswers(AddNew(r, v, maxRequests, geocode), geocode)
  {
    var added := r.(batch := Batch(r.batch.keys + [v], r.batch.counts[v := 1]), pending := r.pending + [v]);
    assert ValidBatch(added.batch) && CacheIsSent(added) && CacheHoldsAnswers(added, geocode);
    if |added.batch.keys| == NominatimBatchSize {
      FlushKeepsCache(added, geocode);
    }
  }

  lemma {:induction false} StepOnlyQueryable<L>(r: Resolver<L>, seen: seq<string>, v: string, maxRequests: nat, geocode: string -> Option<L>)
    requires ValidBatch(r.batch) && OnlyQueryable(r, seen)
    ensures OnlyQueryable(Step(r, v, maxRequests, geocode), seen + [v])
  {
    var s := Step(r, v, maxRequests, geocode);
    forall k | k in s.sent || k in s.batch.counts
      ensures Queryable(k, seen + [v])
    {
      StepNewKeys(r, v, maxRequests, geocode, k);
      if k != v {
        assert Queryable(k, seen);
      }
    }
  }

  /** What is sent or in the batch after a step was sent or in the batch before, or is the new value. */
  lemma {:induction false} StepNewKeys<L>(r: Resolver<L>, v: string, maxRequests: nat, geocode: string -> Option<L>, k: string)
    requires ValidBatch(r.batch)
    requires var s := Step(r, v, maxRequests, geocode); k in s.sent || k in s.batch.counts
    ensures k in r.sent || k in r.batch.counts || (k == v && 0 < |v| <= MaxAddressLength)
  {
    if !r.stopped && v != [] && |v| <= MaxAddressLength && v !in r.cache && v !in r.batch.counts {
      var b := Batch(r.batch.keys + [v], r.batch.counts[v := 1]);
      if |b.keys| == NominatimBatchSize {
        assert k in r.sent + b.keys;
        if k !in r.sent && k != v {
          assert k in r.batch.keys;
        }
      }
    }
  }

  lemma {:induction false} StepBatchOfPending<L>(r: Resolver<L>, v: string, maxRequests: nat, geocode: string -> Option<L>)
    requires ValidBatch(r.batch) && BatchOfPending(r)
    ensures BatchOfPending(Step(r, v, maxRequests, geocode))
  {
    var s := Step(r, v, maxRequests, geocode);
    if r.stopped || v == [] {
      assert s == r;
    } else {
      StepVisits(r, v, maxRequests, geocode);
      VisitBatchOfPending(r.(nonEmpty := r.nonEmpty + 1), v, maxRequests, geocode);
    }
  }

  /** A step that is not skipped counts the value and visits it. */
  lemma StepVisits<L>(r: Resolver<L>, v: string, maxRequests: nat, geocode: string -> Option<L>)
    requires ValidBatch(r.batch) && !r.stopped && v != []
    ensures Step(r, v, maxRequests, geocode) == Visit(r.(nonEmpty := r.nonEmpty + 1), v, maxRequests, geocode)
  {
  }

  lemma VisitBatchOfPending<L>(r: Resolver<L>, v: string, maxRequests: nat, geocode: string -> Option<L>)
    requires ValidBatch(r.batch) && |r.batch.keys| < NominatimBatchSize && Tallies(r.batch, r.pending)
    ensures BatchOfPending(Visit(r, v, maxRequests, geocode))
  {
    if |v| <= MaxAddressLength && v !in r.cache {
      if v in r.batch.counts {
        TalliesRepeat(r.batch, r.pending, v);
      } else {
        var b := Batch(r.batch.keys + [v], r.batch.counts[v := 1]);
        if |b.keys| == NominatimBatchSize {
          assert AppendAbsent<string>([], []) == [];
        } else {
          TalliesNew(r.batch, r.pending, v);
        }
      }
    }
  }

  /** Counting a value already in the batch once more. */
  lemma TalliesRepeat(batch: Batch, pending: seq<string>, v: string)
    requires ValidBatch(batch) && Tallies(batch, pending) && v in batch.counts
    ensures Tallies(batch.(counts := batch.counts[v := batch.counts[v] + 1]), pending + [v])
  {
    var p := pending + [v];
    assert p[..|p| - 1] == pending;
    AppendAbsentProperties([], pending);
    assert AppendAbsent([], p) == batch.keys;
  }

  /** Adding a value new to the batch. */
  lemma TalliesNew(batch: Batch, pending: seq<string>, v: string)
    requires ValidBatch(batch) && Tallies(batch, pending) && v !in batch.counts
    ensures Tallies(Batch(batch.keys + [v], batch.counts[v := 1]), pending + [v])
  {
    var p := pending + [v];
    assert p[..|p| - 1] == pending;
    AppendAbsentProperties([], pending);
    assert AppendAbsent([], p) == batch.keys + [v];
    assert multiset(pending)[v] == 0;
  }

  lemma {:induction false} StepWithinBudget<L>(r: Resolver<L>, v: string, maxRequests: nat, geocode: string -> Option<L>)
    requires ValidBatch(r.batch) && CacheIsSent(r) && WithinBudget(r, maxRequests) && BatchOfPending(r)
    ensures WithinBudget(Step(r, v, maxRequests, geocode), maxRequests)
  {
    if !r.stopped && v != [] && |v| <= MaxAddressLength && v !in r.cache && v !in r.batch.counts {
      var b := Batch(r.batch.keys + [v], r.batch.counts[v := 1]);
      if |b.keys| == NominatimBatchSize {
        CacheSize(r);
        assert |r.sent + b.keys| == |r.sent| + NominatimBatchSize;
      }
    }
  }

  lemma {:induction false} StepCountsNonBlank<L>(r: Resolver<L>, seen: seq<string>, v: string, maxRequests: nat, geocode: string -> Option<L>)
    requires ValidBatch(r.batch) && CountsNonBlank(r, seen)
    ensures CountsNonBlank(Step(r, v, maxRequests, geocode), seen + [v])
  {
    assert (seen + [v])[..|seen|] == seen;
  }

  /** A value cached or in the batch stays so, and a counted value that is not too long becomes so. */
  lemma {:induction false} StepKnown<L>(r: Resolver<L>, v: string, maxRequests: nat, geocode: string -> Option<L>, k: string)
    requires ValidBatch(r.batch) && !r.stopped
    requires k in r.cache || k in r.batch.counts || (k == v && 0 < |v| <= MaxAddressLength)
    ensures var s := Step(r, v, maxRequests, geocode); k in s.cache || k in s.batch.counts
  {
    if v != [] && |v| <= MaxAddressLength && v !in r.cache && v !in r.batch.counts {
      var b := Batch(r.batch.keys + [v], r.batch.counts[v := 1]);
      if |b.keys| == NominatimBatchSize {
        if k !in r.cache {
          assert k in r.batch.keys || k == v;
          assert k in b.keys;
          assert k in Answers(b.keys, geocode);
        }
      }
    }
  }

  lemma {:induction false} StepComplete<L>(r: Resolver<L>, seen: seq<string>, v: string, maxRequests: nat, geocode: string -> Option<L>)
    requires ValidBatch(r.batch) && Complete(r, seen)
    ensures Complete(Step(r, v, maxRequests, geocode), seen + [v])
  {
    var s := Step(r, v, maxRequests, geocode);
    if !s.stopped {
      forall k | Queryable(k, seen + [v])
        ensures k in s.cache || k in s.batch.counts
      {
        if k in seen {
          assert Queryable(k, seen);
        }
        StepKnown(r, v, maxRequests, geocode, k);
      }
    }
  }

  // ---------------------------------------------------------------------------
  // The locations found
  // ---------------------------------------------------------------------------

  /** The location the service gives for one value, if any. */
  function HitOf<L>(v: string, geocode: string -> Option<L>): (r: seq<L>)
    ensures |r| <= 1 && (r != [] <==> geocode(v).Some?)
  {
    match geocode(v)
    case Some(loc) => [loc]
    case None => []
  }

  /** The locations of the values of `s` the service finds, one per occurrence. */
  function Hits<L>(s: seq<string>, geocode: string -> Option<L>): (r: seq<L>)
    ensures |r| <= |s|
  {
    if s == [] then [] else Hits(s[..|s| - 1], geocode) + HitOf(s[|s| - 1], geocode)
  }

  /** The stripped values that are looked up: not blank and at most 90 characters long. */
  function Lookups(seen: seq<string>): seq<string>
  {
    if seen == [] then []
    else
      var v := seen[|seen| - 1];
      Lookups(seen[..|seen| - 1]) + (if 0 < |v| <= MaxAddressLength then [v] else [])
  }

  /**
   * Until the loop stops, the locations collected and those the batch will contribute are, together, the
   * location of every occurrence of a looked-up value that the service finds.
   */
  ghost predicate LocationsFound<L>(r: Resolver<L>, seen: seq<string>, geocode: string -> Option<L>)
  {
    ValidBatch(r.batch) &&
    (!r.stopped ==>
      multiset(r.locations) + multiset(Found(r.batch.keys, r.batch.counts, geocode)) == multiset(Hits(Lookups(seen), geocode)))
  }

  lemma {:induction false} FoundFrame<L>(keys: seq<string>, c1: map<string, nat>, c2: map<string, nat>, geocode: string -> Option<L>)
    requires forall k :: k in keys ==> k in c1 && k in c2 && c1[k] == c2[k]
    ensures Found(keys, c1, geocode) == Found(keys, c2, geocode)
  {
    if keys != [] {
      FoundFrame(keys[..|keys| - 1], c1, c2, geocode);
    }
  }

  lemma RepeatSnoc<L>(x: L, n: nat)
    ensures Repeat(x, n + 1) == Repeat(x, n) + [x]
  {
  }

  /** A value seen again adds one more copy of its location to what the batch contributes. */
  lemma {:induction false} FoundBump<L>(keys: seq<string>, counts: map<string, nat>, v: string, geocode: string -> Option<L>)
    requires NoDuplicates(keys) && v in keys && v in counts && forall k :: k in keys ==> k in counts
    ensures multiset(Found(keys, counts[v := counts[v] + 1], geocode)) ==
      multiset(Found(keys, counts, geocode)) + multiset(HitOf(v, geocode))
  {
    var prefix := keys[..|keys| - 1];
    var last := keys[|keys| - 1];
    var bumped := counts[v := counts[v] + 1];
    assert forall k :: k in prefix ==> k in keys;
    assert NoDuplicates(prefix);
    if last == v {
      assert v !in prefix;
      FoundFrame(prefix, bumped, counts, geocode);
      FoundBumpLast(keys, counts, geocode);
    } else {
      assert v in prefix;
      FoundBump(prefix, counts, v, geocode);
    }
  }

  lemma FoundBumpLast<L>(keys: seq<string>, counts: map<string, nat>, geocode: string -> Option<L>)
    requires keys != [] && forall k :: k in keys ==> k in counts
    requires Found(keys[..|keys| - 1], counts[keys[|keys| - 1] := counts[keys[|keys| - 1]] + 1], geocode) ==
      Found(keys[..|keys| - 1], counts, geocode)
    ensures multiset(Found(keys, counts[keys[|keys| - 1] := counts[keys[|keys| - 1]] + 1], geocode)) ==
      multiset(Found(keys, counts, geocode)) + multiset(HitOf(keys[|keys| - 1], geocode))
  {
    var v := keys[|keys| - 1];
    var bumped := counts[v := counts[v] + 1];
    var f := Found(keys[..|keys| - 1], counts, geocode);
    assert Found(keys, bumped, geocode) == f + FoundOne(v, counts[v] + 1, geocode);
    assert Found(keys, counts, geocode) == f + FoundOne(v, counts[v], geocode);
    FoundOneBump(v, counts[v], geocode);
    MultisetGrow(f, FoundOne(v, counts[v], geocode), FoundOne(v, counts[v] + 1, geocode), HitOf(v, geocode));
  }

  lemma MultisetGrow<T>(f: seq<T>, a: seq<T>, b: seq<T>, h: seq<T>)
    requires multiset(b) == multiset(a) + multiset(h)
    ensures multiset(f + b) == multiset(f + a) + multiset(h)
  {
  }

  lemma FoundOneBump<L>(v: string, n: nat, geocode: string -> Option<L>)
    ensures multiset(FoundOne(v, n + 1, geocode)) == multiset(FoundOne(v, n, geocode)) + multiset(HitOf(v, geocode))
  {
    if geocode(v).Some? {
      RepeatSnoc(geocode(v).value, n);
    }
  }

  /** A new value adds its location, once, to what the batch contributes. */
  lemma FoundNew<L>(keys: seq<string>, counts: map<string, nat>, v: string, geocode: string -> Option<L>)
    requires v !in keys && forall k :: k in keys ==> k in counts
    ensures Found(keys + [v], counts[v := 1], geocode) == Found(keys, counts, geocode) + HitOf(v, geocode)
  {
    assert (keys + [v])[..|keys|] == keys;
    FoundFrame(keys, counts[v := 1], counts, geocode);
  }

  lemma HitsAppend<L>(a: seq<string>, v: string, geocode: string -> Option<L>)
    ensures Hits(a + [v], geocode) == Hits(a, geocode) + HitOf(v, geocode)
  {
    assert (a + [v])[..|a|] == a;
  }

  lemma LookupsAppend(seen: seq<string>, v: string)
    ensures Lookups(seen + [v]) == Lookups(seen) + (if 0 < |v| <= MaxAddressLength then [v] else [])
  {
    assert (seen + [v])[..|seen|] == seen;
  }

  /** A value looked up adds its location, if found, to those of the values seen. */
  lemma {:induction false} SeenOneMore<L>(seen: seq<string>, v: string, geocode: string -> Option<L>)
    requires 0 < |v| <= MaxAddressLength
    ensures Hits(Lookups(seen + [v]), geocode) == Hits(Lookups(seen), geocode) + HitOf(v, geocode)
  {
    LookupsAppend(seen, v);
    HitsAppend(Lookups(seen), v, geocode);
  }

  lemma {:induction false} StepLocationsFound<L>(r: Resolver<L>, seen: seq<string>, v: string, maxRequests: nat, geocode: string -> Option<L>)
    requires LocationsFound(r, seen, geocode) && CacheHoldsAnswers(r, geocode)
    ensures LocationsFound(Step(r, v, maxRequests, geocode), seen + [v], geocode)
  {
    if r.stopped || v == [] || |v| > MaxAddressLength {
      StepLocationsSkipped(r, seen, v, maxRequests, geocode);
    } else if v in r.cache {
      StepLocationsCached(r, seen, v, maxRequests, geocode);
    } else if v in r.batch.counts {
      StepLocationsBatched(r, seen, v, maxRequests, geocode);
    } else {
      StepLocationsNew(r, seen, v, maxRequests, geocode);
    }
  }

  lemma {:induction false} StepLocationsSkipped<L>(r: Resolver<L>, seen: seq<string>, v: string, maxRequests: nat, geocode: string -> Option<L>)
    requires LocationsFound(r, seen, geocode) && (r.stopped || v == [] || |v| > MaxAddressLength)
    ensures LocationsFound(Step(r, v, maxRequests, geocode), seen + [v], geocode)
  {
    var s := Step(r, v, maxRequests, geocode);
    assert s.locations == r.locations && s.batch == r.batch && s.stopped == r.stopped;
    if !r.stopped {
      LookupsAppend(seen, v);
      assert Lookups(seen + [v]) == Lookups(seen);
    }
  }

  lemma {:induction false} StepLocationsCached<L>(r: Resolver<L>, seen: seq<string>, v: string, maxRequests: nat, geocode: string -> Option<L>)
    requires LocationsFound(r, seen, geocode) && CacheHoldsAnswers(r, geocode)
    requires !r.stopped && 0 < |v| <= MaxAddressLength && v in r.cache
    ensures LocationsFound(Step(r, v, maxRequests, geocode), seen + [v], geocode)
  {
    var s := Step(r, v, maxRequests, geocode);
    assert s.locations == r.locations + HitOf(v, geocode) && s.batch == r.batch && !s.stopped;
    LocationsCached(r, s, seen, v, geocode);
  }

  lemma {:induction false} StepLocationsBatched<L>(r: Resolver<L>, seen: seq<string>, v: string, maxRequests: nat, geocode: string -> Option<L>)
    requires LocationsFound(r, seen, geocode)
    requires !r.stopped && 0 < |v| <= MaxAddressLength && v !in r.cache && v in r.batch.counts
    ensures LocationsFound(Step(r, v, maxRequests, geocode), seen + [v], geocode)
  {
    var s := Step(r, v, maxRequests, geocode);
    StepKeepsValid(r, v, maxRequests, geocode);
    assert s.locations == r.locations && s.batch == Batch(r.batch.keys, r.batch.counts[v := r.batch.counts[v] + 1]);
    LocationsBatched(r, s, seen, v, geocode);
  }

  lemma {:induction false} StepLocationsNew<L>(r: Resolver<L>, seen: seq<string>, v: string, maxRequests: nat, geocode: string -> Option<L>)
    requires LocationsFound(r, seen, geocode)
    requires !r.stopped && 0 < |v| <= MaxAddressLength && v !in r.cache && v !in r.batch.counts
    ensures LocationsFound(Step(r, v, maxRequests, geocode), seen + [v], geocode)
  {
    var s := Step(r, v, maxRequests, geocode);
    var b := Batch(r.batch.keys + [v], r.batch.counts[v := 1]);
    StepKeepsValid(r, v, maxRequests, geocode);
    if |b.keys| == NominatimBatchSize {
      assert s.locations == r.locations + Found(b.keys, b.counts, geocode) && s.batch == EmptyBatch;
      LocationsFlushed(r, s, seen, v, geocode);
    } else {
      assert s.locations == r.locations && s.batch == b && !s.stopped;
      LocationsAdded(r, s, seen, v, geocode);
    }
  }

  lemma MultisetAppend<T>(a: seq<T>, f: seq<T>, h: seq<T>, x: seq<T>)
    requires multiset(a) + multiset(f) == multiset(h)
    ensures multiset(a + x) + multiset(f) == multiset(h + x)
    ensures multiset(a) + multiset(f + x) == multiset(h + x)
    ensures multiset(a + (f + x)) == multiset(h + x)
  {
  }

  lemma MultisetReplace<T>(a: seq<T>, f: seq<T>, g: seq<T>, h: seq<T>, x: seq<T>)
    requires multiset(a) + multiset(f) == multiset(h)
    requires multiset(g) == multiset(f) + multiset(x)
    ensures multiset(a) + multiset(g) == multiset(h + x)
  {
  }

  /** Once the locations balance with those of the values seen and `v`, they balance with those of `seen + [v]`. */
  lemma {:induction false} Rebalanced<L>(s: Resolver<L>, seen: seq<string>, v: string, geocode: string -> Option<L>)
    requires ValidBatch(s.batch) && 0 < |v| <= MaxAddressLength
    requires multiset(s.locations) + multiset(Found(s.batch.keys, s.batch.counts, geocode)) ==
      multiset(Hits(Lookups(seen), geocode) + HitOf(v, geocode))
    ensures LocationsFound(s, seen + [v], geocode)
  {
    SeenOneMore(seen, v, geocode);
  }

  /** A cached value adds its cached answer, which is the service's. */
  lemma {:induction false} LocationsCached<L>(r: Resolver<L>, s: Resolver<L>, seen: seq<string>, v: string, geocode: string -> Option<L>)
    requires LocationsFound(r, seen, geocode) && !r.stopped && 0 < |v| <= MaxAddressLength
    requires s.locations == r.locations + HitOf(v, geocode) && s.batch == r.batch && !s.stopped
    ensures LocationsFound(s, seen + [v], geocode)
  {
    MultisetAppend(r.locations, Found(r.batch.keys, r.batch.counts, geocode), Hits(Lookups(seen), geocode), HitOf(v, geocode));
    Rebalanced(s, seen, v, geocode);
  }

  /** A value already in the batch counts once more there. */
  lemma {:induction false} LocationsBatched<L>(r: Resolver<L>, s: Resolver<L>, seen: seq<string>, v: string, geocode: string -> Option<L>)
    requires LocationsFound(r, seen, geocode) && !r.stopped && 0 < |v| <= MaxAddressLength && v in r.batch.counts
    requires s.locations == r.locations && s.batch == Batch(r.batch.keys, r.batch.counts[v := r.batch.counts[v] + 1])
    requires ValidBatch(s.batch)
    ensures LocationsFound(s, seen + [v], geocode)
  {
    FoundBump(r.batch.keys, r.batch.counts, v, geocode);
    MultisetReplace(r.locations, Found(r.batch.keys, r.batch.counts, geocode), Found(s.batch.keys, s.batch.counts, geocode),
      Hits(Lookups(seen), geocode), HitOf(v, geocode));
    Rebalanced(s, seen, v, geocode);
  }

  /** A new value joins the batch. */
  lemma {:induction false} LocationsAdded<L>(r: Resolver<L>, s: Resolver<L>, seen: seq<string>, v: string, geocode: string -> Option<L>)
    requires LocationsFound(r, seen, geocode) && !r.stopped && 0 < |v| <= MaxAddressLength && v !in r.batch.counts
    requires s.locations == r.locations && s.batch == Batch(r.batch.keys + [v], r.batch.counts[v := 1]) && !s.stopped
    requires ValidBatch(s.batch)
    ensures LocationsFound(s, seen + [v], geocode)
  {
    FoundNew(r.batch.keys, r.batch.counts, v, geocode);
    MultisetAppend(r.locations, Found(r.batch.keys, r.batch.counts, geocode), Hits(Lookups(seen), geocode), HitOf(v, geocode));
    Rebalanced(s, seen, v, geocode);
  }

  /** A new value fills the batch, whose locations are then collected. */
  lemma {:induction false} LocationsFlushed<L>(r: Resolver<L>, s: Resolver<L>, seen: seq<string>, v: string, geocode: string -> Option<L>)
    requires LocationsFound(r, seen, geocode) && !r.stopped && 0 < |v| <= MaxAddressLength && v !in r.batch.counts
    requires s.locations == r.locations + Found(r.batch.keys + [v], r.batch.counts[v := 1], geocode) && s.batch == EmptyBatch
    ensures LocationsFound(s, seen + [v], geocode)
  {
    FoundNew(r.batch.keys, r.batch.counts, v, geocode);
    MultisetAppend(r.locations, Found(r.batch.keys, r.batch.counts, geocode), Hits(Lookups(seen), geocode), HitOf(v, geocode));
    Rebalanced(s, seen, v, geocode);
  }

  // ---------------------------------------------------------------------------
  // The whole run
  // ---------------------------------------------------------------------------

  /** Everything the loop keeps true, given the stripped values it has seen. */
  ghost predicate Invariant<L>(r: Resolver<L>, seen: seq<string>, maxRequests: nat, geocode: string -> Option<L>)
  {
    && ValidBatch(r.batch)
    && CacheIsSent(r)
    && CacheHoldsAnswers(r, geocode)
    && OnlyQueryable(r, seen)
    && BatchOfPending(r)
    && WithinBudget(r, maxRequests)
    && CountsNonBlank(r, seen)
    && Complete(r, seen)
    && LocationsFound(r, seen, geocode)
  }

  lemma StartInvariant<L>(maxRequests: nat, geocode: string -> Option<L>)
    ensures Invariant(Start<L>(), [], maxRequests, geocode)
  {
  }

  lemma {:induction false} StepInvariant<L>(r: Resolver<L>, seen: seq<string>, v: string, maxRequests: nat, geocode: string -> Option<L>)
    requires Invariant(r, seen, maxRequests, geocode)
    ensures Invariant(Step(r, v, maxRequests, geocode), seen + [v], maxRequests, geocode)
  {
    StepKeepsValid(r, v, maxRequests, geocode);
    StepCacheIsSent(r, v, maxRequests, geocode);
    StepOnlyQueryable(r, seen, v, maxRequests, geocode);
    StepBatchOfPending(r, v, maxRequests, geocode);
    StepWithinBudget(r, v, maxRequests, geocode);
    StepCountsNonBlank(r, seen, v, maxRequests, geocode);
    StepComplete(r, seen, v, maxRequests, geocode);
    StepLocationsFound(r, seen, v, maxRequests, geocode);
  }

  lemma StrippedSnoc(values: seq<string>)
    requires values != []
    ensures Stripped(values) == Stripped(values[..|values| - 1]) + [Strip(values[|values| - 1])]
  {
  }

  /** The loop keeps its invariant over any input. */
  lemma {:induction false} RunInvariant<L>(values: seq<string>, maxRequests: nat, geocode: string -> Option<L>)
    ensures Invariant(Run(values, maxRequests, geocode), Stripped(values), maxRequests, geocode)
  {
    if values == [] {
      StartInvariant<L>(maxRequests, geocode);
    } else {
      var prefix := values[..|values| - 1];
      RunInvariant(prefix, maxRequests, geocode);
      StrippedSnoc(values);
      StepInvariant(Run(prefix, maxRequests, geocode), Stripped(prefix), Strip(values[|values| - 1]), maxRequests, geocode);
    }
  }

  /** What still holds after the leftover batch is, or is not, sent. */
  ghost predicate Final<L>(f: Resolver<L>, seen: seq<string>, maxRequests: nat, geocode: string -> Option<L>)
  {
    && ValidBatch(f.batch)
    && CacheIsSent(f)
    && CacheHoldsAnswers(f, geocode)
    && OnlyQueryable(f, seen)
    && |f.sent| < Max(maxRequests, 1) + NominatimBatchSize
    && (f.stopped ==> |f.cache| >= maxRequests)
    && CountsNonBlank(f, seen)
    && Complete(f, seen)
    && LocationsFound(f, seen, geocode)
    && (f.batch.keys != [] ==> |f.cache| >= maxRequests)
  }

  lemma {:induction false} FinishFinal<L>(r: Resolver<L>, seen: seq<string>, maxRequests: nat, geocode: string -> Option<L>)
    requires Invariant(r, seen, maxRequests, geocode)
    ensures Final(Finish(r, maxRequests, geocode), seen, maxRequests, geocode)
  {
    if |r.batch.keys| > 0 && |r.cache| < maxRequests {
      FlushFinal(r, seen, maxRequests, geocode);
    } else {
      CacheSize(r);
    }
  }

  lemma {:induction false} FlushFinal<L>(r: Resolver<L>, seen: seq<string>, maxRequests: nat, geocode: string -> Option<L>)
    requires Invariant(r, seen, maxRequests, geocode) && |r.batch.keys| > 0 && |r.cache| < maxRequests
    ensures Final(Flush(r, geocode), seen, maxRequests, geocode)
  {
    var f := Flush(r, geocode);
    CacheSize(r);
    FlushKeepsCache(r, geocode);
    FlushOnlyQueryable(r, seen, geocode);
    FlushComplete(r, seen, geocode);
    assert f.batch == EmptyBatch && f.stopped == r.stopped && !r.stopped;
    assert multiset(f.locations) == multiset(r.locations) + multiset(Found(r.batch.keys, r.batch.counts, geocode));
  }

  /** Sending the batch keeps the cache the set of values sent, each once, with the service's answers. */
  lemma FlushKeepsCache<L>(r: Resolver<L>, geocode: string -> Option<L>)
    requires ValidBatch(r.batch) && CacheIsSent(r) && CacheHoldsAnswers(r, geocode)
    ensures var f := Flush(r, geocode);
      CacheIsSent(f) && CacheHoldsAnswers(f, geocode) && |f.sent| == |r.sent| + |r.batch.keys|
  {
    NoDuplicatesConcat(r.sent, r.batch.keys);
  }

  lemma FlushOnlyQueryable<L>(r: Resolver<L>, seen: seq<string>, geocode: string -> Option<L>)
    requires ValidBatch(r.batch) && OnlyQueryable(r, seen)
    ensures OnlyQueryable(Flush(r, geocode), seen)
  {
    var f := Flush(r, geocode);
    forall k | k in f.sent
      ensures Queryable(k, seen)
    {
      if k !in r.sent {
        assert k in r.batch.keys;
      }
    }
  }

  lemma FlushComplete<L>(r: Resolver<L>, seen: seq<string>, geocode: string -> Option<L>)
    requires ValidBatch(r.batch) && Complete(r, seen)
    ensures Complete(Flush(r, geocode), seen)
  {
    var f := Flush(r, geocode);
    if !f.stopped {
      forall k | Queryable(k, seen)
        ensures k in f.cache
      {
      }
    }
  }

  /**
   * The values sent to the service: each once, each a stripped non-blank input value of at most 90
   * characters, fewer than `max(max_requests, 1) + 30` of them; `cache` maps exactly those values to
   * the service's answers.
   */
  lemma ResolvedQueries<L>(values: seq<string>, maxRequests: nat, geocode: string -> Option<L>)
    ensures var f := Resolved(values, maxRequests, geocode);
      && NoDuplicates(f.sent)
      && (forall k :: k in f.sent ==> 0 < |k| <= MaxAddressLength && k in Stripped(values))
      && (forall k :: k in f.cache <==> k in f.sent)
      && (forall k :: k in f.cache ==> f.cache[k] == geocode(k))
      && |f.cache| == |f.sent| < Max(maxRequests, 1) + NominatimBatchSize
  {
    RunInvariant(values, maxRequests, geocode);
    FinishFinal(Run(values, maxRequests, geocode), Stripped(values), maxRequests, geocode);
    CacheSize(Resolved(values, maxRequests, geocode));
  }

  /**
   * `non_empty` counts the non-blank stripped values, all of them unless the loop broke off, which it
   * does only once the cache holds `max_requests` values.
   */
  lemma ResolvedNonEmpty<L>(values: seq<string>, maxRequests: nat, geocode: string -> Option<L>)
    ensures var f := Resolved(values, maxRequests, geocode);
      && f.nonEmpty <= NonBlank(Stripped(values))
      && (!f.stopped ==> f.nonEmpty == NonBlank(Stripped(values)))
      && (f.stopped ==> |f.cache| >= maxRequests)
  {
    RunInvariant(values, maxRequests, geocode);
    FinishFinal(Run(values, maxRequests, geocode), Stripped(values), maxRequests, geocode);
  }

  /**
   * Unless the loop broke off or the request budget was used up with a batch left unsent, every value
   * looked up is cached with the service's answer, and `locations` holds, in some order, one location for
   * each occurrence of a looked-up value the service found.
   */
  lemma ResolvedLocations<L>(values: seq<string>, maxRequests: nat, geocode: string -> Option<L>)
    ensures var f := Resolved(values, maxRequests, geocode);
      !f.stopped ==>
        if f.batch.keys == [] then
          && (forall k :: 0 < |k| <= MaxAddressLength && k in Stripped(values) ==> k in f.cache && f.cache[k] == geocode(k))
          && multiset(f.locations) == multiset(Hits(Lookups(Stripped(values)), geocode))
        else
          |f.cache| >= maxRequests
  {
    var seen := Stripped(values);
    RunInvariant(values, maxRequests, geocode);
    FinishFinal(Run(values, maxRequests, geocode), seen, maxRequests, geocode);
    var f := Resolved(values, maxRequests, geocode);
    if !f.stopped && f.batch.keys == [] {
      assert f.batch.counts == map[];
      forall k | 0 < |k| <= MaxAddressLength && k in seen
        ensures k in f.cache && f.cache[k] == geocode(k)
      {
        assert Queryable(k, seen);
      }
    }
  }
}
