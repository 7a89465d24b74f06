/** The cache-first price lookup of the cost estimate (getByteHrsPrice in
    commands/s3-costs.go). The process-wide cache is a state threaded
    through each lookup; the pricing service and the decimal parser are
    functions given by the caller. */
module PriceCache {
  import opened Wrappers
  import opened PricingFilters
  import Inventory

  /** Prices per byte-hour, filed under a filter triple's cache key. Entries
      are written without expiry and never removed. */
  type Cache = map<string, real>

  /** A GetProducts query, reduced to what the lookup reads: the query
      failed, the price list held no price, or the text of the first USD
      unit price found. */
  datatype PricingReply = QueryFailed(message: string) | NoPrice | FirstPrice(text: string)

  /** The two conditions that end the process. */
  datatype Fatal = QueryError(message: string) | UnparsablePrice(text: string)

  /** A lookup's price, the cache after it, and the query it issued, if any. */
  datatype Lookup = Lookup(usd: real, cache: Cache, query: Option<Filters>)

  /** An object without a storage class is priced as the standard class. */
  function ClassOrStandard(objStorageClass: Option<string>): string {
    objStorageClass.GetOr("STANDARD")
  }

  /** The filters a lookup for this bucket region and object class uses. */
  function FiltersFor(bucketRegion: string, objStorageClass: Option<string>): Filters {
    GetPricingFilters(bucketRegion, ClassOrStandard(objStorageClass))
  }

  /** getByteHrsPrice: a hit answers from the cache and queries nothing; a
      miss queries once, caches a parsed first price, answers zero without
      caching when there is none, and stops on a failed query or an
      unparsable price. */
  function GetByteHrsPrice(cache: Cache, bucketRegion: string, objStorageClass: Option<string>,
                           pricing: Filters -> PricingReply, parse: string -> Option<real>): (r: Result<Lookup, Fatal>)
    ensures var f := FiltersFor(bucketRegion, objStorageClass);
      CacheKey(f) in cache ==> r == Success(Lookup(cache[CacheKey(f)], cache, None))
    ensures var f := FiltersFor(bucketRegion, objStorageClass);
      CacheKey(f) !in cache ==> match pricing(f)
        case QueryFailed(m) => r == Failure(QueryError(m))
        case NoPrice => r == Success(Lookup(0.0, cache, Some(f)))
        case FirstPrice(text) =>
          if parse(text).None? then r == Failure(UnparsablePrice(text))
          else r == Success(Lookup(parse(text).value, cache[CacheKey(f) := parse(text).value], Some(f)))
  {
    var f := FiltersFor(bucketRegion, objStorageClass);
    var key := CacheKey(f);
    if key in cache then Success(Lookup(cache[key], cache, None))
    else
      match pricing(f)
      case QueryFailed(m) => Failure(QueryError(m))
      case NoPrice => Success(Lookup(0.0, cache, Some(f)))
      case FirstPrice(text) =>
        match parse(text)
        case None => Failure(UnparsablePrice(text))
        case Some(usd) => Success(Lookup(usd, cache[key := usd], Some(f)))
  }

  /** `later` keeps every entry of `earlier` unchanged. */
  ghost predicate Extends(earlier: Cache, later: Cache) {
    forall k :: k in earlier ==> k in later && later[k] == earlier[k]
  }

  /** A lookup never changes or drops an entry, adds at most the entry of
      the filters it queried, and queries only on a miss. */
  lemma LookupExtendsCache(cache: Cache, bucketRegion: string, objStorageClass: Option<string>,
                           pricing: Filters -> PricingReply, parse: string -> Option<real>)
    ensures var r := GetByteHrsPrice(cache, bucketRegion, objStorageClass, pricing, parse);
      r.Success? ==>
        && Extends(cache, r.value.cache)
        && r.value.cache.Keys <= cache.Keys + {CacheKey(FiltersFor(bucketRegion, objStorageClass))}
        && (r.value.query.Some? <==> CacheKey(FiltersFor(bucketRegion, objStorageClass)) !in cache)
  {
  }

  /** A repeated lookup for the same region and class: when the first found
      a price, the second returns it from the cache without a query and
      leaves the cache alone; it queries again exactly when the first found
      an empty price list. */
  lemma RepeatedLookup(cache: Cache, bucketRegion: string, objStorageClass: Option<string>,
                                          pricing: Filters -> PricingReply, parse: string -> Option<real>)
    requires GetByteHrsPrice(cache, bucketRegion, objStorageClass, pricing, parse).Success?
    ensures var first := GetByteHrsPrice(cache, bucketRegion, objStorageClass, pricing, parse).value;
      var second := GetByteHrsPrice(first.cache, bucketRegion, objStorageClass, pricing, parse);
      && (CacheKey(FiltersFor(bucketRegion, objStorageClass)) in first.cache ==>
            second == Success(Lookup(first.usd, first.cache, None)))
      && (CacheKey(FiltersFor(bucketRegion, objStorageClass)) !in first.cache <==>
            first.query.Some? && pricing(first.query.value).NoPrice?)
  {
  }

  /** A nil storage class is looked up exactly as "STANDARD". */
  lemma NilClassIsStandard(cache: Cache, bucketRegion: string,
                           pricing: Filters -> PricingReply, parse: string -> Option<real>)
    ensures GetByteHrsPrice(cache, bucketRegion, None, pricing, parse) ==
            GetByteHrsPrice(cache, bucketRegion, Some("STANDARD"), pricing, parse)
  {
  }

  /** The cache key a lookup for this object in this bucket region uses. */
  function KeyFor(bucketRegion: string, o: Inventory.Object): string {
    CacheKey(FiltersFor(bucketRegion, o.storageClass))
  }

  /** The reply to `f` ends the process with `e`: the query failed, or its
      first price does not parse. */
  ghost predicate FatalFor(pricing: Filters -> PricingReply, parse: string -> Option<real>, f: Filters, e: Fatal) {
    match pricing(f)
    case QueryFailed(m) => e == QueryError(m)
    case NoPrice => false
    case FirstPrice(text) => parse(text).None? && e == UnparsablePrice(text)
  }

  /** The prices of a run of lookups, the cache after it and the queries
      it issued, in order. */
  datatype PriceRun = PriceRun(prices: seq<real>, cache: Cache, queries: seq<Filters>)

  /** The lookups of the cost loop over one bucket's objects, with the cache
      threaded from one to the next; the first fatal condition ends the run. */
  function PriceObjects(cache: Cache, bucketRegion: string, objs: seq<Inventory.Object>,
                        pricing: Filters -> PricingReply, parse: string -> Option<real>): (r: Result<PriceRun, Fatal>)
    ensures r.Success? ==> |r.value.prices| == |objs|
    ensures r.Success? ==> Extends(cache, r.value.cache)
    ensures r.Success? ==> forall q :: q in r.value.queries ==> CacheKey(q) !in cache
    decreases |objs|
  {
    if |objs| == 0 then Success(PriceRun([], cache, []))
    else
      LookupExtendsCache(cache, bucketRegion, objs[0].storageClass, pricing, parse);
      match GetByteHrsPrice(cache, bucketRegion, objs[0].storageClass, pricing, parse)
      case Failure(e) => Failure(e)
      case Success(first) =>
        match PriceObjects(first.cache, bucketRegion, objs[1..], pricing, parse)
        case Failure(e) => Failure(e)
        case Success(rest) =>
          var queried := if first.query.Some? then [first.query.value] else [];
          Success(PriceRun([first.usd] + rest.prices, rest.cache, queried + rest.queries))
  }

  /** Objects whose price was cached at the start of a run get exactly the
      cached price. */
  lemma {:induction false} CachedPricesKept(cache: Cache, bucketRegion: string, objs: seq<Inventory.Object>,
                                            pricing: Filters -> PricingReply, parse: string -> Option<real>)
    requires PriceObjects(cache, bucketRegion, objs, pricing, parse).Success?
    ensures var run := PriceObjects(cache, bucketRegion, objs, pricing, parse).value;
      forall i :: 0 <= i < |objs| && KeyFor(bucketRegion, objs[i]) in cache ==>
        run.prices[i] == cache[KeyFor(bucketRegion, objs[i])]
    decreases |objs|
  {
    if |objs| > 0 {
      RunStep(cache, bucketRegion, objs, pricing, parse);
      LookupExtendsCache(cache, bucketRegion, objs[0].storageClass, pricing, parse);
      var first := GetByteHrsPrice(cache, bucketRegion, objs[0].storageClass, pricing, parse).value;
      var rest := objs[1..];
      CachedPricesKept(first.cache, bucketRegion, rest, pricing, parse);
      var run := PriceObjects(cache, bucketRegion, objs, pricing, parse).value;
      forall i | 0 <= i < |objs| && KeyFor(bucketRegion, objs[i]) in cache
        ensures run.prices[i] == cache[KeyFor(bucketRegion, objs[i])]
      {
        if i > 0 {
          assert rest[i - 1] == objs[i];
        }
      }
    }
  }

  /** Filters appear twice in `qs` only when their price list is empty. */
  ghost predicate RequeriedOnlyWhenEmpty(qs: seq<Filters>, pricing: Filters -> PricingReply) {
    forall i, j :: 0 <= i < j < |qs| && qs[i] == qs[j] ==> pricing(qs[i]).NoPrice?
  }

  /** Putting a query in front keeps the property when that query's filters
      either come back empty or do not occur again. */
  lemma PrependQuery(f: Filters, qs: seq<Filters>, pricing: Filters -> PricingReply)
    requires RequeriedOnlyWhenEmpty(qs, pricing)
    requires !pricing(f).NoPrice? ==> f !in qs
    ensures RequeriedOnlyWhenEmpty([f] + qs, pricing)
  {
    var all := [f] + qs;
    forall i, j | 0 <= i < j < |all| && all[i] == all[j]
      ensures pricing(all[i]).NoPrice?
    {
      assert all[j] == qs[j - 1];
      if i > 0 {
        assert all[i] == qs[i - 1];
      }
    }
  }

  /** Once a run has filed a price, later lookups of the same filters in the
      run are answered from the cache: no filters are queried twice unless
      the price list came back empty. */
  lemma {:induction false} NoFiltersQueriedTwiceWhenPriced(cache: Cache, bucketRegion: string,
                                                           objs: seq<Inventory.Object>,
                                                           pricing: Filters -> PricingReply,
                                                           parse: string -> Option<real>)
    requires PriceObjects(cache, bucketRegion, objs, pricing, parse).Success?
    ensures RequeriedOnlyWhenEmpty(PriceObjects(cache, bucketRegion, objs, pricing, parse).value.queries, pricing)
    decreases |objs|
  {
    if |objs| > 0 {
      RunStep(cache, bucketRegion, objs, pricing, parse);
      var first := GetByteHrsPrice(cache, bucketRegion, objs[0].storageClass, pricing, parse).value;
      var rest := PriceObjects(first.cache, bucketRegion, objs[1..], pricing, parse).value;
      NoFiltersQueriedTwiceWhenPriced(first.cache, bucketRegion, objs[1..], pricing, parse);
      if first.query.Some? {
        var f := first.query.value;
        if !pricing(f).NoPrice? {
          assert CacheKey(f) in first.cache;
          assert f !in rest.queries;
        }
        PrependQuery(f, rest.queries, pricing);
      }
    }
  }

  /** A run ends only on a fatal reply to the filters of one of its objects:
      when every object's filters are answered, the run prices them all. */
  lemma {:induction false} FatalComesFromAnObject(cache: Cache, bucketRegion: string,
                                                  objs: seq<Inventory.Object>,
                                                  pricing: Filters -> PricingReply,
                                                  parse: string -> Option<real>)
    requires PriceObjects(cache, bucketRegion, objs, pricing, parse).Failure?
    ensures var e := PriceObjects(cache, bucketRegion, objs, pricing, parse).error;
      exists i :: 0 <= i < |objs| && FatalFor(pricing, parse, FiltersFor(bucketRegion, objs[i].storageClass), e)
    decreases |objs|
  {
    var e := PriceObjects(cache, bucketRegion, objs, pricing, parse).error;
    var lookup := GetByteHrsPrice(cache, bucketRegion, objs[0].storageClass, pricing, parse);
    if lookup.Failure? {
      assert FatalFor(pricing, parse, FiltersFor(bucketRegion, objs[0].storageClass), e);
    } else {
      FatalComesFromAnObject(lookup.value.cache, bucketRegion, objs[1..], pricing, parse);
      var i :| 0 <= i < |objs[1..]| &&
        FatalFor(pricing, parse, FiltersFor(bucketRegion, objs[1..][i].storageClass), e);
      assert objs[1..][i] == objs[i + 1];
    }
  }

  /** The price for `o` is cached at the start, or a query for its filters
      finds a price. */
  ghost predicate Priceable(cache: Cache, bucketRegion: string, o: Inventory.Object,
                            pricing: Filters -> PricingReply) {
    KeyFor(bucketRegion, o) in cache || !pricing(FiltersFor(bucketRegion, o.storageClass)).NoPrice?
  }

  /** After a successful lookup of a priceable object, its price is cached. */
  lemma LookupCachesPrice(cache: Cache, bucketRegion: string, o: Inventory.Object,
                          pricing: Filters -> PricingReply, parse: string -> Option<real>)
    requires GetByteHrsPrice(cache, bucketRegion, o.storageClass, pricing, parse).Success?
    requires Priceable(cache, bucketRegion, o, pricing)
    ensures var after := GetByteHrsPrice(cache, bucketRegion, o.storageClass, pricing, parse).value;
      KeyFor(bucketRegion, o) in after.cache && after.cache[KeyFor(bucketRegion, o)] == after.usd
  {
  }

  /** Every priceable object of a run got the price the cache holds for its
      key when the run ends. */
  lemma {:induction false} PricesAgreeWithFinalCache(cache: Cache, bucketRegion: string,
                                                     objs: seq<Inventory.Object>,
                                                     pricing: Filters -> PricingReply,
                                                     parse: string -> Option<real>)
    requires PriceObjects(cache, bucketRegion, objs, pricing, parse).Success?
    ensures var run := PriceObjects(cache, bucketRegion, objs, pricing, parse).value;
      forall i :: 0 <= i < |objs| && Priceable(cache, bucketRegion, objs[i], pricing) ==>
        KeyFor(bucketRegion, objs[i]) in run.cache && run.cache[KeyFor(bucketRegion, objs[i])] == run.prices[i]
    decreases |objs|
  {
    if |objs| > 0 {
      RunStep(cache, bucketRegion, objs, pricing, parse);
      LookupExtendsCache(cache, bucketRegion, objs[0].storageClass, pricing, parse);
      var first := GetByteHrsPrice(cache, bucketRegion, objs[0].storageClass, pricing, parse).value;
      var rest := objs[1..];
      PricesAgreeWithFinalCache(first.cache, bucketRegion, rest, pricing, parse);
      var run := PriceObjects(cache, bucketRegion, objs, pricing, parse).value;
      forall i | 0 <= i < |objs| && Priceable(cache, bucketRegion, objs[i], pricing)
        ensures KeyFor(bucketRegion, objs[i]) in run.cache && run.cache[KeyFor(bucketRegion, objs[i])] == run.prices[i]
      {
        if i == 0 {
          FirstPriceCached(cache, bucketRegion, objs, pricing, parse);
        } else {
          assert rest[i - 1] == objs[i];
          assert Priceable(first.cache, bucketRegion, rest[i - 1], pricing);
        }
      }
    }
  }

  /** Where a price came from, judged against the cache `final` after the
      run: the entry for the object's key, or zero because the query for its
      filters found no price. */
  ghost predicate PriceExplained(final: Cache, bucketRegion: string, o: Inventory.Object, usd: real,
                                 pricing: Filters -> PricingReply) {
    || (KeyFor(bucketRegion, o) in final && usd == final[KeyFor(bucketRegion, o)])
    || (usd == 0.0 && pricing(FiltersFor(bucketRegion, o.storageClass)).NoPrice?)
  }

  /** An explanation stays valid as the cache grows. */
  lemma ExplainedUnderLaterCache(final: Cache, later: Cache, bucketRegion: string, o: Inventory.Object,
                                 usd: real, pricing: Filters -> PricingReply)
    requires Extends(final, later)
    requires PriceExplained(final, bucketRegion, o, usd, pricing)
    ensures PriceExplained(later, bucketRegion, o, usd, pricing)
  {
  }

  /** A single successful lookup's price is explained by the cache it leaves. */
  lemma LookupExplained(cache: Cache, bucketRegion: string, o: Inventory.Object,
                        pricing: Filters -> PricingReply, parse: string -> Option<real>)
    requires GetByteHrsPrice(cache, bucketRegion, o.storageClass, pricing, parse).Success?
    ensures var after := GetByteHrsPrice(cache, bucketRegion, o.storageClass, pricing, parse).value;
      PriceExplained(after.cache, bucketRegion, o, after.usd, pricing)
  {
  }

  /** Every price of a run is the final cache's entry for the object's key,
      or zero for filters whose query found no price. */
  lemma {:induction false} EveryPriceExplained(cache: Cache, bucketRegion: string, objs: seq<Inventory.Object>,
                                               pricing: Filters -> PricingReply, parse: string -> Option<real>)
    requires PriceObjects(cache, bucketRegion, objs, pricing, parse).Success?
    ensures var run := PriceObjects(cache, bucketRegion, objs, pricing, parse).value;
      forall i :: 0 <= i < |objs| ==> PriceExplained(run.cache, bucketRegion, objs[i], run.prices[i], pricing)
    decreases |objs|
  {
    if |objs| > 0 {
      RunStep(cache, bucketRegion, objs, pricing, parse);
      var first := GetByteHrsPrice(cache, bucketRegion, objs[0].storageClass, pricing, parse).value;
      var rest := objs[1..];
      EveryPriceExplained(first.cache, bucketRegion, rest, pricing, parse);
      var run := PriceObjects(cache, bucketRegion, objs, pricing, parse).value;
      forall i | 0 <= i < |objs|
        ensures PriceExplained(run.cache, bucketRegion, objs[i], run.prices[i], pricing)
      {
        if i == 0 {
          LookupExplained(cache, bucketRegion, objs[0], pricing, parse);
          ExplainedUnderLaterCache(first.cache, run.cache, bucketRegion, objs[0], first.usd, pricing);
        } else {
          assert rest[i - 1] == objs[i];
        }
      }
    }
  }

  /** `usd` under key `k` was filed for `o`: `k` is the object's key, and
      the query for its filters found a first price that parses to `usd`. */
  ghost predicate FiledFrom(k: string, usd: real, bucketRegion: string, o: Inventory.Object,
                            pricing: Filters -> PricingReply, parse: string -> Option<real>) {
    var f := FiltersFor(bucketRegion, o.storageClass);
    && KeyFor(bucketRegion, o) == k
    && pricing(f).FirstPrice?
    && parse(pricing(f).text) == Some(usd)
  }

  /** The entry a lookup adds is the parsed first price for its object. */
  lemma LookupFiles(cache: Cache, bucketRegion: string, o: Inventory.Object,
                    pricing: Filters -> PricingReply, parse: string -> Option<real>)
    requires GetByteHrsPrice(cache, bucketRegion, o.storageClass, pricing, parse).Success?
    ensures var after := GetByteHrsPrice(cache, bucketRegion, o.storageClass, pricing, parse).value;
      forall k :: k in after.cache && k !in cache ==> FiledFrom(k, after.cache[k], bucketRegion, o, pricing, parse)
  {
  }

  /** Every entry a run adds to the cache was filed for one of its objects
      from the pricing service's reply. */
  lemma {:induction false} NewEntriesFromReplies(cache: Cache, bucketRegion: string, objs: seq<Inventory.Object>,
                                                 pricing: Filters -> PricingReply, parse: string -> Option<real>)
    requires PriceObjects(cache, bucketRegion, objs, pricing, parse).Success?
    ensures var run := PriceObjects(cache, bucketRegion, objs, pricing, parse).value;
      forall k :: k in run.cache && k !in cache ==>
        exists i :: 0 <= i < |objs| && FiledFrom(k, run.cache[k], bucketRegion, objs[i], pricing, parse)
    decreases |objs|
  {
    if |objs| > 0 {
      RunStep(cache, bucketRegion, objs, pricing, parse);
      LookupFiles(cache, bucketRegion, objs[0], pricing, parse);
      var first := GetByteHrsPrice(cache, bucketRegion, objs[0].storageClass, pricing, parse).value;
      var rest := objs[1..];
      NewEntriesFromReplies(first.cache, bucketRegion, rest, pricing, parse);
      var run := PriceObjects(cache, bucketRegion, objs, pricing, parse).value;
      forall k | k in run.cache && k !in cache
        ensures exists i :: 0 <= i < |objs| && FiledFrom(k, run.cache[k], bucketRegion, objs[i], pricing, parse)
      {
        if k in first.cache {
          assert FiledFrom(k, run.cache[k], bucketRegion, objs[0], pricing, parse);
        } else {
          var i :| 0 <= i < |rest| && FiledFrom(k, run.cache[k], bucketRegion, rest[i], pricing, parse);
          assert rest[i] == objs[i + 1];
        }
      }
    }
  }

  /** A priceable first object's price is still the entry for its key when
      the run ends. */
  lemma FirstPriceCached(cache: Cache, bucketRegion: string, objs: seq<Inventory.Object>,
                         pricing: Filters -> PricingReply, parse: string -> Option<real>)
    requires |objs| > 0 && PriceObjects(cache, bucketRegion, objs, pricing, parse).Success?
    requires Priceable(cache, bucketRegion, objs[0], pricing)
    ensures var run := PriceObjects(cache, bucketRegion, objs, pricing, parse).value;
      KeyFor(bucketRegion, objs[0]) in run.cache && run.cache[KeyFor(bucketRegion, objs[0])] == run.prices[0]
  {
    RunStep(cache, bucketRegion, objs, pricing, parse);
    LookupCachesPrice(cache, bucketRegion, objs[0], pricing, parse);
  }

  /** Within a run, two objects looked up with the same filters get the same
      price when the first's price was cached at the start or its query
      found a price. */
  lemma SameFiltersSamePrice(cache: Cache, bucketRegion: string, objs: seq<Inventory.Object>,
                             pricing: Filters -> PricingReply, parse: string -> Option<real>, i: int, j: int)
    requires PriceObjects(cache, bucketRegion, objs, pricing, parse).Success?
    requires 0 <= i < |objs| && 0 <= j < |objs|
    requires FiltersFor(bucketRegion, objs[i].storageClass) == FiltersFor(bucketRegion, objs[j].storageClass)
    requires Priceable(cache, bucketRegion, objs[i], pricing)
    ensures PriceObjects(cache, bucketRegion, objs, pricing, parse).value.prices[i] ==
            PriceObjects(cache, bucketRegion, objs, pricing, parse).value.prices[j]
  {
    PricesAgreeWithFinalCache(cache, bucketRegion, objs, pricing, parse);
    assert Priceable(cache, bucketRegion, objs[j], pricing);
  }

  /** A successful run is a successful first lookup followed by a successful
      run over the remaining objects from the cache that lookup left. */
  lemma RunStep(cache: Cache, bucketRegion: string, objs: seq<Inventory.Object>,
                pricing: Filters -> PricingReply, parse: string -> Option<real>)
    requires |objs| > 0 && PriceObjects(cache, bucketRegion, objs, pricing, parse).Success?
    ensures var first := GetByteHrsPrice(cache, bucketRegion, objs[0].storageClass, pricing, parse);
      && first.Success?
      && PriceObjects(first.value.cache, bucketRegion, objs[1..], pricing, parse).Success?
      && var rest := PriceObjects(first.value.cache, bucketRegion, objs[1..], pricing, parse).value;
         var run := PriceObjects(cache, bucketRegion, objs, pricing, parse).value;
         && run.prices == [first.value.usd] + rest.prices
         && run.queries == (if first.value.query.Some? then [first.value.query.value] else []) + rest.queries
         && run.cache == rest.cache
  {
  }
}
