/** The report loop of the listing command (commands/list.go, ListBuckets):
    total size, file count, last-modified time and the per-object prices of
    each collected bucket, with the price cache threaded through. */
module BucketTotals {
  import opened Wrappers
  import opened Inventory
  import opened PriceCache
  import PricingFilters

  /** The sum of `weight` over `objs`. */
  function Sum(objs: seq<Object>, weight: Object -> int): int
    decreases |objs|
  {
    if |objs| == 0 then 0
    else Sum(objs[..|objs| - 1], weight) + weight(objs[|objs| - 1])
  }

  function SizeOf(o: Object): int {
    o.size
  }

  /** Zero-size keys are folder placeholders and are not files. */
  function FileWeight(o: Object): int {
    if o.size > 0 then 1 else 0
  }

  /** The bucket size: the sum of the objects' sizes. */
  function TotalSize(objs: seq<Object>): int {
    Sum(objs, SizeOf)
  }

  /** The file count: the objects of nonzero size. */
  function FileCount(objs: seq<Object>): int {
    Sum(objs, FileWeight)
  }

  /** The positions of the objects that count as files. */
  ghost function FileIndices(objs: seq<Object>): set<int> {
    set i | 0 <= i < |objs| && objs[i].size > 0
  }

  /** The file count is the number of objects of positive size. */
  lemma {:induction false} FileCountIsCardinality(objs: seq<Object>)
    ensures FileCount(objs) == |FileIndices(objs)|
    decreases |objs|
  {
    if |objs| > 0 {
      var n := |objs| - 1;
      var init := objs[..n];
      FileCountIsCardinality(init);
      if objs[n].size > 0 {
        assert FileIndices(objs) == FileIndices(init) + {n};
      } else {
        assert FileIndices(objs) == FileIndices(init);
      }
    }
  }

  /** The newest last-modified time among `objs`. */
  function Newest(objs: seq<Object>): (r: int)
    requires |objs| > 0
    ensures exists i :: 0 <= i < |objs| && objs[i].lastModified == r
    ensures forall i :: 0 <= i < |objs| ==> objs[i].lastModified <= r
    decreases |objs|
  {
    var n := |objs| - 1;
    if n == 0 then objs[0].lastModified
    else
      var prev := Newest(objs[..n]);
      assert forall i :: 0 <= i < n ==> objs[..n][i] == objs[i];
      if objs[n].lastModified > prev then objs[n].lastModified else prev
  }

  /** The bucket's last-modified time: its newest object's, or its creation
      date when it has no objects. */
  function LastModified(b: Bucket): (r: int)
    ensures |b.objects| == 0 ==> r == b.creationDate
    ensures |b.objects| > 0 ==>
      && (exists i :: 0 <= i < |b.objects| && b.objects[i].lastModified == r)
      && (forall i :: 0 <= i < |b.objects| ==> b.objects[i].lastModified <= r)
  {
    if |b.objects| > 0 then Newest(b.objects) else b.creationDate
  }

  lemma {:induction false} SumAppend(a: seq<Object>, b: seq<Object>, weight: Object -> int)
    ensures Sum(a + b, weight) == Sum(a, weight) + Sum(b, weight)
    decreases |b|
  {
    if |b| == 0 {
      assert a + b == a;
    } else {
      var ab := a + b;
      assert ab[..|ab| - 1] == a + b[..|b| - 1];
      SumAppend(a, b[..|b| - 1], weight);
    }
  }

  /** Taking one object out of the middle removes exactly its weight. */
  lemma SumRemove(b: seq<Object>, i: int, weight: Object -> int)
    requires 0 <= i < |b|
    ensures Sum(b, weight) == Sum(b[..i] + b[i + 1..], weight) + weight(b[i])
  {
    var front, x, back := b[..i], b[i], b[i + 1..];
    assert b == (front + [x]) + back;
    SumAppend(front + [x], back, weight);
    SumAppend(front, back, weight);
    assert (front + [x])[..i] == front;
    assert Sum(front + [x], weight) == Sum(front, weight) + weight(x);
  }

  lemma MultisetRemove(b: seq<Object>, i: int)
    requires 0 <= i < |b|
    ensures multiset(b[..i] + b[i + 1..]) == multiset(b) - multiset{b[i]}
  {
    assert b == b[..i] + [b[i]] + b[i + 1..];
  }

  /** Sums do not depend on the order of the objects. */
  lemma {:induction false} SumPermutation(a: seq<Object>, b: seq<Object>, weight: Object -> int)
    requires multiset(a) == multiset(b)
    ensures Sum(a, weight) == Sum(b, weight)
    decreases |a|
  {
    if |a| > 0 {
      var n := |a| - 1;
      var x := a[n];
      assert x in multiset(b);
      var i :| 0 <= i < |b| && b[i] == x;
      MultisetRemove(a, n);
      MultisetRemove(b, i);
      assert a[..n] + a[n + 1..] == a[..n];
      SumPermutation(a[..n], b[..i] + b[i + 1..], weight);
      SumRemove(b, i, weight);
    } else {
      assert |multiset(b)| == 0;
    }
  }

  /** Reordering a bucket's objects, as the sort in the listing command does
      before the totals are taken, changes none of the totals. */
  lemma TotalsArePermutationInvariant(b: Bucket, objs: seq<Object>)
    requires multiset(objs) == multiset(b.objects)
    ensures TotalSize(objs) == TotalSize(b.objects)
    ensures FileCount(objs) == FileCount(b.objects)
    ensures LastModified(b.(objects := objs)) == LastModified(b)
  {
    SumPermutation(objs, b.objects, SizeOf);
    SumPermutation(objs, b.objects, FileWeight);
    var b' := b.(objects := objs);
    if |objs| > 0 {
      assert |b.objects| > 0 by {
        assert |multiset(objs)| == |objs|;
      }
      var i :| 0 <= i < |objs| && objs[i].lastModified == LastModified(b');
      assert objs[i] in multiset(b.objects);
      var j :| 0 <= j < |b.objects| && b.objects[j].lastModified == LastModified(b);
      assert b.objects[j] in multiset(objs);
    } else {
      assert |b.objects| == 0 by {
        assert |multiset(b.objects)| == 0;
      }
    }
  }

  /** One report row: the integer columns, and the price per byte-hour
      looked up for each object, in order. The cost column, the prices
      weighted by object size in gigabytes, is floating point and is not
      modelled; nor are byte formatting and timestamp rendering. */
  datatype Row = Row(index: nat, name: string, region: string, creationDate: int,
                     fileCount: int, size: int, lastModified: int, prices: seq<real>)

  /** `row` is the report row of `b` at position `index`, with one price per
      object. */
  ghost predicate Describes(row: Row, index: nat, b: Bucket) {
    && row.index == index && row.name == b.name && row.region == b.region
    && row.creationDate == b.creationDate
    && row.size == TotalSize(b.objects)
    && row.fileCount == FileCount(b.objects)
    && row.lastModified == LastModified(b)
    && |row.prices| == |b.objects|
  }

  /** Every object of `b` whose price was cached in `cache` got that price
      in `row`. */
  ghost predicate PricedFromCache(row: Row, b: Bucket, cache: Cache) {
    && |row.prices| == |b.objects|
    && forall k :: 0 <= k < |b.objects| && KeyFor(b.region, b.objects[k]) in cache ==>
      row.prices[k] == cache[KeyFor(b.region, b.objects[k])]
  }

  /** Every price in `row` is explained by the cache `final`: the entry for
      the object's key, or zero because its filters have no price. */
  ghost predicate PricesExplained(row: Row, b: Bucket, final: Cache, pricing: PricingFilters.Filters -> PricingReply) {
    && |row.prices| == |b.objects|
    && forall k :: 0 <= k < |b.objects| ==> PriceExplained(final, b.region, b.objects[k], row.prices[k], pricing)
  }

  /** Explained rows stay explained as the cache grows. */
  lemma RowsExplainedUnderLaterCache(buckets: seq<Bucket>, rows: seq<Row>, current: Cache, later: Cache,
                                     pricing: PricingFilters.Filters -> PricingReply)
    requires |rows| <= |buckets|
    requires Extends(current, later)
    requires forall k :: 0 <= k < |rows| ==> PricesExplained(rows[k], buckets[k], current, pricing)
    ensures forall k :: 0 <= k < |rows| ==> PricesExplained(rows[k], buckets[k], later, pricing)
  {
    forall k, j | 0 <= k < |rows| && 0 <= j < |buckets[k].objects|
      ensures PriceExplained(later, buckets[k].region, buckets[k].objects[j], rows[k].prices[j], pricing)
    {
      ExplainedUnderLaterCache(current, later, buckets[k].region, buckets[k].objects[j], rows[k].prices[j], pricing);
    }
  }

  /** Appending the next bucket's explained row keeps every row explained. */
  lemma AppendExplainedRow(final: Cache, buckets: seq<Bucket>, rows: seq<Row>, row: Row,
                           pricing: PricingFilters.Filters -> PricingReply)
    requires |rows| < |buckets|
    requires forall k :: 0 <= k < |rows| ==> PricesExplained(rows[k], buckets[k], final, pricing)
    requires PricesExplained(row, buckets[|rows|], final, pricing)
    ensures forall k :: 0 <= k <= |rows| ==> PricesExplained((rows + [row])[k], buckets[k], final, pricing)
  {
    forall k | 0 <= k <= |rows|
      ensures PricesExplained((rows + [row])[k], buckets[k], final, pricing)
    {
      if k < |rows| {
        assert (rows + [row])[k] == rows[k];
      } else {
        assert (rows + [row])[k] == row;
      }
    }
  }

  /** `usd` under key `k` was filed for an object of one of the first `n`
      buckets, from the pricing service's reply to its filters. */
  ghost predicate FiledInBuckets(k: string, usd: real, buckets: seq<Bucket>, n: int,
                                 pricing: PricingFilters.Filters -> PricingReply, parse: string -> Option<real>) {
    exists i, j :: 0 <= i < n && i < |buckets| && 0 <= j < |buckets[i].objects|
      && FiledFrom(k, usd, buckets[i].region, buckets[i].objects[j], pricing, parse)
  }

  /** Pricing bucket `i` keeps every entry added since `cache` filed for an
      object of the buckets so far. */
  lemma NewEntriesStep(cache: Cache, current: Cache, later: Cache, buckets: seq<Bucket>, i: int,
                       pricing: PricingFilters.Filters -> PricingReply, parse: string -> Option<real>)
    requires 0 <= i < |buckets|
    requires Extends(current, later)
    requires forall k :: k in current && k !in cache ==> FiledInBuckets(k, current[k], buckets, i, pricing, parse)
    requires forall k :: k in later && k !in current ==>
      exists j :: 0 <= j < |buckets[i].objects| &&
        FiledFrom(k, later[k], buckets[i].region, buckets[i].objects[j], pricing, parse)
    ensures forall k :: k in later && k !in cache ==> FiledInBuckets(k, later[k], buckets, i + 1, pricing, parse)
  {
    forall k | k in later && k !in cache
      ensures FiledInBuckets(k, later[k], buckets, i + 1, pricing, parse)
    {
      if k in current {
        var i', j :| 0 <= i' < i && i' < |buckets| && 0 <= j < |buckets[i'].objects|
          && FiledFrom(k, current[k], buckets[i'].region, buckets[i'].objects[j], pricing, parse);
        assert FiledFrom(k, later[k], buckets[i'].region, buckets[i'].objects[j], pricing, parse);
      } else {
        var j :| 0 <= j < |buckets[i].objects| &&
          FiledFrom(k, later[k], buckets[i].region, buckets[i].objects[j], pricing, parse);
        assert FiledInBuckets(k, later[k], buckets, i + 1, pricing, parse);
      }
    }
  }

  /** Some object of `b` has filters whose reply is fatal with `e`. */
  ghost predicate FatalLookupIn(b: Bucket, pricing: PricingFilters.Filters -> PricingReply,
                                parse: string -> Option<real>, e: Fatal) {
    exists k :: 0 <= k < |b.objects| && FatalFor(pricing, parse, FiltersFor(b.region, b.objects[k].storageClass), e)
  }

  /** A row priced through a cache that extends `cache` agrees with `cache`. */
  lemma PricedFromEarlierCache(cache: Cache, current: Cache, b: Bucket, row: Row)
    requires Extends(cache, current)
    requires PricedFromCache(row, b, current)
    ensures PricedFromCache(row, b, cache)
  {
  }

  /** Appending the next bucket's priced row keeps every row priced. */
  lemma AppendPricedRow(cache: Cache, buckets: seq<Bucket>, rows: seq<Row>, row: Row)
    requires |rows| < |buckets|
    requires forall k :: 0 <= k < |rows| ==> PricedFromCache(rows[k], buckets[k], cache)
    requires PricedFromCache(row, buckets[|rows|], cache)
    ensures forall k :: 0 <= k <= |rows| ==> PricedFromCache((rows + [row])[k], buckets[k], cache)
  {
    forall k | 0 <= k <= |rows|
      ensures PricedFromCache((rows + [row])[k], buckets[k], cache)
    {
      if k < |rows| {
        assert (rows + [row])[k] == rows[k];
      } else {
        assert (rows + [row])[k] == row;
      }
    }
  }

  /** The rendered report, and the price cache after it. */
  datatype Report = Report(rows: seq<Row>, cache: Cache)

  /** The totals loop for one bucket. */
  method BucketTotals(b: Bucket) returns (size: int, fileCount: int, lastModified: int)
    ensures size == TotalSize(b.objects)
    ensures fileCount == FileCount(b.objects)
    ensures lastModified == LastModified(b)
  {
    var objs := b.objects;
    size, fileCount := 0, 0;
    lastModified := b.creationDate;
    var i := 0;
    while i < |objs|
      invariant 0 <= i <= |objs|
      invariant size == TotalSize(objs[..i])
      invariant fileCount == FileCount(objs[..i])
      invariant i == 0 ==> lastModified == b.creationDate
      invariant i > 0 ==> lastModified == Newest(objs[..i])
    {
      var obj := objs[i];
      assert objs[..i + 1][..i] == objs[..i];
      if i == 0 || obj.lastModified > lastModified {
        lastModified := obj.lastModified;
      }
      size := size + obj.size;
      if obj.size > 0 {
        fileCount := fileCount + 1;
      }
      i := i + 1;
    }
    assert objs[..i] == objs;
  }

  /** The report loop over the collected buckets: one row per bucket, in
      collection order, pricing every object through the shared cache. A
      fatal price lookup ends the process before anything is rendered, so
      there is no report then. */
  method ReportRows(cache: Cache, buckets: seq<Bucket>,
                    pricing: PricingFilters.Filters -> PricingReply, parse: string -> Option<real>)
    returns (r: Result<Report, Fatal>)
    ensures r.Success? ==> |r.value.rows| == |buckets|
    ensures r.Success? ==> forall i :: 0 <= i < |buckets| ==> Describes(r.value.rows[i], i, buckets[i])
    ensures r.Success? ==> forall i :: 0 <= i < |buckets| ==> PricedFromCache(r.value.rows[i], buckets[i], cache)
    ensures r.Success? ==> forall i :: 0 <= i < |buckets| ==>
      PricesExplained(r.value.rows[i], buckets[i], r.value.cache, pricing)
    ensures r.Success? ==> Extends(cache, r.value.cache)
    ensures r.Success? ==> forall k :: k in r.value.cache && k !in cache ==>
      FiledInBuckets(k, r.value.cache[k], buckets, |buckets|, pricing, parse)
    ensures r.Failure? ==> exists i :: 0 <= i < |buckets| && FatalLookupIn(buckets[i], pricing, parse, r.error)
  {
    var rows := [];
    var current := cache;
    var i := 0;
    while i < |buckets|
      invariant 0 <= i <= |buckets|
      invariant |rows| == i
      invariant forall k :: 0 <= k < i ==> Describes(rows[k], k, buckets[k])
      invariant forall k :: 0 <= k < i ==> PricedFromCache(rows[k], buckets[k], cache)
      invariant forall k :: 0 <= k < i ==> PricesExplained(rows[k], buckets[k], current, pricing)
      invariant Extends(cache, current)
      invariant forall k :: k in current && k !in cache ==> FiledInBuckets(k, current[k], buckets, i, pricing, parse)
    {
      var b := buckets[i];
      var size, fileCount, lastModified := BucketTotals(b);
      var run := PriceObjects(current, b.region, b.objects, pricing, parse);
      if run.Failure? {
        FatalComesFromAnObject(current, b.region, b.objects, pricing, parse);
        return Failure(run.error);
      }
      var row := Row(i, b.name, b.region, b.creationDate, fileCount, size, lastModified, run.value.prices);
      CachedPricesKept(current, b.region, b.objects, pricing, parse);
      PricedFromEarlierCache(cache, current, b, row);
      AppendPricedRow(cache, buckets, rows, row);
      EveryPriceExplained(current, b.region, b.objects, pricing, parse);
      RowsExplainedUnderLaterCache(buckets, rows, current, run.value.cache, pricing);
      AppendExplainedRow(run.value.cache, buckets, rows, row, pricing);
      NewEntriesFromReplies(current, b.region, b.objects, pricing, parse);
      NewEntriesStep(cache, current, run.value.cache, buckets, i, pricing, parse);
      rows := rows + [row];
      current := run.value.cache;
      i := i + 1;
    }
    r := Success(Report(rows, current));
  }
}
