# S3 bucket inventory and storage pricing, modelled in Dafny

This project models the core of an S3 inventory command. The command lists the buckets of an account and resolves each bucket's region. It lists each bucket's objects and fetches each object's metadata. It then reports, per bucket, the total size, the file count and the last-modified time. A separate piece estimates storage cost. It maps a bucket region and an object storage class to price-list filters, and it asks the pricing service for a price per byte-hour behind a process-wide cache.

Every call to the storage and pricing services is an input of the model:

- the ListBuckets reply is a value;
- GetBucketLocation, ListObjects and HeadObject are functions from the bucket name (and key) to the service's reply;
- GetProducts is a function from the filter triple to "query failed", "no price" or the text of the first USD price;
- `strconv.ParseFloat` is a function from text to an optional number.

Timestamps are integers and prices are `real`s. The model never does arithmetic on prices.

Modules:

- `Wrappers`: `Option` (a nil-able Go pointer) and `Result` (a Go value/error pair).
- `GoStrings`: Go's `<` on strings. Go compares UTF-8 bytes, and UTF-8 keeps code-point order, so on `seq<char>` this is lexicographic order by character.
- `Inventory`: the `Object`, `ErrObject` and `Bucket` records, and the operations listBuckets, listBucketObjects, bucketDetails, the per-account loop of getAccountBuckets, and encryptedObjects.
- `BucketOrder`: `sortableBuckets.Less` and `sortBuckets`. `sort.Sort` is unstable, so every property is stated for any sorted permutation of the input. The listing command never calls `sortBuckets`: its report rows come out in the order buckets arrive on the channel.
- `BucketTotals`: the report loop of the listing command. Each row holds the integer columns and the price looked up for each object, with the price cache threaded from bucket to bucket; a fatal price lookup leaves no report. The source sorts a bucket's objects by time and takes the first. The model takes the newest timestamp directly and proves that reordering the objects changes none of the totals.
- `PricingFilters`: the `regionCodes` and `storageTypes` tables and `getPricingFilters`, including Go's zero value for a missing map key. The usage type of a non-standard class is modelled exactly as the code builds it, with one separator on each side of the short code; the second sits directly before `-ByteHrs`, which begins with its own hyphen, e.g. `USE1-TimedStorage-SIA--ByteHrs`.
- `PriceCache`: `getByteHrsPrice` as a state machine over a `map` from cache key to price. It also models the run of lookups the cost loop makes over one bucket's objects, with the cache threaded through.

Two facts about the code that the model keeps:

- An empty price list returns 0 and caches nothing, so a second lookup of the same region and class queries again. `PriceCache.RepeatedLookup` proves both cases.
- The listing command renders rows in arrival order and never calls `sortBuckets`.

ListObjects is called once per bucket and no further pages are requested. A bucket's objects are whatever that one reply lists.

## Model

| member | source | states |
|---|---|---|
| GoStrings.Less | commands/list.go:116-120 | the definition of Go's `<` on strings as character-wise comparison in which a proper prefix is smaller; its meaning is stated by `GoStrings.LessIffFirstDifference` and its order laws by the three lemmas below |
| GoStrings.LessIffFirstDifference | commands/list.go:116-120 | Go's string `<`, as used by the bucket order, holds exactly when the strings agree up to some position where the first ends or has the smaller character |
| GoStrings.LessIrreflexive | commands/list.go:116-120 | no string is less than itself |
| GoStrings.LessTransitive | commands/list.go:116-120 | string order is transitive |
| GoStrings.LessTrichotomous | commands/list.go:116-120 | two different strings are always ordered one way or the other |
| BucketOrder.Less | commands/list.go:115-125 | the definition of `sortableBuckets.Less`: the same owner with a smaller name, or a smaller owner; the lemmas below prove it a strict order total up to equal (owner, name) keys |
| BucketOrder.LessIrreflexive | commands/list.go:115-125 | no bucket sorts before itself |
| BucketOrder.LessAsymmetric | commands/list.go:115-125 | two buckets are never each less than the other |
| BucketOrder.LessTransitive | commands/list.go:115-125 | the bucket order is transitive across owner and name |
| BucketOrder.LessConnected | commands/list.go:115-125 | buckets that differ in owner or name are always ordered |
| BucketOrder.SortBuckets | commands/list.go:106-109 | the result is a permutation of the input and no bucket is followed by a smaller one |
| BucketOrder.SortedByOwnerThenName | commands/list.go:106-125 | in any sorted sequence owners ascend, and names ascend within one owner |
| BucketOrder.SortExample | commands/list.go:106-125 | buckets "b-two" and "b-one" of account "default" come out of any sort as "b-one", "b-two" |
| Inventory.ResolveBucket | commands/list.go:207-225 | a bucket record copies name and creation date; a nil location constraint gives "us-east-1", a constraint gives that region, a lookup error is recorded with an empty region |
| Inventory.ResolveListing | commands/list.go:200-229 | a listing error is returned as is; otherwise there is one record per listed bucket, in listing order, each resolved from its own location reply |
| Inventory.HeadToObject | commands/list.go:252-262 | an object copies bucket, key, size, last-modified time and storage class; it is encrypted exactly when the reply names a server-side encryption, and its encryption type is that value or empty |
| Inventory.ScanKeys | commands/list.go:239-267 | the objects and failed keys together number the listed keys; each object comes from a successful fetch of a listed key, and each failed key carries its bucket and its fetch error |
| Inventory.ScanCoversEveryKey | commands/list.go:241-250 | a failed fetch never stops the scan: every key gets its object or its error record |
| Inventory.ScanKeysAppend | commands/list.go:241-265 | keys are handled independently and in order, so scanning a concatenation concatenates the scans |
| Inventory.ScanOneKey | commands/list.go:242-264 | one key yields exactly one record: an object on success, an error record on failure |
| Inventory.ListBucketObjects | commands/list.go:231-238 | a ListObjects failure yields the error and no records; otherwise the scan of the listed keys |
| Inventory.BucketDetails | commands/list.go:150-158 | a listing error is recorded and the object lists are kept; a listing replaces both object lists and keeps the error; owner, name, creation date and region never change |
| Inventory.EmitBuckets | commands/list.go:133-145 | every emitted bucket carries the owner, and no more buckets are emitted than were listed |
| Inventory.EmitBucketsExactly | commands/list.go:133-145 | exactly the buckets without a region-lookup error are emitted, each after bucketDetails |
| Inventory.EmitBucketsAppend | commands/list.go:133-145 | emission keeps listing order: emitting from a concatenation concatenates the emissions |
| Inventory.GetAccountBuckets | commands/list.go:127-132 | a failed bucket listing becomes the account's error "failed to list buckets, " plus the cause; otherwise the result is exactly what the emit loop yields from the resolved listing, so `EmitBucketsExactly` and `EmitBucketsAppend` describe it |
| Inventory.RegionOf | commands/list.go:221-225 | a nil constraint resolves to "us-east-1", any other constraint to itself |
| Inventory.AccountBucketsAreRegionResolved | commands/list.go:127-145 | each emitted bucket carries the owner, the name and creation date of a listed bucket whose location lookup succeeded, and that bucket's resolved region; every such listed bucket is emitted |
| Inventory.ErroredBucketsHaveNoObjects | commands/list.go:150-158 | an emitted bucket with an error had its object listing fail and has no objects and no failed keys |
| Inventory.KeepEncrypted | commands/list.go:190-198 | only encrypted objects of the input are kept |
| Inventory.EncryptedObjects | commands/list.go:190-198 | encryptedObjects returns only encrypted objects of the bucket |
| Inventory.EncryptedObjectsExactly | commands/list.go:190-198 | every encrypted object is kept as often as it occurs in the bucket, and no other object |
| Inventory.KeepEncryptedAppend | commands/list.go:190-198 | the filter keeps the original order: filtering a concatenation concatenates the filtered parts |
| Inventory.ScannedEncryption | commands/list.go:259-262 | a scanned object is encrypted exactly when its HeadObject reply names an encryption, with that algorithm as its type |
| BucketTotals.TotalSize | commands/list.go:87 | the definition of the size column as the sum of the objects' sizes; `BucketTotals.BucketTotals` proves the loop computes it and `BucketTotals.TotalsArePermutationInvariant` that order does not matter |
| BucketTotals.FileCount | commands/list.go:88-91 | the definition of the file count as the objects of positive size; `BucketTotals.FileCountIsCardinality` relates it to the set of such positions |
| BucketTotals.FileCountIsCardinality | commands/list.go:86-91 | the file count is the number of objects of positive size; zero-size folder keys are excluded |
| BucketTotals.Newest | commands/list.go:75-81 | the newest time is the last-modified time of some object and at least that of every object |
| BucketTotals.LastModified | commands/list.go:80-84 | a bucket's last-modified time is its creation date when it has no objects, otherwise the maximum over its objects |
| BucketTotals.TotalsArePermutationInvariant | commands/list.go:75-91 | reordering a bucket's objects changes neither the size, the file count nor the last-modified time |
| BucketTotals.BucketTotals | commands/list.go:67-91 | the loop yields the sum of object sizes, the count of positive-size objects, and the last-modified time |
| BucketTotals.ReportRows | commands/list.go:67-101 | the report has one row per collected bucket, in collection order, with its index, name, region, creation date, totals and one price per object; objects whose price was cached at the start get that price, every price is the final cache's entry for the object's key or zero for filters whose query found no price, every entry added to the cache is the parsed first price the pricing service returned for the filters of an object of some bucket, and the cache only grows; a failed report carries no rows, and its fatal condition is the reply to the filters of some object |
| PricingFilters.RegionCode | commands/s3-costs.go:139 | the definition of the `regionCodes` read: the table entry, or Go's zero value "" for a region not in the table; `PricingFilters.UsEast1Code` and `PricingFilters.UnmappedRegion` state both cases |
| PricingFilters.StorageTypeOf | commands/s3-costs.go:132-134 | the definition of the `storageTypes` read: the table row, or the all-empty zero value for a class not in the table; `PricingFilters.StandardRow` and `PricingFilters.UnmappedStorageClass` state both cases |
| PricingFilters.UsageSuffix | commands/s3-costs.go:134-139 | with an empty short code the suffix is "-TimedStorage-ByteHrs"; otherwise "-TimedStorage-", the code, then "--ByteHrs" |
| PricingFilters.GetPricingFilters | commands/s3-costs.go:131-141 | storage class and volume type are the table entries of the class, or empty; the usage type is the region code, or empty, followed by the class's suffix |
| PricingFilters.UsEast1Code | commands/s3-costs.go:34 | the usage-type prefix of us-east-1 is "USE1" |
| PricingFilters.StandardRow | commands/s3-costs.go:54 | STANDARD has volume type "Standard", no short code and storage class "General Purpose" |
| PricingFilters.StandardIaRow | commands/s3-costs.go:56 | STANDARD_IA has volume type "Standard - Infrequent Access", short code "SIA" and storage class "Infrequent Access" |
| PricingFilters.StandardUsageInUsEast1 | commands/s3-costs.go:135-139 | the usage type without a short code in us-east-1 is "USE1-TimedStorage-ByteHrs" |
| PricingFilters.StandardIaUsageInUsEast1 | commands/s3-costs.go:135-139 | the usage type with short code "SIA" in us-east-1 is "USE1-TimedStorage-SIA--ByteHrs" |
| PricingFilters.StandardInUsEast1 | commands/s3-costs.go:131-139 | STANDARD in us-east-1 gives "USE1-TimedStorage-ByteHrs", "General Purpose", "Standard" |
| PricingFilters.StandardIaInUsEast1 | commands/s3-costs.go:131-139 | STANDARD_IA in us-east-1 gives "USE1-TimedStorage-SIA--ByteHrs", "Infrequent Access", "Standard - Infrequent Access" |
| PricingFilters.UnmappedStorageClass | commands/s3-costs.go:132-139 | an unknown class gives empty labels and the usage type of STANDARD |
| PricingFilters.UnmappedRegion | commands/s3-costs.go:139 | an unknown region contributes no prefix, and all unknown regions get the same filters |
| PricingFilters.CacheKey | commands/s3-costs.go:77 | the definition of the cache key as the concatenation of usage type, storage class and volume type, the same key the write at line 123 uses; `PricingFilters.KeyIsPrefixAndTail` and `PricingFilters.KnownClassesHaveDistinctKeys` state its shape and distinctness |
| PricingFilters.AssembledKey | commands/s3-costs.go:77 | the cache key of a table row's filters is the region prefix followed by the row's usage suffix and labels |
| PricingFilters.KeyIsPrefixAndTail | commands/s3-costs.go:77 | a cache key is the region code followed by a part that depends only on the storage class |
| PricingFilters.KnownTailsDiffer | commands/s3-costs.go:53-61 | two different known storage classes contribute different key tails |
| PricingFilters.KnownClassesHaveDistinctKeys | commands/s3-costs.go:53-61 | within one region, two different known storage classes never share a cache key |
| PriceCache.ClassOrStandard | commands/s3-costs.go:69-72 | the definition of the nil-class default: the class itself, or "STANDARD" when the object has none |
| PriceCache.FiltersFor | commands/s3-costs.go:69-74 | the definition of the filters a lookup uses, `getPricingFilters` of the bucket region and the defaulted class; `PriceCache.NilClassIsStandard` states the default |
| PriceCache.GetByteHrsPrice | commands/s3-costs.go:64-129 | a hit returns the cached price, queries nothing and keeps the cache; on a miss: a failed query or unparsable price is fatal, an empty price list returns 0 and caches nothing, and a parsed first price is cached and returned |
| PriceCache.LookupExtendsCache | commands/s3-costs.go:76-128 | a lookup never changes or drops an entry, adds at most its own key, and queries exactly on a miss |
| PriceCache.RepeatedLookup | commands/s3-costs.go:76-128 | after a lookup that found a price, the same lookup returns that price from the cache without querying; it queries again exactly when the first found an empty price list |
| PriceCache.NilClassIsStandard | commands/s3-costs.go:69-74 | an object without a storage class is priced exactly as "STANDARD" |
| PriceCache.PriceObjects | commands/list.go:86-95 | a run of lookups gives one price per object; it keeps every cache entry it started with and never queries a key that was cached at the start |
| PriceCache.CachedPricesKept | commands/list.go:86-95 | an object whose key was cached at the start of a run gets exactly the cached price |
| PriceCache.FatalComesFromAnObject | commands/list.go:86-95 | a run ends only on a failed query or unparsable price for the filters of one of its objects, so a run whose every object is answered prices them all |
| PriceCache.LookupCachesPrice | commands/s3-costs.go:76-127 | after a successful lookup whose key was cached or whose query found a price, the key is cached with the returned price |
| PriceCache.LookupExplained | commands/s3-costs.go:76-127 | one successful lookup's price is the entry for its key in the cache it leaves, or zero because the query found no price |
| PriceCache.LookupFiles | commands/s3-costs.go:118-124 | the only entry a lookup adds is the object's own key, holding the parsed first price the pricing service returned for its filters |
| PriceCache.NewEntriesFromReplies | commands/list.go:86-95 | every entry a run adds to the cache is the key of one of its objects, holding the parsed first price the pricing service returned for that object's filters |
| PriceCache.EveryPriceExplained | commands/s3-costs.go:69-128 | every price of a run is either the final cache's entry for the object's key or zero because the query for its filters found no price |
| PriceCache.PricesAgreeWithFinalCache | commands/list.go:86-95 | every object of a run whose key was cached at the start, or whose query found a price, got exactly the price the cache holds for its key when the run ends |
| PriceCache.SameFiltersSamePrice | commands/list.go:86-95 | two objects of a run looked up with the same filters get the same price, when the first's key was cached at the start or its query found a price |
| PriceCache.NoFiltersQueriedTwiceWhenPriced | commands/list.go:86-95 | within a run, the same filters are queried twice only if the first query found an empty price list |

## Left out

- The goroutine per account, the `sync.WaitGroup` and the channel close and drain (commands/list.go:21-59) are concurrency. `BucketTotals.ReportRows` takes the collected buckets as a sequence in whatever order they arrived.
- Session creation and client construction (commands/list.go:34-40, 128, 139-142; commands/s3-costs.go:65-67) are not modelled. HeadObject is modelled by bucket and key only, not by the region-scoped client that issues it.
- The pricing request's filter objects and service code (commands/s3-costs.go:83-101) are not modelled. A query is identified by its filter triple.
- The JSON walk over `PriceList` (commands/s3-costs.go:107-118) becomes "the first USD price text". Go's random map iteration order decides which price is first, and the oracle absorbs that choice. Panics from failed type assertions are not modelled.
- `log.Fatalf` (commands/s3-costs.go:104, 120) becomes a `Fatal` result rather than process exit. `BucketTotals.ReportRows` then returns that result and no rows.
- BucketTotals.ReportRows: prices a bucket's objects in the order given. The command first sorts them newest first (commands/list.go:76-78) with an unstable sort. That order can decide which fatal reply is reported first, and which of two filter triples with the same concatenated key fills the cache first; the totals do not depend on it (`BucketTotals.TotalsArePermutationInvariant`).
- The cache's default expiry and cleanup interval (commands/s3-costs.go:47) are not modelled. Every entry is written without expiry, so the cache is a plain map.
- Floating-point cost, `bytefmt` conversions, `%.3f` formatting, table rendering and `println` progress output (commands/list.go:61-66, 92-101) are floating point, foreign helpers and I/O.
- BucketTotals.BucketTotals: sizes and counts are unbounded integers. Go's `int64` sum would wrap on overflow past 2^63-1 bytes, which no real bucket reaches.
- main.go only declares command-line flags and starts the process.
