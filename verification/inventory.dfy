/** Bucket and object metadata as the inventory command collects it
    (commands/list.go). Every storage-service call is an input: the
    ListBuckets response is a value, and GetBucketLocation, ListObjects and
    HeadObject are functions from the request's bucket name (and key) to the
    service's reply. */
module Inventory {
  import opened Wrappers

  /** A Go `error`; only its message is observable. */
  datatype Error = Error(message: string)

  /** Timestamps are seconds since an arbitrary epoch. */
  datatype Object = Object(
    bucket: string,
    key: string,
    encrypted: bool,
    encryptionType: string,
    size: int,
    lastModified: int,
    storageClass: Option<string>)

  /** A key whose metadata fetch failed. */
  datatype ErrObject = ErrObject(bucket: string, key: string, error: Error)

  datatype Bucket = Bucket(
    owner: string,
    name: string,
    creationDate: int,
    region: string,
    objects: seq<Object>,
    error: Option<Error>,
    errObjects: seq<ErrObject>)

  /** One entry of the ListBuckets response. */
  datatype ListedBucket = ListedBucket(name: string, creationDate: int)

  datatype ListBucketsReply =
    | BucketsListed(buckets: seq<ListedBucket>)
    | ListBucketsFailed(error: Error)

  /** GetBucketLocation: a nil location constraint, a constraint, or an error. */
  datatype LocationReply =
    | NoConstraint
    | Constraint(region: string)
    | LocationFailed(error: Error)

  /** A single ListObjects call; the tool never asks for a second page. */
  datatype ListObjectsReply =
    | ObjectsListed(keys: seq<string>)
    | ListObjectsFailed(error: Error)

  datatype HeadReply =
    | HeadOk(contentLength: int, lastModified: int, storageClass: Option<string>,
             serverSideEncryption: Option<string>)
    | HeadFailed(error: Error)

  /** The objects and failed keys of one bucket scan. */
  datatype Scan = Scan(objects: seq<Object>, errObjects: seq<ErrObject>)

  /** The region a bucket without a location constraint lives in. */
  const DefaultRegion := "us-east-1"

  // ---------------------------------------------------------------- listBuckets

  /** The region a successful location reply resolves to. */
  function RegionOf(reply: LocationReply): (r: string)
    requires !reply.LocationFailed?
    ensures reply.NoConstraint? ==> r == DefaultRegion
    ensures reply.Constraint? ==> r == reply.region
  {
    if reply.NoConstraint? then DefaultRegion else reply.region
  }

  /** What listing promises about the bucket record built for `b`: name and
      creation date copied, no owner or objects yet, and the region resolved
      from the location reply, or the lookup error recorded with no region. */
  ghost predicate ResolvedFrom(r: Bucket, b: ListedBucket, reply: LocationReply) {
    && r.name == b.name && r.creationDate == b.creationDate
    && r.owner == "" && r.objects == [] && r.errObjects == []
    && match reply
       case LocationFailed(e) => r.error == Some(e) && r.region == ""
       case _ => r.error == None && r.region == RegionOf(reply)
  }

  function ResolveBucket(b: ListedBucket, reply: LocationReply): (r: Bucket)
    ensures ResolvedFrom(r, b, reply)
    ensures r.error.Some? <==> reply.LocationFailed?
  {
    var blank := Bucket("", b.name, b.creationDate, "", [], None, []);
    match reply
    case LocationFailed(e) => blank.(error := Some(e))
    case _ => blank.(region := RegionOf(reply))
  }

  /** listBuckets, the helper behind each account's listing (not the command
      of the same name, whose report loop is modelled in BucketTotals): one
      bucket record per listed bucket, in listing order; a failed location
      lookup marks only its own bucket. */
  function ResolveListing(reply: ListBucketsReply, location: string -> LocationReply): (r: Result<seq<Bucket>, Error>)
    ensures reply.ListBucketsFailed? ==> r == Failure(reply.error)
    ensures reply.BucketsListed? ==>
      && r.Success?
      && |r.value| == |reply.buckets|
      && forall i :: 0 <= i < |r.value| ==>
           ResolvedFrom(r.value[i], reply.buckets[i], location(reply.buckets[i].name))
  {
    match reply
    case ListBucketsFailed(e) => Failure(e)
    case BucketsListed(listed) =>
      Success(seq(|listed|, i requires 0 <= i < |listed| =>
        ResolveBucket(listed[i], location(listed[i].name))))
  }

  // ---------------------------------------------------------- listBucketObjects

  /** The object record built from a successful HeadObject reply. */
  function HeadToObject(bucket: string, key: string, reply: HeadReply): (r: Object)
    requires reply.HeadOk?
    ensures r.bucket == bucket && r.key == key
    ensures r.size == reply.contentLength && r.lastModified == reply.lastModified
    ensures r.storageClass == reply.storageClass
    ensures r.encrypted <==> reply.serverSideEncryption.Some?
    ensures r.encryptionType == reply.serverSideEncryption.GetOr("")
  {
    var obj := Object(bucket, key, false, "", reply.contentLength, reply.lastModified, reply.storageClass);
    match reply.serverSideEncryption
    case None => obj
    case Some(sse) => obj.(encrypted := true, encryptionType := sse)
  }

  /** The per-key loop of listBucketObjects: every key is fetched, and a
      failed fetch is recorded and does not stop the scan. */
  function ScanKeys(bucket: string, keys: seq<string>, head: (string, string) -> HeadReply): (r: Scan)
    ensures |r.objects| + |r.errObjects| == |keys|
    ensures forall i :: 0 <= i < |r.objects| ==>
      && r.objects[i].key in keys
      && head(bucket, r.objects[i].key).HeadOk?
      && r.objects[i] == HeadToObject(bucket, r.objects[i].key, head(bucket, r.objects[i].key))
    ensures forall i :: 0 <= i < |r.errObjects| ==>
      && r.errObjects[i].key in keys
      && r.errObjects[i].bucket == bucket
      && head(bucket, r.errObjects[i].key) == HeadFailed(r.errObjects[i].error)
    decreases |keys|
  {
    if |keys| == 0 then Scan([], [])
    else
      var prev := ScanKeys(bucket, keys[..|keys| - 1], head);
      var key := keys[|keys| - 1];
      assert forall k :: k in keys[..|keys| - 1] ==> k in keys;
      match head(bucket, key)
      case HeadFailed(e) => Scan(prev.objects, prev.errObjects + [ErrObject(bucket, key, e)])
      case HeadOk(_, _, _, _) => Scan(prev.objects + [HeadToObject(bucket, key, head(bucket, key))], prev.errObjects)
  }

  /** `objs` holds an object for `key`. */
  ghost predicate HasObjectFor(objs: seq<Object>, key: string) {
    exists i :: 0 <= i < |objs| && objs[i].key == key
  }

  /** `errs` holds an error record for `key`. */
  ghost predicate HasErrorFor(errs: seq<ErrObject>, key: string) {
    exists i :: 0 <= i < |errs| && errs[i].key == key
  }

  /** No failure stops the scan: every key whose fetch succeeds has its
      object, and every key whose fetch fails has its error record. */
  lemma {:induction false} ScanCoversEveryKey(bucket: string, keys: seq<string>, head: (string, string) -> HeadReply)
    ensures forall k :: k in keys && head(bucket, k).HeadOk? ==>
      HasObjectFor(ScanKeys(bucket, keys, head).objects, k)
    ensures forall k :: k in keys && head(bucket, k).HeadFailed? ==>
      HasErrorFor(ScanKeys(bucket, keys, head).errObjects, k)
    decreases |keys|
  {
    if |keys| > 0 {
      var init := keys[..|keys| - 1];
      var key := keys[|keys| - 1];
      assert keys == init + [key];
      ScanCoversEveryKey(bucket, init, head);
      var prev := ScanKeys(bucket, init, head);
      var r := ScanKeys(bucket, keys, head);
      forall k | k in keys
        ensures head(bucket, k).HeadOk? ==> HasObjectFor(r.objects, k)
        ensures head(bucket, k).HeadFailed? ==> HasErrorFor(r.errObjects, k)
      {
        if k == key {
          if head(bucket, k).HeadOk? {
            assert r.objects[|prev.objects|].key == k;
          } else {
            assert r.errObjects[|prev.errObjects|].key == k;
          }
        } else {
          assert k in init;
          if head(bucket, k).HeadOk? {
            assert HasObjectFor(prev.objects, k);
            var i :| 0 <= i < |prev.objects| && prev.objects[i].key == k;
            assert r.objects[i] == prev.objects[i];
          } else {
            assert HasErrorFor(prev.errObjects, k);
            var i :| 0 <= i < |prev.errObjects| && prev.errObjects[i].key == k;
            assert r.errObjects[i] == prev.errObjects[i];
          }
        }
      }
    }
  }

  /** Scanning a concatenation is scanning each part: keys are handled one by
      one, independently, and their records keep the listing order. */
  lemma {:induction false} ScanKeysAppend(bucket: string, a: seq<string>, b: seq<string>, head: (string, string) -> HeadReply)
    ensures ScanKeys(bucket, a + b, head) ==
      Scan(ScanKeys(bucket, a, head).objects + ScanKeys(bucket, b, head).objects,
           ScanKeys(bucket, a, head).errObjects + ScanKeys(bucket, b, head).errObjects)
    decreases |b|
  {
    if |b| == 0 {
      assert a + b == a;
    } else {
      var ab := a + b;
      assert ab[..|ab| - 1] == a + b[..|b| - 1];
      assert ab[|ab| - 1] == b[|b| - 1];
      ScanKeysAppend(bucket, a, b[..|b| - 1], head);
    }
  }

  /** A single key yields exactly one record: an object when its fetch
      succeeds, an error record carrying the fetch error otherwise. */
  lemma ScanOneKey(bucket: string, key: string, head: (string, string) -> HeadReply)
    ensures head(bucket, key).HeadOk? ==>
      ScanKeys(bucket, [key], head) == Scan([HeadToObject(bucket, key, head(bucket, key))], [])
    ensures head(bucket, key).HeadFailed? ==>
      ScanKeys(bucket, [key], head) == Scan([], [ErrObject(bucket, key, head(bucket, key).error)])
  {
  }

  /** listBucketObjects: a failed listing yields the error and no records. */
  function ListBucketObjects(bucket: string, listObjects: string -> ListObjectsReply,
                             head: (string, string) -> HeadReply): (r: Result<Scan, Error>)
    ensures listObjects(bucket).ListObjectsFailed? ==> r == Failure(listObjects(bucket).error)
    ensures listObjects(bucket).ObjectsListed? ==>
      r == Success(ScanKeys(bucket, listObjects(bucket).keys, head))
  {
    match listObjects(bucket)
    case ListObjectsFailed(e) => Failure(e)
    case ObjectsListed(keys) => Success(ScanKeys(bucket, keys, head))
  }

  // ------------------------------------------------------------- bucketDetails

  /** bucketDetails: a listing error is recorded and the object lists are
      left alone; a listing replaces both object lists and leaves the error
      alone. Owner, name, creation date and region never change. */
  function BucketDetails(b: Bucket, listObjects: string -> ListObjectsReply,
                         head: (string, string) -> HeadReply): (r: Bucket)
    ensures r.owner == b.owner && r.name == b.name
    ensures r.creationDate == b.creationDate && r.region == b.region
    ensures listObjects(b.name).ListObjectsFailed? ==>
      && r.error == Some(listObjects(b.name).error)
      && r.objects == b.objects && r.errObjects == b.errObjects
    ensures listObjects(b.name).ObjectsListed? ==>
      && r.error == b.error
      && r.objects == ScanKeys(b.name, listObjects(b.name).keys, head).objects
      && r.errObjects == ScanKeys(b.name, listObjects(b.name).keys, head).errObjects
  {
    match ListBucketObjects(b.name, listObjects, head)
    case Failure(e) => b.(error := Some(e))
    case Success(scan) => b.(objects := scan.objects, errObjects := scan.errObjects)
  }

  // --------------------------------------------------------- getAccountBuckets

  /** The per-bucket loop of getAccountBuckets: every bucket is tagged with
      the owner, buckets whose region lookup failed are dropped, and the rest
      are detailed and emitted in order. */
  function EmitBuckets(owner: string, bs: seq<Bucket>, listObjects: string -> ListObjectsReply,
                       head: (string, string) -> HeadReply): (r: seq<Bucket>)
    ensures |r| <= |bs|
    ensures forall i :: 0 <= i < |r| ==> r[i].owner == owner
    decreases |bs|
  {
    if |bs| == 0 then []
    else
      var prev := EmitBuckets(owner, bs[..|bs| - 1], listObjects, head);
      var b := bs[|bs| - 1].(owner := owner);
      if b.error.Some? then prev
      else prev + [BucketDetails(b, listObjects, head)]
  }

  /** `x` is what the loop makes of some bucket of `bs` whose region lookup succeeded. */
  ghost predicate DetailedFrom(x: Bucket, owner: string, bs: seq<Bucket>, listObjects: string -> ListObjectsReply,
                               head: (string, string) -> HeadReply) {
    exists j :: 0 <= j < |bs| && bs[j].error.None? && x == BucketDetails(bs[j].(owner := owner), listObjects, head)
  }

  /** Exactly the buckets without an error are emitted, each after bucketDetails. */
  lemma {:induction false} EmitBucketsExactly(owner: string, bs: seq<Bucket>, listObjects: string -> ListObjectsReply,
                                              head: (string, string) -> HeadReply)
    ensures forall x :: x in EmitBuckets(owner, bs, listObjects, head) ==>
      DetailedFrom(x, owner, bs, listObjects, head)
    ensures forall j :: 0 <= j < |bs| && bs[j].error.None? ==>
      BucketDetails(bs[j].(owner := owner), listObjects, head) in EmitBuckets(owner, bs, listObjects, head)
    decreases |bs|
  {
    if |bs| > 0 {
      var n := |bs| - 1;
      var init := bs[..n];
      EmitBucketsExactly(owner, init, listObjects, head);
      var prev := EmitBuckets(owner, init, listObjects, head);
      var r := EmitBuckets(owner, bs, listObjects, head);
      forall x | x in r
        ensures DetailedFrom(x, owner, bs, listObjects, head)
      {
        if x in prev {
          assert DetailedFrom(x, owner, init, listObjects, head);
          var j :| 0 <= j < |init| && init[j].error.None? &&
            x == BucketDetails(init[j].(owner := owner), listObjects, head);
          assert bs[j] == init[j];
        } else {
          assert bs[n].error.None? && x == BucketDetails(bs[n].(owner := owner), listObjects, head);
        }
      }
      forall j | 0 <= j < |bs| && bs[j].error.None?
        ensures BucketDetails(bs[j].(owner := owner), listObjects, head) in r
      {
        if j < n {
          assert init[j] == bs[j];
        }
      }
    }
  }

  /** Emitting from a concatenation emits from each part in turn: the order
      of the listing is kept. */
  lemma {:induction false} EmitBucketsAppend(owner: string, a: seq<Bucket>, b: seq<Bucket>,
                                             listObjects: string -> ListObjectsReply,
                                             head: (string, string) -> HeadReply)
    ensures EmitBuckets(owner, a + b, listObjects, head) ==
      EmitBuckets(owner, a, listObjects, head) + EmitBuckets(owner, b, listObjects, head)
    decreases |b|
  {
    if |b| == 0 {
      assert a + b == a;
    } else {
      var ab := a + b;
      assert ab[..|ab| - 1] == a + b[..|b| - 1];
      assert ab[|ab| - 1] == b[|b| - 1];
      EmitBucketsAppend(owner, a, b[..|b| - 1], listObjects, head);
    }
  }

  /** getAccountBuckets for one account: a failed bucket listing is wrapped
      into the account's error; otherwise the emitted buckets. */
  function GetAccountBuckets(owner: string, listing: ListBucketsReply, location: string -> LocationReply,
                             listObjects: string -> ListObjectsReply,
                             head: (string, string) -> HeadReply): (r: Result<seq<Bucket>, Error>)
    ensures listing.ListBucketsFailed? ==>
      r == Failure(Error("failed to list buckets, " + listing.error.message))
    ensures listing.BucketsListed? ==> r.Success? && |r.value| <= |listing.buckets|
    ensures listing.BucketsListed? ==>
      r == Success(EmitBuckets(owner, ResolveListing(listing, location).value, listObjects, head))
  {
    match ResolveListing(listing, location)
    case Failure(e) => Failure(Error("failed to list buckets, " + e.message))
    case Success(bs) => Success(EmitBuckets(owner, bs, listObjects, head))
  }

  /** `x` carries the name, creation date and resolved region of a listed
      bucket whose location lookup succeeded. */
  ghost predicate ResolvedListing(x: Bucket, listed: seq<ListedBucket>, location: string -> LocationReply) {
    exists j :: 0 <= j < |listed| && listed[j].name == x.name && listed[j].creationDate == x.creationDate
      && !location(listed[j].name).LocationFailed? && x.region == RegionOf(location(listed[j].name))
  }

  /** The account's emitted buckets, stated against the service's replies:
      each carries the owner, comes from a listed bucket whose region lookup
      succeeded and has that region; every such listed bucket is emitted. */
  lemma AccountBucketsAreRegionResolved(owner: string, listed: seq<ListedBucket>,
                                        location: string -> LocationReply,
                                        listObjects: string -> ListObjectsReply,
                                        head: (string, string) -> HeadReply)
    ensures GetAccountBuckets(owner, BucketsListed(listed), location, listObjects, head).Success?
    ensures forall x :: x in GetAccountBuckets(owner, BucketsListed(listed), location, listObjects, head).value ==>
      x.owner == owner && ResolvedListing(x, listed, location)
    ensures forall j :: 0 <= j < |listed| && !location(listed[j].name).LocationFailed? ==>
      exists x :: x in GetAccountBuckets(owner, BucketsListed(listed), location, listObjects, head).value
        && x.name == listed[j].name
  {
    var bs := ResolveListing(BucketsListed(listed), location).value;
    var r := EmitBuckets(owner, bs, listObjects, head);
    EmitBucketsExactly(owner, bs, listObjects, head);
    forall x | x in r
      ensures ResolvedListing(x, listed, location)
    {
      assert DetailedFrom(x, owner, bs, listObjects, head);
      var j :| 0 <= j < |bs| && bs[j].error.None? && x == BucketDetails(bs[j].(owner := owner), listObjects, head);
      assert ResolvedFrom(bs[j], listed[j], location(listed[j].name));
    }
    forall j | 0 <= j < |listed| && !location(listed[j].name).LocationFailed?
      ensures exists x :: x in r && x.name == listed[j].name
    {
      assert ResolvedFrom(bs[j], listed[j], location(listed[j].name));
      assert BucketDetails(bs[j].(owner := owner), listObjects, head) in r;
    }
  }

  /** An emitted bucket that carries an error had its object listing fail,
      and then has no objects and no failed keys: its emptiness says nothing
      about the bucket's contents. */
  lemma ErroredBucketsHaveNoObjects(owner: string, listing: ListBucketsReply, location: string -> LocationReply,
                                    listObjects: string -> ListObjectsReply,
                                    head: (string, string) -> HeadReply)
    requires GetAccountBuckets(owner, listing, location, listObjects, head).Success?
    ensures forall x :: x in GetAccountBuckets(owner, listing, location, listObjects, head).value && x.error.Some? ==>
      && listObjects(x.name).ListObjectsFailed?
      && x.error == Some(listObjects(x.name).error)
      && x.objects == [] && x.errObjects == []
  {
    var bs := ResolveListing(listing, location).value;
    var r := EmitBuckets(owner, bs, listObjects, head);
    EmitBucketsExactly(owner, bs, listObjects, head);
    forall x | x in r && x.error.Some?
      ensures listObjects(x.name).ListObjectsFailed? && x.objects == [] && x.errObjects == []
    {
      assert DetailedFrom(x, owner, bs, listObjects, head);
      var j :| 0 <= j < |bs| && bs[j].error.None? && x == BucketDetails(bs[j].(owner := owner), listObjects, head);
      assert ResolvedFrom(bs[j], listing.buckets[j], location(listing.buckets[j].name));
    }
  }

  // ----------------------------------------------------------- encryptedObjects

  /** The encrypted objects of `objs`, in their original order. */
  function KeepEncrypted(objs: seq<Object>): (r: seq<Object>)
    ensures |r| <= |objs|
    ensures forall i :: 0 <= i < |r| ==> r[i].encrypted && r[i] in objs
    decreases |objs|
  {
    if |objs| == 0 then []
    else
      var prev := KeepEncrypted(objs[..|objs| - 1]);
      var last := objs[|objs| - 1];
      assert forall o :: o in objs[..|objs| - 1] ==> o in objs;
      if last.encrypted then prev + [last] else prev
  }

  /** encryptedObjects on a bucket. */
  function EncryptedObjects(b: Bucket): (r: seq<Object>)
    ensures forall i :: 0 <= i < |r| ==> r[i].encrypted && r[i] in b.objects
  {
    KeepEncrypted(b.objects)
  }

  /** Every encrypted object is kept as often as it occurs, and no other. */
  lemma {:induction false} EncryptedObjectsExactly(b: Bucket)
    ensures forall o :: multiset(EncryptedObjects(b))[o] == if o.encrypted then multiset(b.objects)[o] else 0
  {
    KeepEncryptedCounts(b.objects);
  }

  lemma {:induction false} KeepEncryptedCounts(objs: seq<Object>)
    ensures forall o :: multiset(KeepEncrypted(objs))[o] == if o.encrypted then multiset(objs)[o] else 0
    decreases |objs|
  {
    if |objs| > 0 {
      var init := objs[..|objs| - 1];
      var last := objs[|objs| - 1];
      assert objs == init + [last];
      KeepEncryptedCounts(init);
    }
  }

  /** Filtering a concatenation filters each part: the order is kept. */
  lemma {:induction false} KeepEncryptedAppend(a: seq<Object>, b: seq<Object>)
    ensures KeepEncrypted(a + b) == KeepEncrypted(a) + KeepEncrypted(b)
    decreases |b|
  {
    if |b| == 0 {
      assert a + b == a;
    } else {
      var ab := a + b;
      assert ab[..|ab| - 1] == a + b[..|b| - 1];
      assert ab[|ab| - 1] == b[|b| - 1];
      KeepEncryptedAppend(a, b[..|b| - 1]);
    }
  }

  /** A scanned object is reported as encrypted exactly when its HeadObject
      reply names a server-side encryption, and then with that algorithm. */
  lemma ScannedEncryption(bucket: string, keys: seq<string>, head: (string, string) -> HeadReply)
    ensures var objs := ScanKeys(bucket, keys, head).objects;
      forall i :: 0 <= i < |objs| ==>
        && (objs[i].encrypted <==> head(bucket, objs[i].key).serverSideEncryption.Some?)
        && (objs[i].encrypted ==> objs[i].encryptionType == head(bucket, objs[i].key).serverSideEncryption.value)
  {
  }
}
