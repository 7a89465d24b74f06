/** The price-list filters for a bucket region and an object storage class
    (commands/s3-costs.go): two closed lookup tables and the usage-type
    string built from them. */
module PricingFilters {

  /** One row of the storage-class table. */
  datatype StorageType = StorageType(volumeType: string, shortCode: string, storageClass: string)

  /** The filter triple of one price-list query. */
  datatype Filters = Filters(usageType: string, storageClass: string, volumeType: string)

  /** Region name to the region prefix of usage types. */
  const RegionCodes: map<string, string> := map[
    "ap-east-1" := "APE1",
    "ap-northeast-3" := "APN3",
    "ap-northeast-1" := "APN1",
    "ap-northeast-2" := "APN2",
    "ap-southeast-1" := "APS1",
    "ap-southeast-2" := "APS2",
    "ap-south-1" := "APS3",
    "cn-north-1" := "CNN1",
    "cn-northwest-1" := "CNW1",
    "ca-central-1" := "CAN1",
    "eu-north-1" := "EUN1",
    "eu-central-1" := "EUC1",
    "eu-west-1" := "EU",
    "eu-west-2" := "EUW2",
    "eu-west-3" := "EUW3",
    "sa-east-1" := "SAE1",
    "me-south-1" := "MES1",
    "us-gov-west-1" := "UGW1",
    "us-gov-east-1" := "UGE1",
    "us-east-1" := "USE1",
    "us-east-2" := "USE2",
    "us-west-1" := "USW1",
    "us-west-2" := "USW2"
  ]

  /** Storage class name to its price-list labels and usage-type code. */
  const StorageTypes: map<string, StorageType> := map[
    "STANDARD" := StorageType("Standard", "", "General Purpose"),
    "REDUCED_REDUNDANCY" := StorageType("Reduced Redundancy", "RRS", "Non-Critical Data"),
    "STANDARD_IA" := StorageType("Standard - Infrequent Access", "SIA", "Infrequent Access"),
    "ONEZONE_IA" := StorageType("One Zone - Infrequent Access", "ZIA", "Infrequent Access"),
    "INTELLIGENT_TIERING" := StorageType("Intelligent-Tiering Infrequent Access", "INT-IA", "Intelligent-Tiering"),
    "GLACIER" := StorageType("Amazon Glacier", "Glacier", "Archive"),
    "DEEP_ARCHIVE" := StorageType("Glacier Deep Archive", "GDA", "Staging")
  ]

  /** A Go map index on RegionCodes: the empty string when the region is missing. */
  function RegionCode(region: string): string {
    if region in RegionCodes then RegionCodes[region] else ""
  }

  /** A Go map index on StorageTypes: the all-empty row when the class is missing. */
  function StorageTypeOf(storageClass: string): StorageType {
    if storageClass in StorageTypes then StorageTypes[storageClass] else StorageType("", "", "")
  }

  /** What follows the region prefix in a usage type. The short code is
      wrapped in a separator on both sides, in front of a suffix that starts
      with its own separator. */
  function UsageSuffix(shortCode: string): (r: string)
    ensures shortCode == "" ==> r == "-TimedStorage-ByteHrs"
    ensures shortCode != "" ==> r == "-TimedStorage-" + shortCode + "--ByteHrs"
  {
    var separator := if shortCode == "" then "" else "-";
    assert "-TimedStorage" + "-" == "-TimedStorage-";
    assert "-" + "-ByteHrs" == "--ByteHrs";
    assert "-TimedStorage" + "-ByteHrs" == "-TimedStorage-ByteHrs";
    "-TimedStorage" + separator + shortCode + separator + "-ByteHrs"
  }

  /** getPricingFilters: the labels of the storage class, and a usage type
      made of the region prefix and the class's short code. */
  function GetPricingFilters(bucketRegion: string, objStorageClass: string): (r: Filters)
    ensures r.storageClass == StorageTypeOf(objStorageClass).storageClass
    ensures r.volumeType == StorageTypeOf(objStorageClass).volumeType
    ensures StorageTypeOf(objStorageClass).shortCode == "" ==>
      r.usageType == RegionCode(bucketRegion) + "-TimedStorage-ByteHrs"
    ensures StorageTypeOf(objStorageClass).shortCode != "" ==>
      r.usageType == RegionCode(bucketRegion) + "-TimedStorage-" + StorageTypeOf(objStorageClass).shortCode + "--ByteHrs"
  {
    Assemble(RegionCode(bucketRegion), StorageTypeOf(objStorageClass))
  }

  /** The filters of a storage-class row behind a region prefix. */
  function Assemble(prefix: string, st: StorageType): Filters {
    Filters(prefix + UsageSuffix(st.shortCode), st.storageClass, st.volumeType)
  }

  /** The key the price cache files a filter triple under. */
  function CacheKey(f: Filters): string {
    f.usageType + f.storageClass + f.volumeType
  }

  lemma UsEast1Code()
    ensures RegionCode("us-east-1") == "USE1"
  {
  }

  lemma StandardRow()
    ensures StorageTypeOf("STANDARD") == StorageType("Standard", "", "General Purpose")
  {
  }

  lemma StandardIaRow()
    ensures StorageTypeOf("STANDARD_IA") == StorageType("Standard - Infrequent Access", "SIA", "Infrequent Access")
  {
  }

  lemma StandardUsageInUsEast1()
    ensures "USE1" + UsageSuffix("") == "USE1-TimedStorage-ByteHrs"
  {
  }

  lemma StandardIaUsageInUsEast1()
    ensures "USE1" + UsageSuffix("SIA") == "USE1-TimedStorage-SIA--ByteHrs"
  {
  }

  lemma StandardInUsEast1()
    ensures GetPricingFilters("us-east-1", "STANDARD") ==
      Filters("USE1-TimedStorage-ByteHrs", "General Purpose", "Standard")
  {
    var st := StorageType("Standard", "", "General Purpose");
    UsEast1Code();
    StandardRow();
    assert GetPricingFilters("us-east-1", "STANDARD") == Assemble("USE1", st);
    StandardUsageInUsEast1();
  }

  lemma StandardIaInUsEast1()
    ensures GetPricingFilters("us-east-1", "STANDARD_IA") ==
      Filters("USE1-TimedStorage-SIA--ByteHrs", "Infrequent Access", "Standard - Infrequent Access")
  {
    var st := StorageType("Standard - Infrequent Access", "SIA", "Infrequent Access");
    UsEast1Code();
    StandardIaRow();
    assert GetPricingFilters("us-east-1", "STANDARD_IA") == Assemble("USE1", st);
    StandardIaUsageInUsEast1();
  }

  /** An unknown storage class is looked up with empty labels and the
      usage type of the standard class. */
  lemma UnmappedStorageClass(bucketRegion: string, objStorageClass: string)
    requires objStorageClass !in StorageTypes
    ensures GetPricingFilters(bucketRegion, objStorageClass) ==
      Filters(GetPricingFilters(bucketRegion, "STANDARD").usageType, "", "")
  {
  }

  /** An unknown region contributes no prefix: every unknown region gets the
      same filters. */
  lemma UnmappedRegion(bucketRegion: string, objStorageClass: string)
    requires bucketRegion !in RegionCodes
    ensures GetPricingFilters(bucketRegion, objStorageClass).usageType[..13] == "-TimedStorage"
    ensures forall other :: other !in RegionCodes ==>
      GetPricingFilters(other, objStorageClass) == GetPricingFilters(bucketRegion, objStorageClass)
  {
  }

  /** What a storage-class row contributes to a cache key after the region prefix. */
  function TailOf(st: StorageType): string {
    UsageSuffix(st.shortCode) + st.storageClass + st.volumeType
  }

  /** What a storage class contributes to a cache key after the region prefix. */
  function KeyTail(objStorageClass: string): string {
    TailOf(StorageTypeOf(objStorageClass))
  }

  lemma AssembledKey(prefix: string, st: StorageType)
    ensures CacheKey(Assemble(prefix, st)) == prefix + TailOf(st)
  {
    var u := UsageSuffix(st.shortCode);
    assert (prefix + u) + st.storageClass + st.volumeType == prefix + (u + st.storageClass + st.volumeType);
  }

  lemma KeyIsPrefixAndTail(bucketRegion: string, objStorageClass: string)
    ensures CacheKey(GetPricingFilters(bucketRegion, objStorageClass)) == RegionCode(bucketRegion) + KeyTail(objStorageClass)
  {
    AssembledKey(RegionCode(bucketRegion), StorageTypeOf(objStorageClass));
  }

  /** The length of a known class's key tail, and the character that
      tells the two infrequent-access classes apart. */
  lemma KeyTailShape(c: string)
    requires c in StorageTypes
    ensures c == "STANDARD" ==> |KeyTail(c)| == 44
    ensures c == "REDUCED_REDUNDANCY" ==> |KeyTail(c)| == 61
    ensures c == "STANDARD_IA" ==> |KeyTail(c)| == 71 && KeyTail(c)[14] == 'S'
    ensures c == "ONEZONE_IA" ==> |KeyTail(c)| == 71 && KeyTail(c)[14] == 'Z'
    ensures c == "INTELLIGENT_TIERING" ==> |KeyTail(c)| == 85
    ensures c == "GLACIER" ==> |KeyTail(c)| == 51
    ensures c == "DEEP_ARCHIVE" ==> |KeyTail(c)| == 53
  {
  }

  /** Two known classes have different key tails: the tails differ in
      length, or, for the two infrequent-access classes, in the short code. */
  lemma KnownTailsDiffer(c1: string, c2: string)
    requires c1 in StorageTypes && c2 in StorageTypes && c1 != c2
    ensures KeyTail(c1) != KeyTail(c2)
  {
    KeyTailShape(c1);
    KeyTailShape(c2);
  }

  /** A common prefix can be cancelled from equal strings. */
  lemma PrefixCancels(p: string, t1: string, t2: string)
    requires p + t1 == p + t2
    ensures t1 == t2
  {
    assert t1 == (p + t1)[|p|..];
    assert t2 == (p + t2)[|p|..];
  }

  /** Within one region, different known storage classes never share a
      cache entry. */
  lemma KnownClassesHaveDistinctKeys(bucketRegion: string, c1: string, c2: string)
    requires c1 in StorageTypes && c2 in StorageTypes && c1 != c2
    ensures CacheKey(GetPricingFilters(bucketRegion, c1)) != CacheKey(GetPricingFilters(bucketRegion, c2))
  {
    KeyIsPrefixAndTail(bucketRegion, c1);
    KeyIsPrefixAndTail(bucketRegion, c2);
    KnownTailsDiffer(c1, c2);
    if CacheKey(GetPricingFilters(bucketRegion, c1)) == CacheKey(GetPricingFilters(bucketRegion, c2)) {
      PrefixCancels(RegionCode(bucketRegion), KeyTail(c1), KeyTail(c2));
    }
  }
}
