/** The ordering of buckets by owner, then name (sortableBuckets and
    sortBuckets in commands/list.go). The listing command never calls the
    sort; it is modelled as the library operation it is. */
module BucketOrder {
  import GoStrings
  import opened Inventory

  /** sortableBuckets.Less: the same owner and a smaller name, or a smaller
      owner. */
  predicate Less(a: Bucket, b: Bucket) {
    || (a.owner == b.owner && GoStrings.Less(a.name, b.name))
    || GoStrings.Less(a.owner, b.owner)
  }

  /** Two buckets the order cannot tell apart. */
  predicate SameKey(a: Bucket, b: Bucket) {
    a.owner == b.owner && a.name == b.name
  }

  lemma LessIrreflexive(a: Bucket)
    ensures !Less(a, a)
  {
    GoStrings.LessIrreflexive(a.owner);
    GoStrings.LessIrreflexive(a.name);
  }

  lemma LessAsymmetric(a: Bucket, b: Bucket)
    ensures Less(a, b) ==> !Less(b, a)
  {
    GoStrings.LessAsymmetric(a.owner, b.owner);
    GoStrings.LessAsymmetric(a.name, b.name);
    GoStrings.LessIrreflexive(a.owner);
  }

  lemma LessTransitive(a: Bucket, b: Bucket, c: Bucket)
    requires Less(a, b) && Less(b, c)
    ensures Less(a, c)
  {
    if a.owner == b.owner == c.owner {
      GoStrings.LessIrreflexive(a.owner);
      GoStrings.LessTransitive(a.name, b.name, c.name);
    } else if a.owner == b.owner {
      assert GoStrings.Less(b.owner, c.owner);
    } else if b.owner == c.owner {
      assert GoStrings.Less(a.owner, b.owner);
    } else {
      GoStrings.LessTransitive(a.owner, b.owner, c.owner);
    }
  }

  /** Buckets with different (owner, name) keys are always ordered. */
  lemma LessConnected(a: Bucket, b: Bucket)
    ensures SameKey(a, b) || Less(a, b) || Less(b, a)
  {
    GoStrings.LessTrichotomous(a.owner, b.owner);
    GoStrings.LessTrichotomous(a.name, b.name);
  }

  /** "Not less" is transitive, the fact a sort relies on. */
  lemma NotLessTransitive(a: Bucket, b: Bucket, c: Bucket)
    requires !Less(a, b) && !Less(b, c)
    ensures !Less(a, c)
  {
    if Less(a, c) {
      LessConnected(a, b);
      if !SameKey(a, b) {
        LessTransitive(b, a, c);
      }
    }
  }

  /** No bucket is followed by one that is Less than it. */
  ghost predicate Sorted(s: seq<Bucket>) {
    forall i, j :: 0 <= i < j < |s| ==> !Less(s[j], s[i])
  }

  /** Inserts `x` before the first bucket that is not Less than it. */
  function Insert(x: Bucket, s: seq<Bucket>): (r: seq<Bucket>)
    requires Sorted(s)
    ensures Sorted(r)
    ensures multiset(r) == multiset(s) + multiset{x}
    ensures forall y :: y in r ==> y == x || y in s
    decreases |s|
  {
    if |s| == 0 then [x]
    else if !Less(s[0], x) then
      InsertAtFront(x, s);
      assert s == [s[0]] + s[1..];
      [x] + s
    else
      var rest := Insert(x, s[1..]);
      InsertBehindHead(x, s, rest);
      assert s == [s[0]] + s[1..];
      [s[0]] + rest
  }

  /** `x` may go in front of a sorted sequence whose head is not Less than it. */
  lemma InsertAtFront(x: Bucket, s: seq<Bucket>)
    requires Sorted(s) && |s| > 0 && !Less(s[0], x)
    ensures Sorted([x] + s)
  {
    forall j | 0 < j < |s| ensures !Less(s[j], x) {
      NotLessTransitive(s[j], s[0], x);
    }
    var r := [x] + s;
    forall i, j | 0 <= i < j < |r| ensures !Less(r[j], r[i]) {
      assert r[j] == s[j - 1];
      if i > 0 {
        assert r[i] == s[i - 1];
      }
    }
  }

  /** The head of a sorted sequence may stay in front of the insertion of a
      later bucket `x` into its tail. */
  lemma InsertBehindHead(x: Bucket, s: seq<Bucket>, rest: seq<Bucket>)
    requires Sorted(s) && |s| > 0 && Less(s[0], x)
    requires Sorted(rest) && forall y :: y in rest ==> y == x || y in s[1..]
    ensures Sorted([s[0]] + rest)
  {
    forall y | y in rest ensures !Less(y, s[0]) {
      if y == x {
        LessAsymmetric(s[0], x);
      } else {
        var k :| 0 <= k < |s[1..]| && s[1..][k] == y;
        assert s[k + 1] == y;
      }
    }
    var r := [s[0]] + rest;
    forall i, j | 0 <= i < j < |r| ensures !Less(r[j], r[i]) {
      assert r[j] == rest[j - 1] && r[j] in rest;
      if i > 0 {
        assert r[i] == rest[i - 1];
      }
    }
  }

  /** sortBuckets: a permutation of its input, ascending by Less. */
  function SortBuckets(s: seq<Bucket>): (r: seq<Bucket>)
    ensures Sorted(r)
    ensures multiset(r) == multiset(s)
    decreases |s|
  {
    if |s| == 0 then []
    else
      assert s == [s[0]] + s[1..];
      Insert(s[0], SortBuckets(s[1..]))
  }

  /** What "sorted" means for a sequence of buckets: owners ascend, and
      within one owner, names ascend. Any sorted arrangement, including the
      one an unstable sort happens to produce, has this shape. */
  lemma SortedByOwnerThenName(s: seq<Bucket>, i: int, j: int)
    requires Sorted(s) && 0 <= i < j < |s|
    ensures s[i].owner == s[j].owner || GoStrings.Less(s[i].owner, s[j].owner)
    ensures s[i].owner == s[j].owner ==> s[i].name == s[j].name || GoStrings.Less(s[i].name, s[j].name)
  {
    assert !Less(s[j], s[i]);
    GoStrings.LessTrichotomous(s[i].owner, s[j].owner);
    GoStrings.LessTrichotomous(s[i].name, s[j].name);
  }

  /** Two buckets of the account "default" listed as "b-two", "b-one" come
      out of any sort as "b-one", "b-two". */
  lemma SortExample(r: seq<Bucket>, two: Bucket, one: Bucket)
    requires two.owner == "default" && two.name == "b-two"
    requires one.owner == "default" && one.name == "b-one"
    requires Sorted(r) && multiset(r) == multiset([two, one])
    ensures r == [one, two]
  {
    assert GoStrings.Less("one", "two");
    assert GoStrings.Less("-one", "-two");
    assert GoStrings.Less("b-one", "b-two");
    assert Less(one, two);
    assert |r| == 2 by {
      assert |multiset(r)| == |r|;
    }
    assert r == [r[0], r[1]];
    assert multiset{r[0], r[1]} == multiset{two, one};
  }
}
