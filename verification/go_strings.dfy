/** Go's built-in ordering of strings. Go compares strings byte by byte in
    their UTF-8 encoding; UTF-8 preserves the order of code points, so on
    `seq<char>` the same order is the lexicographic order of characters,
    where a proper prefix comes first. */
module GoStrings {

  /** `a < b` for Go strings. */
  predicate Less(a: string, b: string)
    decreases |a|
  {
    if |a| == 0 then |b| > 0
    else if |b| == 0 then false
    else a[0] < b[0] || (a[0] == b[0] && Less(a[1..], b[1..]))
  }

  /** `a` and `b` agree on their first `k` characters, and position `k` is
      where `a` ends while `b` goes on, or where `a` holds the smaller character. */
  predicate FirstDifferenceAt(a: string, b: string, k: nat) {
    && k <= |a| && k <= |b|
    && a[..k] == b[..k]
    && ((k == |a| && k < |b|) || (k < |a| && k < |b| && a[k] < b[k]))
  }

  /** `Less` is exactly the textbook lexicographic order. */
  lemma {:induction false} LessIffFirstDifference(a: string, b: string)
    ensures Less(a, b) <==> exists k: nat :: FirstDifferenceAt(a, b, k)
    decreases |a|
  {
    if Less(a, b) {
      if |a| == 0 || a[0] < b[0] {
        assert FirstDifferenceAt(a, b, 0);
      } else {
        LessIffFirstDifference(a[1..], b[1..]);
        var k: nat :| FirstDifferenceAt(a[1..], b[1..], k);
        assert a[..k + 1] == [a[0]] + a[1..][..k];
        assert b[..k + 1] == [b[0]] + b[1..][..k];
        assert FirstDifferenceAt(a, b, k + 1);
      }
    }
    if exists k: nat :: FirstDifferenceAt(a, b, k) {
      var k: nat :| FirstDifferenceAt(a, b, k);
      if k > 0 {
        assert a[0] == a[..k][0] == b[..k][0] == b[0];
        assert a[1..][..k - 1] == a[..k][1..];
        assert b[1..][..k - 1] == b[..k][1..];
        assert FirstDifferenceAt(a[1..], b[1..], k - 1);
        LessIffFirstDifference(a[1..], b[1..]);
      }
    }
  }

  lemma {:induction false} LessIrreflexive(a: string)
    ensures !Less(a, a)
    decreases |a|
  {
    if |a| > 0 {
      LessIrreflexive(a[1..]);
    }
  }

  lemma {:induction false} LessAsymmetric(a: string, b: string)
    ensures Less(a, b) ==> !Less(b, a)
    decreases |a|
  {
    if |a| > 0 && |b| > 0 && a[0] == b[0] {
      LessAsymmetric(a[1..], b[1..]);
    }
  }

  lemma {:induction false} LessTransitive(a: string, b: string, c: string)
    requires Less(a, b) && Less(b, c)
    ensures Less(a, c)
    decreases |a|
  {
    if |a| > 0 && a[0] == b[0] == c[0] {
      LessTransitive(a[1..], b[1..], c[1..]);
    }
  }

  /** Any two different strings are ordered one way or the other. */
  lemma {:induction false} LessTrichotomous(a: string, b: string)
    ensures a == b || Less(a, b) || Less(b, a)
    decreases |a|
  {
    if |a| > 0 && |b| > 0 && a[0] == b[0] {
      LessTrichotomous(a[1..], b[1..]);
      if a[1..] == b[1..] {
        assert a == [a[0]] + a[1..] && b == [b[0]] + b[1..];
      }
    }
  }
}
