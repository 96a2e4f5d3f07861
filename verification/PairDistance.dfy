/** The duplicate-suggestion counts in terms of hash digits: which pairs of assets are counted in which bucket. */
module PairDistance {
  import opened Text
  import opened PairCount

  // ---- the distance ----

  function Power2(n: nat): (p: nat)
    ensures p > 0
  {
    if n == 0 then 1 else 2 * Power2(n - 1)
  }

  /** The binary digits of the two numbers at this position differ. */
  predicate DifferAt(a: int, b: int, i: nat) {
    (a / Power2(i)) % 2 != (b / Power2(i)) % 2
  }

  function DifferingPositions(a: int, b: int, n: nat): set<nat> {
    set i: nat | i < n && DifferAt(a, b, i)
  }

  function CountDiffering(a: int, b: int, n: nat): nat {
    if n == 0 then 0 else CountDiffering(a, b, n - 1) + if DifferAt(a, b, n - 1) then 1 else 0
  }

  lemma {:induction false} CountIsPositions(a: int, b: int, n: nat)
    ensures CountDiffering(a, b, n) == |DifferingPositions(a, b, n)|
  {
    if n == 0 {
      assert DifferingPositions(a, b, 0) == {};
    } else {
      CountIsPositions(a, b, n - 1);
      assert DifferingPositions(a, b, n) == DifferingPositions(a, b, n - 1) + if DifferAt(a, b, n - 1) then {n - 1} else {};
    }
  }

  lemma HalfThenDivide(a: int, p: nat)
    requires p > 0
    ensures (a / 2) / p == a / (2 * p)
  {
    var (half, q) := (a / 2, a / 2 / p);
    var r := half - p * q;
    assert half == p * q + half % p;
    assert 0 <= r < p;
    assert 2 * half == (2 * p) * q + 2 * r;
    QuotientIs(a, 2 * p, q, 2 * r + a % 2);
  }

  lemma QuotientIs(a: int, d: nat, q: int, r: nat)
    requires r < d && a == d * q + r
    ensures a / d == q
  {
    var (other, rest) := (a / d, a % d);
    assert d * other + rest == d * q + r;
    assert d * (other - q) == r - rest;
    SmallMultiple(d, other - q);
  }

  lemma SmallMultiple(d: int, k: int)
    requires 0 < d && -d < d * k < d
    ensures k == 0
  {
    assert d * Abs(k) == d * k || d * Abs(k) == -(d * k);
    if k != 0 { MultipleGrows(d, Abs(k)); }
  }

  lemma {:induction false} MultipleGrows(d: nat, k: nat)
    requires k >= 1
    ensures d * k >= d
    decreases k
  {
    if k > 1 {
      MultipleGrows(d, k - 1);
      assert d * k == d * (k - 1) + d;
    }
  }

  lemma DigitsShift(a: int, b: int, i: nat)
    ensures DifferAt(a, b, i + 1) <==> DifferAt(a / 2, b / 2, i)
  {
    HalfThenDivide(a, Power2(i));
    HalfThenDivide(b, Power2(i));
  }

  lemma {:induction false} CountShifts(a: int, b: int, n: nat)
    ensures CountDiffering(a, b, n + 1) == CountDiffering(a / 2, b / 2, n) + if a % 2 != b % 2 then 1 else 0
  {
    if n == 0 {
      assert CountDiffering(a, b, 0) == 0 && Power2(0) == 1;
      assert DifferAt(a, b, 0) <==> a % 2 != b % 2;
    } else {
      CountShifts(a, b, n - 1);
      DigitsShift(a, b, n - 1);
    }
  }

  predicate SameSign(a: int, b: int) {
    a < 0 <==> b < 0
  }

  lemma {:induction false} XorOfSameSign(a: int, b: int)
    requires SameSign(a, b)
    ensures Xor(a, b) >= 0
    decreases Abs(a) + Abs(b)
  {
    if !(-1 <= a <= 0 && -1 <= b <= 0) { XorOfSameSign(a / 2, b / 2); }
  }

  /** The number has at most `n` binary digits before its sign. */
  predicate Fits(a: int, n: nat) {
    var p: int := Power2(n);
    -p <= a < p
  }

  lemma XorStep(a: int, b: int)
    requires SameSign(a, b)
    ensures HammingDistance(a, b) == HammingDistance(a / 2, b / 2) + if a % 2 != b % 2 then 1 else 0
  {
    XorOfSameSign(a, b);
    XorOfSameSign(a / 2, b / 2);
    var x := Xor(a / 2, b / 2);
    if -1 <= a <= 0 && -1 <= b <= 0 {
      assert a == b && a / 2 == a && Xor(a, b) == 0;
    } else {
      var d := if a % 2 == b % 2 then 0 else 1;
      assert Xor(a, b) == 2 * x + d;
      assert (2 * x + d) / 2 == x && (2 * x + d) % 2 == d;
    }
  }

  lemma {:induction false} DistanceCounts(a: int, b: int, n: nat)
    requires SameSign(a, b) && Fits(a, n) && Fits(b, n)
    ensures HammingDistance(a, b) == CountDiffering(a, b, n)
    decreases n
  {
    hide CountDiffering, HammingDistance;
    if n == 0 {
      assert a == b && -1 <= a <= 0;
      assert HammingDistance(a, b) == 0 == CountDiffering(a, b, 0) by { NoDigits(a); }
    } else {
      XorStep(a, b);
      assert Power2(n) == 2 * Power2(n - 1);
      DistanceCounts(a / 2, b / 2, n - 1);
      CountShifts(a, b, n - 1);
    }
  }

  lemma NoDigits(a: int)
    requires -1 <= a <= 0
    ensures HammingDistance(a, a) == 0 && CountDiffering(a, a, 0) == 0
  {
  }

  /** The distance of two hashes is the number of binary digits in which they differ. */
  lemma DistanceIsPositions(a: int, b: int, n: nat)
    requires SameSign(a, b) && Fits(a, n) && Fits(b, n)
    ensures HammingDistance(a, b) == |DifferingPositions(a, b, n)|
  {
    DistanceCounts(a, b, n);
    CountIsPositions(a, b, n);
  }

  // ---- the counted pairs ----

  /** What the script looks rejections up in: each stored pair with its smaller identifier first. */
  function Canonical(rejections: set<(string, string)>): set<(string, string)> {
    set p | p in rejections :: CanonicalPair(p.0, p.1)
  }

  lemma RejectedEitherWay(rejections: set<(string, string)>, x: Asset, y: Asset)
    ensures Rejected(Canonical(rejections), x, y) <==> (x.sha, y.sha) in rejections || (y.sha, x.sha) in rejections
  {
    hide TextLeq;
    CanonicalPairSymmetric(x.sha, y.sha);
    if Rejected(Canonical(rejections), x, y) {
      var p :| p in rejections && CanonicalPair(p.0, p.1) == CanonicalPair(x.sha, y.sha);
      assert p == (p.0, p.1);
    }
    if (x.sha, y.sha) in rejections { assert CanonicalPair(x.sha, y.sha) in Canonical(rejections); }
    if (y.sha, x.sha) in rejections { assert CanonicalPair(y.sha, x.sha) in Canonical(rejections); }
  }

  /** Every parsed hash has at most `n` digits. */
  predicate HashesFit(s: seq<Asset>, n: nat) {
    forall i :: 0 <= i < |s| && s[i].hash.Some? ==> s[i].hash.value >= 0 && Fits(s[i].hash.value, n)
  }

  predicate InOneGroup(x: Asset, y: Asset) {
    x.group.Some? && x.group == y.group
  }

  /** The pairs of positions that a bucket counts. */
  ghost function BucketPairs(s: seq<Asset>, rejections: set<(string, string)>, bucketFor: Buckets, bucket: Bucket, n: nat)
    : set<(nat, nat)>
  {
    set i: nat, j: nat | i < |s| && i < j < |s|
      && s[i].hash.Some? && s[j].hash.Some? && !InOneGroup(s[i], s[j])
      && (s[i].sha, s[j].sha) !in rejections && (s[j].sha, s[i].sha) !in rejections
      && |DifferingPositions(s[i].hash.value, s[j].hash.value, n)| <= 15
      && bucketFor(|DifferingPositions(s[i].hash.value, s[j].hash.value, n)|) == Some(bucket) :: (i, j)
  }

  lemma BucketCounts(s: seq<Asset>, rejections: set<(string, string)>, bucketFor: Buckets, bucket: Bucket, n: nat)
    requires HashesFit(s, n)
    ensures Count(s, Suggested(Canonical(rejections), bucketFor, bucket)) == |BucketPairs(s, rejections, bucketFor, bucket, n)|
  {
    hide HammingDistance, DifferingPositions, Rejected, Canonical, Count;
    var f := Suggested(Canonical(rejections), bucketFor, bucket);
    CountIsPairs(s, f, 0);
    assert s[0..] == s;
    forall i: nat, j: nat | i < |s| && i < j < |s|
      ensures (i, j) in Pairs(s, f, 0) <==> (i, j) in BucketPairs(s, rejections, bucketFor, bucket, n)
    {
      RejectedEitherWay(rejections, s[i], s[j]);
      if s[i].hash.Some? && s[j].hash.Some? { DistanceIsPositions(s[i].hash.value, s[j].hash.value, n); }
    }
    assert Pairs(s, f, 0) == BucketPairs(s, rejections, bucketFor, bucket, n);
  }

  ghost function GroupPairs(s: seq<Asset>): set<(nat, nat)> {
    set i: nat, j: nat | i < |s| && i < j < |s| && s[i].hash.Some? && InOneGroup(s[i], s[j]) :: (i, j)
  }

  ghost function RejectedPairs(s: seq<Asset>, rejections: set<(string, string)>): set<(nat, nat)> {
    set i: nat, j: nat | i < |s| && i < j < |s| && s[i].hash.Some? && !InOneGroup(s[i], s[j])
      && ((s[i].sha, s[j].sha) in rejections || (s[j].sha, s[i].sha) in rejections) :: (i, j)
  }

  lemma ExclusionsCount(s: seq<Asset>, rejections: set<(string, string)>)
    ensures Count(s, LookedAt(InSameGroup())) == |GroupPairs(s)|
    ensures Count(s, LookedAt(RejectedElsewhere(Canonical(rejections)))) == |RejectedPairs(s, rejections)|
  {
    hide Rejected, Canonical, Count;
    var (g, f) := (LookedAt(InSameGroup()), LookedAt(RejectedElsewhere(Canonical(rejections))));
    CountIsPairs(s, g, 0);
    CountIsPairs(s, f, 0);
    assert s[0..] == s;
    forall i: nat, j: nat | i < |s| && i < j < |s|
      ensures (i, j) in Pairs(s, f, 0) <==> (i, j) in RejectedPairs(s, rejections)
    {
      RejectedEitherWay(rejections, s[i], s[j]);
    }
    assert Pairs(s, g, 0) == GroupPairs(s);
    assert Pairs(s, f, 0) == RejectedPairs(s, rejections);
  }

  /**
   * The script's five counters: a bucket counts the pairs of positions with both hashes parsed, not in one group, not
   * rejected in either order, whose hashes differ in that many digits, at most 15; the exclusion counters count the pairs
   * in one group and the other rejected pairs whose first hash is parsed.
   */
  lemma StatsCountPairs(s: seq<Asset>, rejections: set<(string, string)>, bucketFor: Buckets, n: nat)
    requires HashesFit(s, n)
    ensures var st := StatsOf(s, Canonical(rejections), bucketFor);
      && st.high == |BucketPairs(s, rejections, bucketFor, High, n)|
      && st.medium == |BucketPairs(s, rejections, bucketFor, Medium, n)|
      && st.low == |BucketPairs(s, rejections, bucketFor, Low, n)|
      && st.sameGroup == |GroupPairs(s)| && st.rejected == |RejectedPairs(s, rejections)|
  {
    hide BucketPairs, GroupPairs, RejectedPairs, Canonical, Count;
    BucketCounts(s, rejections, bucketFor, High, n);
    BucketCounts(s, rejections, bucketFor, Medium, n);
    BucketCounts(s, rejections, bucketFor, Low, n);
    ExclusionsCount(s, rejections);
  }
}
