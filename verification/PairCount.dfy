/** The duplicate-suggestion statistics: a count over pairs of assets, and what of it depends on their order. */
module PairCount {
  import opened Text
  import opened Sequences

  const MAX_SUGGESTION_DISTANCE := 15

  datatype Bucket = High | Medium | Low

  /** `hash` is the parsed perceptual hash, absent when the stored text is no hexadecimal number. */
  datatype Asset = Asset(sha: string, hash: Option<int>, group: Option<int>)

  // ---- distance ----

  function Abs(a: int): nat {
    if a < 0 then -a else a
  }

  /** Exclusive or of integers in two's complement of any width. */
  function Xor(a: int, b: int): int
    decreases Abs(a) + Abs(b)
  {
    if -1 <= a <= 0 && -1 <= b <= 0 then (if a == b then 0 else -1)
    else 2 * Xor(a / 2, b / 2) + (if a % 2 == b % 2 then 0 else 1)
  }

  function BitCount(n: nat): nat {
    if n == 0 then 0 else n % 2 + BitCount(n / 2)
  }

  function HammingDistance(a: int, b: int): nat {
    BitCount(Abs(Xor(a, b)))
  }

  lemma {:induction false} XorSymmetric(a: int, b: int)
    ensures Xor(a, b) == Xor(b, a)
    decreases Abs(a) + Abs(b)
  {
    if !(-1 <= a <= 0 && -1 <= b <= 0) { XorSymmetric(a / 2, b / 2); }
  }

  // ---- one pair ----

  function CanonicalPair(a: string, b: string): (string, string) {
    if TextLeq(a, b) then (a, b) else (b, a)
  }

  predicate SameGroup(x: Asset, y: Asset) {
    x.group.Some? && y.group.Some? && x.group == y.group
  }

  predicate Rejected(rejected: set<(string, string)>, x: Asset, y: Asset) {
    CanonicalPair(x.sha, y.sha) in rejected
  }

  lemma CanonicalPairSymmetric(a: string, b: string)
    ensures CanonicalPair(a, b) == CanonicalPair(b, a)
  {
    TextLeqTotal(a, b);
    if TextLeq(a, b) && TextLeq(b, a) { TextLeqAntisymmetric(a, b); }
  }

  /** Any function from distances to confidence buckets, that of the suggestion service among them. */
  type Buckets = nat -> Option<Bucket>

  /** The pair is suggested, in this bucket. */
  predicate Suggests(rejected: set<(string, string)>, bucketFor: Buckets, x: Asset, y: Asset, bucket: Bucket) {
    && x.hash.Some? && y.hash.Some?
    && !SameGroup(x, y) && !Rejected(rejected, x, y)
    && var d := HammingDistance(x.hash.value, y.hash.value);
       d <= MAX_SUGGESTION_DISTANCE && bucketFor(d) == Some(bucket)
  }

  // ---- counting pairs ----

  type Criterion = (Asset, Asset) -> bool

  /** How many of `ys` meet the criterion after `x`. */
  function With(x: Asset, ys: seq<Asset>, f: Criterion): nat {
    if ys == [] then 0 else (if f(x, ys[0]) then 1 else 0) + With(x, ys[1..], f)
  }

  /** How many pairs meet the criterion, the earlier asset on the left. */
  function Count(s: seq<Asset>, f: Criterion): nat {
    if s == [] then 0 else With(s[0], s[1..], f) + Count(s[1..], f)
  }

  ghost predicate Symmetric(f: Criterion) {
    forall x, y :: f(x, y) == f(y, x)
  }

  lemma {:induction false} WithSplits(x: Asset, a: seq<Asset>, b: seq<Asset>, f: Criterion)
    ensures With(x, a + b, f) == With(x, a, f) + With(x, b, f)
  {
    if a == [] {
      assert a + b == b;
    } else {
      WithSplits(x, a[1..], b, f);
      assert (a + b)[1..] == a[1..] + b;
    }
  }

  /** Moving one asset to the front does not change a symmetric count. */
  lemma {:induction false} CountMoves(a: seq<Asset>, x: Asset, b: seq<Asset>, f: Criterion)
    requires Symmetric(f)
    ensures Count(a + [x] + b, f) == With(x, a + b, f) + Count(a + b, f)
  {
    if a == [] {
      assert a + [x] + b == [x] + b && a + b == b;
    } else {
      var t := a[1..];
      CountMoves(t, x, b, f);
      assert (a + [x] + b)[1..] == t + [x] + b && (a + b)[1..] == t + b;
      assert t + [x] + b == t + ([x] + b);
      WithSplits(a[0], t, [x] + b, f);
      WithSplits(a[0], [x], b, f);
      WithSplits(a[0], t, b, f);
      assert With(a[0], [x], f) == if f(x, a[0]) then 1 else 0;
    }
  }

  lemma WithMoves(x: Asset, a: seq<Asset>, y: Asset, b: seq<Asset>, f: Criterion)
    ensures With(x, a + [y] + b, f) == With(x, a + b, f) + if f(x, y) then 1 else 0
  {
    assert a + [y] + b == a + ([y] + b);
    WithSplits(x, a, [y] + b, f);
    WithSplits(x, [y], b, f);
    WithSplits(x, a, b, f);
  }

  lemma {:induction false} WithRearranged(x: Asset, a: seq<Asset>, b: seq<Asset>, f: Criterion)
    requires multiset(a) == multiset(b)
    ensures With(x, a, f) == With(x, b, f)
    decreases |a|
  {
    if a == [] {
      assert |multiset(b)| == |b| == 0;
    } else {
      var i := FirstElsewhere(a, b);
      WithRearranged(x, a[1..], b[..i] + b[i + 1..], f);
      WithMoves(x, b[..i], a[0], b[i + 1..], f);
    }
  }

  /** A symmetric criterion counts the same in every order of the assets. */
  lemma {:induction false} CountRearranged(a: seq<Asset>, b: seq<Asset>, f: Criterion)
    requires Symmetric(f) && multiset(a) == multiset(b)
    ensures Count(a, f) == Count(b, f)
    decreases |a|
  {
    if a == [] {
      assert |multiset(b)| == |b| == 0;
    } else {
      var i := FirstElsewhere(a, b);
      var rest := b[..i] + b[i + 1..];
      CountMoves(b[..i], a[0], b[i + 1..], f);
      WithRearranged(a[0], a[1..], rest, f);
      CountRearranged(a[1..], rest, f);
      hide With;
    }
  }

  // ---- the counters ----

  function Suggested(rejected: set<(string, string)>, bucketFor: Buckets, bucket: Bucket): Criterion {
    (x, y) => Suggests(rejected, bucketFor, x, y, bucket)
  }

  /** A pair is only looked at when its left hash parses. */
  function LookedAt(f: Criterion): Criterion {
    (x: Asset, y: Asset) => x.hash.Some? && f(x, y)
  }

  function InSameGroup(): Criterion {
    (x, y) => SameGroup(x, y)
  }

  function RejectedElsewhere(rejected: set<(string, string)>): Criterion {
    (x, y) => !SameGroup(x, y) && Rejected(rejected, x, y)
  }

  lemma SuggestedIsSymmetric(rejected: set<(string, string)>, bucketFor: Buckets, bucket: Bucket)
    ensures Symmetric(Suggested(rejected, bucketFor, bucket))
  {
    forall x, y ensures Suggests(rejected, bucketFor, x, y, bucket) == Suggests(rejected, bucketFor, y, x, bucket) {
      CanonicalPairSymmetric(x.sha, y.sha);
      if x.hash.Some? && y.hash.Some? { XorSymmetric(x.hash.value, y.hash.value); }
    }
  }

  lemma ExclusionsAreSymmetric(rejected: set<(string, string)>)
    ensures Symmetric(InSameGroup()) && Symmetric(RejectedElsewhere(rejected))
  {
    forall x: Asset, y: Asset ensures CanonicalPair(x.sha, y.sha) == CanonicalPair(y.sha, x.sha) {
      CanonicalPairSymmetric(x.sha, y.sha);
    }
  }

  /** What the script counts. */
  datatype Stats = Stats(high: nat, medium: nat, low: nat, sameGroup: nat, rejected: nat)
  {
    function Total(): nat {
      high + medium + low
    }
  }

  function StatsOf(s: seq<Asset>, rejected: set<(string, string)>, bucketFor: Buckets): Stats {
    Stats(Count(s, Suggested(rejected, bucketFor, High)), Count(s, Suggested(rejected, bucketFor, Medium)),
          Count(s, Suggested(rejected, bucketFor, Low)), Count(s, LookedAt(InSameGroup())),
          Count(s, LookedAt(RejectedElsewhere(rejected))))
  }

  /** For any bucket function, the suggestions per bucket and in total are the same for every order of the assets. */
  lemma SuggestionsAreOrderFree(a: seq<Asset>, b: seq<Asset>, rejected: set<(string, string)>, bucketFor: Buckets)
    requires multiset(a) == multiset(b)
    ensures var (p, q) := (StatsOf(a, rejected, bucketFor), StatsOf(b, rejected, bucketFor));
      p.high == q.high && p.medium == q.medium && p.low == q.low && p.Total() == q.Total()
  {
    SuggestedIsSymmetric(rejected, bucketFor, High);
    SuggestedIsSymmetric(rejected, bucketFor, Medium);
    SuggestedIsSymmetric(rejected, bucketFor, Low);
    CountRearranged(a, b, Suggested(rejected, bucketFor, High));
    CountRearranged(a, b, Suggested(rejected, bucketFor, Medium));
    CountRearranged(a, b, Suggested(rejected, bucketFor, Low));
  }

  // ---- counts as sets of pairs ----

  /** The pairs of positions from `k` on that meet the criterion. */
  ghost function Pairs(s: seq<Asset>, f: Criterion, k: nat): set<(nat, nat)> {
    set i: nat, j: nat | k <= i < |s| && i < j < |s| && f(s[i], s[j]) :: (i, j)
  }

  ghost function PairsOf(s: seq<Asset>, f: Criterion, i: nat, m: nat): set<(nat, nat)>
    requires i < |s|
  {
    set j: nat | m <= j < |s| && f(s[i], s[j]) :: (i, j)
  }

  lemma {:induction false} WithIsPairs(s: seq<Asset>, f: Criterion, i: nat, m: nat)
    requires i < |s| && m <= |s|
    ensures With(s[i], s[m..], f) == |PairsOf(s, f, i, m)|
    decreases |s| - m
  {
    if m == |s| {
      assert PairsOf(s, f, i, m) == {};
    } else {
      WithIsPairs(s, f, i, m + 1);
      assert s[m..][1..] == s[m + 1..];
      assert PairsOf(s, f, i, m) == PairsOf(s, f, i, m + 1) + if f(s[i], s[m]) then {(i, m)} else {};
    }
  }

  /** A symmetric count is the number of unordered pairs, each named by its positions in order. */
  lemma {:induction false} CountIsPairs(s: seq<Asset>, f: Criterion, k: nat)
    requires k <= |s|
    ensures Count(s[k..], f) == |Pairs(s, f, k)|
    decreases |s| - k
  {
    if k == |s| {
      assert Pairs(s, f, k) == {};
    } else {
      CountIsPairs(s, f, k + 1);
      WithIsPairs(s, f, k, k + 1);
      assert s[k..][1..] == s[k + 1..];
      assert Pairs(s, f, k) == PairsOf(s, f, k, k + 1) + Pairs(s, f, k + 1);
    }
  }

  // ---- the exclusion counters depend on the order ----

  /** Some pair meets the criterion with exactly one parsable hash. */
  ghost predicate Mixed(s: seq<Asset>, g: Criterion) {
    exists i, j :: 0 <= i < |s| && 0 <= j < |s| && s[i].hash.Some? && s[j].hash.None? && g(s[i], s[j])
  }

  /** The assets whose hash parses, or does not. */
  function Having(s: seq<Asset>, parsed: bool): seq<Asset> {
    if s == [] then [] else (if s[0].hash.Some? == parsed then [s[0]] else []) + Having(s[1..], parsed)
  }

  lemma {:induction false} HavingMembers(s: seq<Asset>, parsed: bool)
    ensures forall x :: x in Having(s, parsed) <==> x in s && x.hash.Some? == parsed
  {
    if s != [] {
      HavingMembers(s[1..], parsed);
      assert s == [s[0]] + s[1..];
    }
  }

  lemma {:induction false} HavingParts(s: seq<Asset>)
    ensures multiset(Having(s, true)) + multiset(Having(s, false)) == multiset(s)
  {
    if s != [] {
      HavingParts(s[1..]);
      assert s == [s[0]] + s[1..];
      assert multiset(s) == multiset{s[0]} + multiset(s[1..]);
      var first := s[0].hash.Some?;
      assert multiset(Having(s, first)) == multiset{s[0]} + multiset(Having(s[1..], first));
      assert Having(s, !first) == Having(s[1..], !first);
    }
  }

  lemma {:induction false} WithAgrees(x: Asset, ys: seq<Asset>, f: Criterion, h: Criterion)
    requires forall y :: y in ys ==> f(x, y) == h(x, y)
    ensures With(x, ys, f) == With(x, ys, h)
  {
    if ys != [] { WithAgrees(x, ys[1..], f, h); }
  }

  lemma {:induction false} CountAgrees(s: seq<Asset>, f: Criterion, h: Criterion)
    requires forall x, y :: x in s && y in s ==> f(x, y) == h(x, y)
    ensures Count(s, f) == Count(s, h)
  {
    if s != [] {
      WithAgrees(s[0], s[1..], f, h);
      CountAgrees(s[1..], f, h);
    }
  }

  lemma {:induction false} UnparsedLeft(x: Asset, ys: seq<Asset>, g: Criterion)
    requires x.hash.None?
    ensures With(x, ys, LookedAt(g)) == 0
  {
    if ys != [] { UnparsedLeft(x, ys[1..], g); }
  }

  /** The pairs with the first asset from `p` and the second from `u`. */
  function Cross(p: seq<Asset>, u: seq<Asset>, f: Criterion): nat {
    if p == [] then 0 else With(p[0], u, f) + Cross(p[1..], u, f)
  }

  lemma {:induction false} CountJoined(p: seq<Asset>, u: seq<Asset>, f: Criterion)
    ensures Count(p + u, f) == Count(p, f) + Cross(p, u, f) + Count(u, f)
  {
    if p == [] {
      assert p + u == u;
    } else {
      CountJoined(p[1..], u, f);
      assert (p + u)[1..] == p[1..] + u;
      WithSplits(p[0], p[1..], u, f);
    }
  }

  lemma {:induction false} UnparsedCountNothing(u: seq<Asset>, p: seq<Asset>, g: Criterion)
    requires forall x :: x in u ==> x.hash.None?
    ensures Count(u, LookedAt(g)) == 0 && Cross(u, p, LookedAt(g)) == 0
  {
    if u != [] {
      UnparsedLeft(u[0], u[1..], g);
      UnparsedLeft(u[0], p, g);
      UnparsedCountNothing(u[1..], p, g);
    }
  }

  lemma {:induction false} WithSome(x: Asset, ys: seq<Asset>, f: Criterion)
    ensures With(x, ys, f) == 0 <==> forall y :: y in ys ==> !f(x, y)
  {
    if ys != [] {
      WithSome(x, ys[1..], f);
      assert ys == [ys[0]] + ys[1..];
    }
  }

  lemma {:induction false} CrossSome(p: seq<Asset>, u: seq<Asset>, f: Criterion)
    ensures Cross(p, u, f) == 0 <==> forall x, y :: x in p && y in u ==> !f(x, y)
  {
    if p != [] {
      CrossSome(p[1..], u, f);
      WithSome(p[0], u, f);
      assert p == [p[0]] + p[1..];
    }
  }

  /** A pair counts only when both hashes parse. */
  function BothParsed(g: Criterion): Criterion {
    (x: Asset, y: Asset) => x.hash.Some? && y.hash.Some? && g(x, y)
  }

  lemma UnmixedIsSymmetric(s: seq<Asset>, g: Criterion)
    requires Symmetric(g) && !Mixed(s, g)
    ensures Count(s, LookedAt(g)) == Count(s, BothParsed(g))
  {
    forall x, y | x in s && y in s ensures LookedAt(g)(x, y) == BothParsed(g)(x, y) {
      var i :| 0 <= i < |s| && s[i] == x;
      var j :| 0 <= j < |s| && s[j] == y;
    }
    CountAgrees(s, LookedAt(g), BothParsed(g));
  }

  lemma MixedRearranged(a: seq<Asset>, b: seq<Asset>, g: Criterion)
    requires multiset(a) == multiset(b) && Mixed(b, g)
    ensures Mixed(a, g)
  {
    var i, j :| 0 <= i < |b| && 0 <= j < |b| && b[i].hash.Some? && b[j].hash.None? && g(b[i], b[j]);
    assert b[i] in multiset(a) && b[j] in multiset(a);
    var k :| 0 <= k < |a| && a[k] == b[i];
    var l :| 0 <= l < |a| && a[l] == b[j];
  }

  /** Parsable assets first count one more for every mixed pair than parsable assets last. */
  lemma ArrangementsCount(s: seq<Asset>, g: Criterion)
    ensures var (p, u) := (Having(s, true), Having(s, false));
      Count(p + u, LookedAt(g)) == Count(u + p, LookedAt(g)) + Cross(p, u, LookedAt(g))
  {
    var p, u := Having(s, true), Having(s, false);
    HavingMembers(s, false);
    hide Having, Count, Cross, LookedAt;
    CountJoined(p, u, LookedAt(g));
    CountJoined(u, p, LookedAt(g));
    UnparsedCountNothing(u, p, g);
  }

  lemma ArrangementsRearrange(s: seq<Asset>)
    ensures multiset(Having(s, true) + Having(s, false)) == multiset(s)
    ensures multiset(Having(s, false) + Having(s, true)) == multiset(s)
  {
    HavingParts(s);
  }

  lemma MixedCrosses(s: seq<Asset>, g: Criterion)
    requires Mixed(s, g)
    ensures Cross(Having(s, true), Having(s, false), LookedAt(g)) > 0
  {
    var i, j :| 0 <= i < |s| && 0 <= j < |s| && s[i].hash.Some? && s[j].hash.None? && g(s[i], s[j]);
    HavingMembers(s, true);
    HavingMembers(s, false);
    CrossSome(Having(s, true), Having(s, false), LookedAt(g));
    assert s[i] in Having(s, true) && s[j] in Having(s, false) && LookedAt(g)(s[i], s[j]);
  }

  ghost predicate OrderFree(a: seq<Asset>, f: Criterion) {
    forall b :: multiset(b) == multiset(a) ==> Count(b, f) == Count(a, f)
  }

  lemma UnmixedOrderFree(a: seq<Asset>, b: seq<Asset>, g: Criterion)
    requires Symmetric(g) && !Mixed(a, g) && multiset(b) == multiset(a)
    ensures Count(b, LookedAt(g)) == Count(a, LookedAt(g))
  {
    assert !Mixed(b, g) by {
      if Mixed(b, g) { MixedRearranged(a, b, g); }
    }
    hide Mixed, Count;
    UnmixedIsSymmetric(a, g);
    UnmixedIsSymmetric(b, g);
    CountRearranged(a, b, BothParsed(g));
  }

  /**
   * An exclusion counter is the same for every order of the assets exactly when no excluded pair has one parsable and
   * one unparsable hash.
   */
  lemma ExclusionOrderFreeIff(a: seq<Asset>, g: Criterion)
    requires Symmetric(g)
    ensures OrderFree(a, LookedAt(g)) <==> !Mixed(a, g)
  {
    hide Mixed, Count, Having, Cross, LookedAt, Symmetric;
    if Mixed(a, g) {
      var p, u := Having(a, true), Having(a, false);
      ArrangementsRearrange(a);
      ArrangementsCount(a, g);
      MixedCrosses(a, g);
      assert Count(p + u, LookedAt(g)) != Count(u + p, LookedAt(g));
    } else {
      forall b | multiset(b) == multiset(a) ensures Count(b, LookedAt(g)) == Count(a, LookedAt(g)) {
        UnmixedOrderFree(a, b, g);
      }
    }
  }

  /** The two exclusion counters of the script are order-free exactly under that condition. */
  lemma ExclusionsOrderFreeIff(a: seq<Asset>, rejected: set<(string, string)>)
    ensures OrderFree(a, LookedAt(InSameGroup())) <==> !Mixed(a, InSameGroup())
    ensures OrderFree(a, LookedAt(RejectedElsewhere(rejected))) <==> !Mixed(a, RejectedElsewhere(rejected))
  {
    ExclusionsAreSymmetric(rejected);
    ExclusionOrderFreeIff(a, InSameGroup());
    ExclusionOrderFreeIff(a, RejectedElsewhere(rejected));
  }

  /** The order in which the script reads the assets. */
  predicate BySha(s: seq<Asset>) {
    forall i, j :: 0 <= i < j < |s| ==> TextLeq(s[i].sha, s[j].sha)
  }

  /**
   * It does depend on the order: two assets of one group, one without a parsable hash, count as excluded when the other
   * one has the smaller identifier, and not at all when it has the larger.
   */
  lemma ExclusionDependsOnOrder()
    ensures var parsedFirst := [Asset("a", Some(0), Some(1)), Asset("b", None, Some(1))];
      var parsedLast := [Asset("a", None, Some(1)), Asset("b", Some(0), Some(1))];
      && BySha(parsedFirst) && BySha(parsedLast)
      && Count(parsedFirst, LookedAt(InSameGroup())) == 1 && Count(parsedLast, LookedAt(InSameGroup())) == 0
  {
    assert TextLeq("a", "b");
    ParsedPairCount(Asset("a", Some(0), Some(1)), Asset("b", None, Some(1)));
    ParsedPairCount(Asset("a", None, Some(1)), Asset("b", Some(0), Some(1)));
  }

  lemma ParsedPairCount(x: Asset, y: Asset)
    requires SameGroup(x, y)
    ensures Count([x, y], LookedAt(InSameGroup())) == if x.hash.Some? then 1 else 0
  {
    var f := LookedAt(InSameGroup());
    assert [x, y][1..] == [y] && [y][1..] == [];
    assert Count([y], f) == 0 && With(x, [y], f) == if f(x, y) then 1 else 0;
  }

  // ---- the nested loop ----

  /** The inner loop: the pairs of one asset with the later ones. */
  method CountLater(left: Asset, later: seq<Asset>, rejected: set<(string, string)>, bucketFor: Buckets)
    returns (st: Stats)
    requires left.hash.Some?
    ensures st == StatsWith(left, later, rejected, bucketFor)
  {
    hide SameGroup, Rejected, HammingDistance;
    st := Stats(0, 0, 0, 0, 0);
    for k := 0 to |later|
      invariant AddStats(st, StatsWith(left, later[k..], rejected, bucketFor)) == StatsWith(left, later, rejected, bucketFor)
    {
      var right := later[k];
      assert later[k..][1..] == later[k + 1..];
      if SameGroup(left, right) {
        st := st.(sameGroup := st.sameGroup + 1);
        continue;
      }
      if Rejected(rejected, left, right) {
        st := st.(rejected := st.rejected + 1);
        continue;
      }
      if right.hash.None? { continue; }
      var distance := HammingDistance(left.hash.value, right.hash.value);
      if distance > MAX_SUGGESTION_DISTANCE { continue; }
      match bucketFor(distance) {
        case None =>
        case Some(High) => st := st.(high := st.high + 1);
        case Some(Medium) => st := st.(medium := st.medium + 1);
        case Some(Low) => st := st.(low := st.low + 1);
      }
    }
  }

  function AddStats(a: Stats, b: Stats): Stats {
    Stats(a.high + b.high, a.medium + b.medium, a.low + b.low, a.sameGroup + b.sameGroup, a.rejected + b.rejected)
  }

  /** The counters of the pairs with one left asset. */
  function StatsWith(x: Asset, ys: seq<Asset>, rejected: set<(string, string)>, bucketFor: Buckets): Stats {
    Stats(With(x, ys, Suggested(rejected, bucketFor, High)), With(x, ys, Suggested(rejected, bucketFor, Medium)),
          With(x, ys, Suggested(rejected, bucketFor, Low)), With(x, ys, LookedAt(InSameGroup())),
          With(x, ys, LookedAt(RejectedElsewhere(rejected))))
  }

  lemma UnparsedLeftCountsNothing(x: Asset, ys: seq<Asset>, rejected: set<(string, string)>, bucketFor: Buckets)
    requires x.hash.None?
    ensures StatsWith(x, ys, rejected, bucketFor) == Stats(0, 0, 0, 0, 0)
  {
    UnparsedLeft(x, ys, InSameGroup());
    UnparsedLeft(x, ys, RejectedElsewhere(rejected));
    WithSome(x, ys, Suggested(rejected, bucketFor, High));
    WithSome(x, ys, Suggested(rejected, bucketFor, Medium));
    WithSome(x, ys, Suggested(rejected, bucketFor, Low));
  }

  /** The script's double loop counts pairs, whatever the bucket function. */
  method CountSuggestions(assets: seq<Asset>, rejected: set<(string, string)>, bucketFor: Buckets) returns (st: Stats)
    ensures st == StatsOf(assets, rejected, bucketFor)
  {
    hide With, Suggested, LookedAt;
    st := Stats(0, 0, 0, 0, 0);
    for k := 0 to |assets|
      invariant AddStats(st, StatsOf(assets[k..], rejected, bucketFor)) == StatsOf(assets, rejected, bucketFor)
    {
      var left := assets[k];
      assert assets[k..][1..] == assets[k + 1..];
      if left.hash.None? {
        UnparsedLeftCountsNothing(left, assets[k + 1..], rejected, bucketFor);
        continue;
      }
      var pairs := CountLater(left, assets[k + 1..], rejected, bucketFor);
      st := AddStats(st, pairs);
    }
  }
}
