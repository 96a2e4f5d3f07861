/** The inventory counters: SQL filters with nulls, and their agreement with the selector on every reachable table. */
module Counters {
  import opened Text
  import opened Inventory
  import opened Sequences
  import opened Session
  import opened Selection
  import opened Acquisition
  import opened Scan
  import opened ScanTheorems
  import opened History

  // ---- SQL conditions ----

  /** The three truth values of a SQL condition; a filter keeps a row only when its condition is true. */
  datatype Truth = True | False | Unknown

  function Known(b: bool): Truth {
    if b then True else False
  }

  function And(a: Truth, b: Truth): Truth {
    if a == False || b == False then False else if a == Unknown || b == Unknown then Unknown else True
  }

  function Or(a: Truth, b: Truth): Truth {
    if a == True || b == True then True else if a == Unknown || b == Unknown then Unknown else False
  }

  /** `column = value`. */
  function Equals<T(==)>(column: Option<T>, value: T): Truth {
    if column.None? then Unknown else Known(column.value == value)
  }

  /** `column IS DISTINCT FROM value`: never unknown. */
  function DistinctFrom<T(==)>(column: Option<T>, value: T): Truth {
    Known(column != Some(value))
  }

  // ---- the filters ----

  function EligibleFilter(r: Row): Truth {
    Known(r.seen.eligibility == ELIGIBLE)
  }

  function NotEligibleFilter(r: Row): Truth {
    Known(r.seen.eligibility != ELIGIBLE)
  }

  function UnresolvedEligibleFilter(r: Row): Truth {
    And(EligibleFilter(r), Known(!r.completed))
  }

  function RetryableFailedFilter(r: Row): Truth {
    And(Known(!r.completed),
        Or(Equals(r.acquisition, AcquisitionFailedRetryable), Equals(r.resolution, FailedRetryable)))
  }

  function AcquirablePendingFilter(r: Row): Truth {
    And(UnresolvedEligibleFilter(r),
    And(Known(r.seen.known == PENDING_CHECK || r.seen.known == UNKNOWN),
    And(Known(!r.seen.identityAmbiguous),
    And(Known(r.identity != ""),
    And(Known(r.basis != ""),
    And(DistinctFrom(r.acquisition, AcquisitionFailedRetryable), DistinctFrom(r.resolution, FailedRetryable)))))))
  }

  function Count(t: Table, filter: Row -> Truth): nat {
    if t == [] then 0 else (if filter(t[0]) == True then 1 else 0) + Count(t[1..], filter)
  }

  datatype InventoryCounts = InventoryCounts(
    total: nat,
    eligible: nat,
    unsupportedOrAmbiguous: nat,
    completed: nat,
    unresolvedEligible: nat,
    acquirablePending: nat,
    retryableFailed: nat)

  function CompletedFilter(r: Row): Truth {
    Known(r.completed)
  }

  function CountInventory(t: Table, source: int): InventoryCounts {
    var rows := OfSource(t, source);
    InventoryCounts(|rows|, Count(rows, EligibleFilter), Count(rows, NotEligibleFilter), Count(rows, CompletedFilter),
      Count(rows, UnresolvedEligibleFilter), Count(rows, AcquirablePendingFilter), Count(rows, RetryableFailedFilter))
  }

  // ---- counting ----

  lemma {:induction false} CountInserted(x: Row, t: Table, leq: (Row, Row) -> bool, filter: Row -> Truth)
    ensures Count(Insert(x, t, leq), filter) == Count(t, filter) + if filter(x) == True then 1 else 0
  {
    if t != [] && !leq(x, t[0]) { CountInserted(x, t[1..], leq, filter); }
  }

  lemma {:induction false} CountSorted(t: Table, leq: (Row, Row) -> bool, filter: Row -> Truth)
    ensures Count(Sort(t, leq), filter) == Count(t, filter)
  {
    if t != [] {
      CountSorted(t[1..], leq, filter);
      CountInserted(t[0], Sort(t[1..], leq), leq, filter);
    }
  }

  function SelectableFilter(r: Row): Truth {
    Known(VerdictOf(r) == Selectable)
  }

  lemma {:induction false} CountKept(t: Table)
    ensures Count(t, SelectableFilter) == |Keep(t, Selectable)|
  {
    hide VerdictOf;
    if t != [] {
      CountKept(t[1..]);
      KeepDistributes([t[0]], t[1..], Selectable);
      assert [t[0]] + t[1..] == t;
      assert Keep([t[0]], Selectable) == if VerdictOf(t[0]) == Selectable then [t[0]] else [] by { KeepNext([], t[0]); }
    }
  }

  /** Filters that agree row by row count the same. */
  lemma {:induction false} CountAgrees(t: Table, f: Row -> Truth, g: Row -> Truth)
    requires forall r :: r in t ==> (f(r) == True <==> g(r) == True)
    ensures Count(t, f) == Count(t, g)
  {
    if t != [] { CountAgrees(t[1..], f, g); }
  }

  /** A filter split into two disjoint, exhaustive ones counts their sum. */
  lemma {:induction false} CountSplits(t: Table, f: Row -> Truth, g: Row -> Truth, h: Row -> Truth)
    requires forall r :: r in t ==> (f(r) == True <==> g(r) == True || h(r) == True) && !(g(r) == True && h(r) == True)
    ensures Count(t, f) == Count(t, g) + Count(t, h)
  {
    if t != [] { CountSplits(t[1..], f, g, h); }
  }

  lemma {:induction false} CountZero(t: Table, f: Row -> Truth)
    ensures Count(t, f) == 0 <==> forall r :: r in t ==> f(r) != True
  {
    if t != [] {
      CountZero(t[1..], f);
      assert t == [t[0]] + t[1..];
    }
  }

  // ---- the counters and the selector ----

  function RetryableEligibleFilter(r: Row): Truth {
    And(EligibleFilter(r), RetryableFailedFilter(r))
  }

  function RetryableOtherFilter(r: Row): Truth {
    And(NotEligibleFilter(r), RetryableFailedFilter(r))
  }

  lemma StrippedStays(s: string)
    requires Stripped(s)
    ensures Strip(s) == s
  {
    StripIsProjection(s);
  }

  lemma ConstantsAreStripped()
    ensures Strip(ELIGIBLE) == ELIGIBLE && Strip(UNSUPPORTED) == UNSUPPORTED && Strip(AMBIGUOUS) == AMBIGUOUS
    ensures Strip(PENDING_CHECK) == PENDING_CHECK && Strip(HELPER_ITEM_ID_BASIS) == HELPER_ITEM_ID_BASIS
  {
    hide Strip;
    StrippedStays(ELIGIBLE);
    StrippedStays(UNSUPPORTED);
    StrippedStays(AMBIGUOUS);
    StrippedStays(PENDING_CHECK);
    StrippedStays(HELPER_ITEM_ID_BASIS);
  }

  /** On reachable rows the selector and the three unresolved counters look at the same rows. */
  lemma RowAgrees(r: Row)
    requires SoundRow(r)
    ensures VerdictOf(r) == Selectable <==> UnresolvedEligibleFilter(r) == True
    ensures UnresolvedEligibleFilter(r) == True <==>
      AcquirablePendingFilter(r) == True || RetryableEligibleFilter(r) == True
    ensures !(AcquirablePendingFilter(r) == True && RetryableEligibleFilter(r) == True)
  {
    hide Strip, VerdictOf;
    ConstantsAreStripped();
    StripIsProjection(r.identity);
    SelectableIff(r);
  }

  lemma SoundOfSource(t: Table, source: int)
    requires Sound(t)
    ensures forall r :: r in OfSource(t, source) ==> SoundRow(r)
  {
    hide SoundRow;
    OfSourceMembers(t, source);
  }

  /**
   * In every state that scans and acquisitions reach, the selector's count of selectable rows, at any limit, is the
   * unresolved eligible counter, and that is the acquirable counter plus the eligible rows counted as retryable.
   */
  lemma CountersAgreeWithSelector(t: Table, source: int, limit: nat)
    requires Sound(t)
    ensures var counts := CountInventory(t, source);
      && SelectRows(t, source, limit).tally.selectable == counts.unresolvedEligible
      && counts.unresolvedEligible == counts.acquirablePending + Count(OfSource(t, source), RetryableEligibleFilter)
      && counts.total == counts.eligible + counts.unsupportedOrAmbiguous
  {
    hide VerdictOf, SoundRow, Strip;
    hide UnresolvedEligibleFilter, AcquirablePendingFilter, RetryableEligibleFilter;
    var rows := OfSource(t, source);
    SoundOfSource(t, source);
    forall r | r in rows { RowAgrees(r); }
    TallyCounts(OrderedRows(t, source), Selectable);
    CountKept(OrderedRows(t, source));
    CountSorted(rows, RowLeq, SelectableFilter);
    CountAgrees(rows, SelectableFilter, UnresolvedEligibleFilter);
    CountSplits(rows, UnresolvedEligibleFilter, AcquirablePendingFilter, RetryableEligibleFilter);
    EligibilityCounted(rows);
  }

  /** So the counters agree with the selector after every commit of every history of scans, previews and acquisitions. */
  lemma CountersAgreeInEveryState(t: Table, steps: seq<Step>, k: nat, source: int, limit: nat)
    requires Sound(t) && FreshIdentifiers(t, steps) && k < |States(t, steps)|
    ensures var u := States(t, steps)[k];
      var counts := CountInventory(u, source);
      && SelectRows(u, source, limit).tally.selectable == counts.unresolvedEligible
      && counts.unresolvedEligible == counts.acquirablePending + Count(OfSource(u, source), RetryableEligibleFilter)
  {
    hide States, FreshIdentifiers, CountInventory, SelectRows, Count;
    HistoryIsSound(t, steps);
    CountersAgreeWithSelector(States(t, steps)[k], source, limit);
  }

  lemma {:induction false} EligibilityCounted(t: Table)
    ensures |t| == Count(t, EligibleFilter) + Count(t, NotEligibleFilter)
  {
    if t != [] { EligibilityCounted(t[1..]); }
  }

  /**
   * The retryable counter has no eligibility filter, so acquirable and retryable rows add up to the unresolved eligible
   * ones exactly when no open row of another eligibility is marked retryable.
   */
  lemma RetryableCounterAgreesIff(t: Table, source: int)
    requires Sound(t)
    ensures var counts := CountInventory(t, source);
      counts.unresolvedEligible == counts.acquirablePending + counts.retryableFailed <==>
      forall r :: r in t && r.sourceId == source && r.seen.eligibility != ELIGIBLE && !r.completed ==>
        r.acquisition != Some(AcquisitionFailedRetryable) && r.resolution != Some(FailedRetryable)
  {
    hide VerdictOf, SoundRow, Strip, AcquirablePendingFilter, UnresolvedEligibleFilter;
    var rows := OfSource(t, source);
    CountersAgreeWithSelector(t, source, 0);
    CountSplits(rows, RetryableFailedFilter, RetryableEligibleFilter, RetryableOtherFilter);
    CountZero(rows, RetryableOtherFilter);
    OfSourceMembers(t, source);
  }

  // ---- the disagreement is reached ----

  /** A photo listed without resources, and later with one that cannot be acquired. */
  const BARE := Item("a", "", false, [], "2020", "2020", [])
  const RAW := Item("a", "", false, ["raw"], "2020", "2020", [])

  function ScanOf(item: Item, now: nat): ScanCall {
    ScanCall(7, 10, None, ListingDone([item]), now, 1 + now, s => s)
  }

  const TAKE := Request(7, 1, 10, true, None)
  const STILL_BARE := Services(None, ListingDone([BARE]), false, None, None, DurableRaised(""), IntakeRaised(""), map[], 1, 1)

  function Observed(item: Item, now: nat): Observation {
    Observation(1, now, now, Some(""), Some("2020"), Some("2020"), None, None, None, 0, false, false, item.unsupportedReasons,
                EligibilityState(item), PENDING_CHECK)
  }

  function NewPhoto(): Row {
    Row(1, 7, HELPER_ITEM_ID_BASIS, "a", 0, Observed(BARE, 0), false, None, None, None, None, None, None, None, 0, None)
  }

  /** The photo after its acquisition failed for its manifest. */
  function FailedPhoto(): Row {
    MarkFailed(NewPhoto(), "unsafe_manifest")
  }

  /** The photo after the next scan has found it unsupported. */
  function UnsupportedPhoto(): Row {
    FailedPhoto().(seen := Observed(RAW, 2))
  }

  /** A scan, an acquisition, and another scan. */
  function Rescanning(): seq<Step> {
    [Step(ScanInventory(ScanOf(BARE, 0)), 1), Step(AcquireBatch(TAKE, STILL_BARE), 1), Step(ScanInventory(ScanOf(RAW, 2)), 1)]
  }

  lemma IdentityOfPhoto()
    ensures Strip("a") == "a" && Stripped("a")
  {
    StripIsProjection("a");
  }

  lemma ObservesPhoto(item: Item, now: nat)
    requires item == BARE || item == RAW
    ensures Observe(item, 1, ScanOf(item, now)) == Observed(item, now)
  {
    assert "live_photo" != "" && !("live_photo" <= "");
    assert !Contains("", "live_photo");
  }

  lemma ScanStarts(t: Table, item: Item, c: ScanCall)
    requires Strip(item.itemId) == "a"
    ensures ScanItems(t, c, [item]) == Upsert(Scanning(t, [], {"a"}, 0, 0, false), item, 1, c)
  {
    hide Strip, Upsert;
    var start := Scanning(t, [], {}, 0, 0, false);
    assert [item][..0] == [] && ScanItems(t, c, []) == start;
    assert start.seen + {"a"} == {"a"};
    assert ScanItems(t, c, [item]) == ScanNext(Scanning(t, [], {}, 0, 0, false), item, 1, c);
  }

  lemma ScanFindsPhoto()
    ensures ScanRun([], ScanOf(BARE, 0)).commits == [[NewPhoto()]]
  {
    hide Observe, Strip, Observed, EligibilityState, ScanItems;
    IdentityOfPhoto();
    ObservesPhoto(BARE, 0);
    ScanStarts([], BARE, ScanOf(BARE, 0));
    assert [] + [NewPhoto()] == [NewPhoto()];
  }

  lemma ScanUpdatesPhoto()
    ensures ScanRun([FailedPhoto()], ScanOf(RAW, 2)).commits == [[UnsupportedPhoto()]]
  {
    hide Observe, Strip, Observed, EligibilityState, ScanItems;
    IdentityOfPhoto();
    ObservesPhoto(RAW, 2);
    ScanStarts([FailedPhoto()], RAW, ScanOf(RAW, 2));
    var seen := Observed(RAW, 2);
    assert Lookup([FailedPhoto()], 7, "a") == Some(FailedPhoto());
    assert UpdateRow([FailedPhoto()], 1, Seen(seen)) == [UnsupportedPhoto()];
    assert [UnsupportedPhoto()] + [] == [UnsupportedPhoto()];
  }

  lemma PhotoIsSelected()
    ensures SelectRows([NewPhoto()], 7, 1).rows == [NewPhoto()]
  {
    var r := NewPhoto();
    PhotoIsSelectable();
    hide VerdictOf;
    OnlyRow(r);
    assert [r][..0] == [];
    assert Keep([r], Selectable) == Keep([r][..0], Selectable) + [r];
  }

  lemma PhotoIsSelectable()
    ensures VerdictOf(NewPhoto()) == Selectable
  {
    IdentityOfPhoto();
    assert Stripped(HELPER_ITEM_ID_BASIS) && Stripped(PENDING_CHECK) && Stripped(ELIGIBLE);
    StripIsProjection(HELPER_ITEM_ID_BASIS);
    StripIsProjection(PENDING_CHECK);
    StripIsProjection(ELIGIBLE);
    hide Strip;
  }

  lemma OnlyRow(r: Row)
    requires r.sourceId == 7
    ensures OfSource([r], 7) == [r] && OrderedRows([r], 7) == [r]
  {
    assert [r][1..] == [];
    assert Sort([r], RowLeq) == Insert(r, Sort([r][1..], RowLeq), RowLeq);
  }

  lemma PhotoIsUnsafe()
    ensures FateOf(NewPhoto(), [BARE]) == Unsafe
  {
    IdentityOfPhoto();
    hide Strip;
    assert LastMatch([BARE], "a") == Some(BARE);
  }

  lemma PhotoFails()
    ensures Acquire([NewPhoto()], TAKE, STILL_BARE).commits == [[FailedPhoto()]]
  {
    var r := NewPhoto();
    PhotoIsSelected();
    PhotoIsUnsafe();
    hide SelectRows, FateOf;
    assert [r][..0] == [];
    assert MatchRows([r], [BARE]) == AddRow(MatchRows([r][..0], [BARE]), r, Unsafe);
    assert MatchRows([r], [BARE]).rows == [];
    var ids := RowIds([r]);
    assert ids[..0] == [] && UpdateAll([r], ids[..0], Preparing([BARE])) == [r];
    assert UpdateAll([r], ids, Preparing([BARE])) == [FailedPhoto()];
  }

  lemma CommitsOfPhoto()
    ensures Commits([], Rescanning()[0]) == [[NewPhoto()]]
    ensures Commits([NewPhoto()], Rescanning()[1]) == [[FailedPhoto()]]
    ensures Commits([FailedPhoto()], Rescanning()[2]) == [[UnsupportedPhoto()]]
  {
    hide ScanRun, Acquire, NewPhoto, FailedPhoto, UnsupportedPhoto;
    ScanFindsPhoto();
    PhotoFails();
    ScanUpdatesPhoto();
  }

  lemma HistoryOfPhoto()
    ensures FreshIdentifiers([], Rescanning())
    ensures States([], Rescanning()) == [[], [NewPhoto()], [FailedPhoto()], [UnsupportedPhoto()]]
  {
    CommitsOfPhoto();
    IdentifiersOfPhoto();
    hide Commits, States, FreshIdentifiers, NewPhoto, FailedPhoto, UnsupportedPhoto;
    var steps := Rescanning();
    NoSteps([]);
    StatesNext([], [], steps[0]);
    StatesNext([], [steps[0]], steps[1]);
    StatesNext([], [steps[0], steps[1]], steps[2]);
    assert [] + [steps[0]] == [steps[0]];
    assert [steps[0]] + [steps[1]] == [steps[0], steps[1]];
    assert [steps[0], steps[1]] + [steps[2]] == steps;
  }

  lemma IdentifiersOfPhoto()
    ensures FreeFrom([], 1) && FreeFrom([FailedPhoto()], 3)
  {
  }

  /**
   * The disagreement is reached: a photo whose acquisition failed and which the next scan finds unsupported is counted as
   * retryable although nothing is left to acquire.
   */
  lemma RetryableCounterCanDisagree()
    ensures Sound([]) && FreshIdentifiers([], Rescanning())
    ensures var h := States([], Rescanning());
      |h| == 4 && CountInventory(h[3], 7) == InventoryCounts(1, 0, 1, 0, 0, 0, 1)
  {
    hide States, FreshIdentifiers, CountInventory;
    HistoryOfPhoto();
    CountsOfPhoto();
  }

  lemma CountsOfPhoto()
    ensures CountInventory([UnsupportedPhoto()], 7) == InventoryCounts(1, 0, 1, 0, 0, 0, 1)
  {
    var r := UnsupportedPhoto();
    OnlyRow(r);
    assert r.seen.eligibility != ELIGIBLE;
    CountOne(r, EligibleFilter);
    CountOne(r, NotEligibleFilter);
    CountOne(r, CompletedFilter);
    CountOne(r, UnresolvedEligibleFilter);
    CountOne(r, AcquirablePendingFilter);
    CountOne(r, RetryableFailedFilter);
    hide OfSource, Count;
  }

  lemma CountOne(r: Row, filter: Row -> Truth)
    ensures Count([r], filter) == if filter(r) == True then 1 else 0
  {
    assert [r][1..] == [];
  }
}
