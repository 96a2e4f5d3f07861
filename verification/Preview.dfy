/** The dry run: what a preview reports, and that it predicts what an acquisition will do. */
module Preview {
  import opened Text
  import opened Inventory
  import opened Session
  import opened Selection
  import opened Acquisition
  import opened AcquisitionTheorems
  import opened PairingTheorems
  import opened Backlog
  import opened Starvation

  datatype PreviewStop =
    | NoEligibleInventoryRows
    | ListingRequeryEmpty
    | AllSelectedRowsStale
    | LimitReached
    | ReadyForReview

  datatype PreviewItem = PreviewItem(inventoryId: nat, resources: nat, isLivePhoto: bool, primaryPath: Option<string>)

  datatype PreviewResult = PreviewResult(
    selectedInventory: nat,
    matched: nat,
    selectedLogical: nat,
    selectedResources: nat,
    stale: nat,
    unsafe: nat,
    tally: Tally,
    stop: PreviewStop,
    items: seq<PreviewItem>)

  datatype PreviewOutcome = PreviewRaised(code: string) | Previewed(result: PreviewResult)

  /** The preview entries of the safe rows. */
  function PreviewItems(selected: Table, listed: seq<Item>): seq<PreviewItem> {
    if selected == [] then []
    else
      var r := selected[|selected| - 1];
      PreviewItems(selected[..|selected| - 1], listed) + EntryFor(r, FateOf(r, listed))
  }

  function EntryFor(r: Row, fate: Fate): seq<PreviewItem> {
    if fate.Safe? then [PreviewItem(r.id, |fate.item.resources|, r.seen.isLivePhoto, r.seen.primaryPath)] else []
  }

  function StopFor(m: Matching, tally: Tally, limit: int): PreviewStop {
    if |m.rows| > 0 then (if tally.selectable > limit then LimitReached else ReadyForReview)
    else if m.stale > 0 then AllSelectedRowsStale
    else ReadyForReview
  }

  /** A preview ignores explicit identifiers: it always selects by order and limit. */
  function PreviewOf(t: Table, q: Request, sourceError: Option<string>, listing: ListingAnswer, includeItems: bool)
    : PreviewOutcome
  {
    if LimitError(q).Some? then PreviewRaised(LimitError(q).value)
    else if sourceError.Some? then PreviewRaised(sourceError.value)
    else
      var sel := SelectRows(t, q.source, q.acquireLimit);
      if sel.rows == [] then Previewed(PreviewResult(0, 0, 0, 0, 0, 0, sel.tally, NoEligibleInventoryRows, []))
      else if listing.ListingRaised? then PreviewRaised(listing.code)
      else if listing.items == [] then
        Previewed(PreviewResult(|sel.rows|, 0, 0, 0, |sel.rows|, 0, sel.tally, ListingRequeryEmpty, []))
      else
        var m := MatchRows(sel.rows, listing.items);
        Previewed(PreviewResult(|sel.rows|, m.matched, |m.rows|, ResourceCount(m.items), m.stale, m.unsafe, sel.tally,
          StopFor(m, sel.tally, q.acquireLimit), if includeItems then PreviewItems(sel.rows, listing.items) else []))
  }

  /** The result of a dry run of the executor. */
  function DryRunResult(p: PreviewResult): AcquireResult {
    AcquireResult(DryRunPreview, p.selectedInventory, p.matched, p.selectedLogical, p.selectedResources, false, false, 0,
                  p.stale, p.tally, 0, PreviewReady)
  }

  /** The report of a dry run: the preview's counters, and nothing attempted. */
  predicate ReportsPreview(r: AcquireResult, p: PreviewResult) {
    && r.status == DryRunPreview && r.stopReason == PreviewReady
    && r.selectedInventory == p.selectedInventory && r.matched == p.matched && r.selectedLogical == p.selectedLogical
    && r.selectedResources == p.selectedResources && r.stale == p.stale && r.tally == p.tally
    && !r.intakeAttempted && !r.intakeSucceeded && r.completedCount == 0 && r.failedRetryable == 0
  }

  // ---- prediction ----

  /** The counters of both results agree; what the preview calls unsafe is what the run matched and did not take. */
  predicate Predicts(p: PreviewResult, r: AcquireResult) {
    && p.selectedInventory == r.selectedInventory
    && p.matched == r.matched
    && p.selectedLogical == r.selectedLogical
    && p.selectedResources == r.selectedResources
    && p.stale == r.stale
    && p.unsafe == r.matched - r.selectedLogical
    && p.tally == r.tally
  }

  lemma {:induction false} EmptyListing(selected: Table)
    ensures MatchRows(selected, []) == Matching([], [], 0, |selected|, 0)
  {
    if selected != [] { EmptyListing(selected[..|selected| - 1]); }
  }

  /**
   * Without explicit identifiers, a preview and an acquisition on the same table and listing report the same selected,
   * matched, stale, unsafe, logical and resource counts and the same skip counts, whatever the other services answer and
   * however far the run gets; the preview's early return on an empty listing is no exception.
   */
  lemma PreviewPredictsExecution(t: Table, q: Request, s: Services, includeItems: bool)
    requires q.inventoryIds.None? && Acquire(t, q, s).outcome.Finished?
    ensures var p := PreviewOf(t, q, s.sourceError, s.listing, includeItems);
      p.Previewed? && Predicts(p.result, Acquire(t, q, s).outcome.result)
  {
    hide UpdateAll, ResourceCount, MatchRows, Preflight, SelectRows, PreviewItems;
    var sel := SelectRows(t, q.source, q.acquireLimit);
    if sel.rows != [] {
      var items := s.listing.items;
      EmptyListing(sel.rows);
      MatchingConserves(sel.rows, items);
      ReportedMatching(UpdateAll(t, RowIds(sel.rows), Preparing(items)), sel, MatchRows(sel.rows, items), q, s);
      assert ResourceCount([]) == 0 by { NoResources(); }
    } else {
      assert ResourceCount([]) == 0 by { NoResources(); }
    }
  }

  lemma NoResources()
    ensures ResourceCount([]) == 0
  {
  }

  // ---- a preview after the matching pass ----

  lemma {:induction false} SimilarMatching(a: Table, b: Table, items: seq<Item>)
    requires Similar(a, b)
    ensures MatchRows(a, items) == MatchRows(b, items) && PreviewItems(a, items) == PreviewItems(b, items)
  {
    hide FateOf;
    if a != [] {
      SimilarMatching(a[..|a| - 1], b[..|b| - 1], items);
      SameFate(a[|a| - 1], b[|b| - 1], items);
    }
  }

  /** Rows whose scan columns and completion agree get the same verdicts. */
  lemma {:induction false} SimilarKeep(a: Table, b: Table)
    requires Similar(a, b) && forall k :: 0 <= k < |a| ==> a[k].completed == b[k].completed
    ensures Similar(Keep(a, Selectable), Keep(b, Selectable)) && TallyOf(a) == TallyOf(b)
  {
    if a != [] {
      var n := |a| - 1;
      SimilarKeep(a[..n], b[..n]);
      SameVerdict(a[n], b[n]);
      hide VerdictOf, SameScan;
    }
  }

  lemma SameVerdict(x: Row, y: Row)
    requires SameScan(x, y) && x.completed == y.completed
    ensures VerdictOf(x) == VerdictOf(y)
  {
  }

  lemma SimilarSelection(t: Table, u: Table, source: int, limit: nat)
    requires DistinctIds(t) && Advances(t, u) && NewlyCompleted(t, u) == {}
    ensures Similar(SelectRows(t, source, limit).rows, SelectRows(u, source, limit).rows)
    ensures SelectRows(t, source, limit).tally == SelectRows(u, source, limit).tally
  {
    hide VerdictOf, OrderedRows, SameScan, RowLeq;
    OrderedAdvances(t, u, source);
    SimilarKeep(OrderedRows(t, source), OrderedRows(u, source));
  }

  lemma PreparedAdvances(t: Table, q: Request, items: seq<Item>)
    requires DistinctIds(t) && q.acquireLimit >= 0
    ensures var u := UpdateAll(t, RowIds(SelectionFor(t, q).rows), Preparing(items));
      Advances(t, u) && NewlyCompleted(t, u) == {}
  {
    hide VerdictOf, SelectionFor, Strip, UpdateAll;
    var written := RowIds(SelectionFor(t, q).rows);
    var u := UpdateAll(t, written, Preparing(items));
    SelectedRowsAreOpen(t, q);
    PrepareEvolves(t, q, items);
    OpenIsEvidenced(t, u, written);
    EvolvedAdvances(t, u, written);
    forall i | 0 <= i < |t| ensures u[i].completed == t[i].completed { PreparedTable(t, items, written, i); }
  }

  /** Marking stale and unsafe rows changes no preview: after the matching pass it reports exactly the same. */
  lemma PreviewSurvivesPreparation(t: Table, q: Request, items: seq<Item>, p: Request, answer: ListingAnswer,
                                   includeItems: bool)
    requires DistinctIds(t) && q.acquireLimit >= 0
    ensures var u := UpdateAll(t, RowIds(SelectionFor(t, q).rows), Preparing(items));
      PreviewOf(u, p, None, answer, includeItems) == PreviewOf(t, p, None, answer, includeItems)
  {
    hide VerdictOf, SelectionFor, SelectRows, UpdateAll, MatchRows, PreviewItems, ResourceCount;
    hide Advances, NewlyCompleted, Similar;
    var u := UpdateAll(t, RowIds(SelectionFor(t, q).rows), Preparing(items));
    PreparedAdvances(t, q, items);
    if LimitError(p).None? {
      SimilarSelection(t, u, p.source, p.acquireLimit);
      SimilarLength(SelectRows(t, p.source, p.acquireLimit).rows, SelectRows(u, p.source, p.acquireLimit).rows);
      if answer.ListingDone? {
        SimilarMatching(SelectRows(t, p.source, p.acquireLimit).rows, SelectRows(u, p.source, p.acquireLimit).rows,
                        answer.items);
      }
    }
  }

  lemma SimilarLength(a: Table, b: Table)
    requires Similar(a, b)
    ensures |a| == |b|
  {
  }
}
