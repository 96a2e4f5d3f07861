/** Facts about every acquisition run: what it may write, what its counters mean, how rows and batch items pair up. */
module AcquisitionTheorems {
  import opened Text
  import opened Inventory
  import opened Session
  import opened Selection
  import opened Acquisition

  // ---- what a run may write ----

  /** The columns only a scan writes are the same. */
  predicate SameScan(a: Row, b: Row) {
    a.id == b.id && a.sourceId == b.sourceId && a.basis == b.basis && a.identity == b.identity
    && a.firstObservedAt == b.firstObservedAt && a.seen == b.seen
  }

  /** A completed row carries the evidence of its completion. */
  predicate Evidenced(r: Row) {
    r.completed ==>
      && r.acquisition == Some(IntakeCompleted)
      && r.resolution in {Some(NewlyImported), Some(ExactDuplicateResolved), Some(AlreadyKnown)}
      && r.completedAt.Some?
      && r.errorCode == None
  }

  /** `u` differs from `t` only in the run columns of the rows `written`, which were open and keep to `ok`. */
  ghost predicate Evolved(t: Table, u: Table, written: seq<nat>, ok: Row -> bool) {
    && |u| == |t|
    && forall i :: 0 <= i < |t| ==>
         if t[i].id in written then SameScan(t[i], u[i]) && ok(u[i]) else u[i] == t[i]
  }

  predicate IsOpen(r: Row) {
    !r.completed
  }

  /** One phase: writes to listed rows that keep the scan columns and `ok`. */
  lemma {:induction false} PhaseEvolves(t: Table, u: Table, written: seq<nat>, ids: seq<nat>, f: (nat, Row) -> Row,
                                        before: Row -> bool, ok: Row -> bool)
    requires Evolved(t, u, written, before)
    requires forall id :: id in ids ==> id in written
    requires forall r :: before(r) ==> ok(r)
    requires forall k: nat, r: Row :: SameScan(r, f(k, r))
    requires forall k: nat, r: Row :: ok(r) ==> ok(f(k, r))
    ensures Evolved(t, UpdateAll(u, ids, f), written, ok)
  {
    if ids != [] {
      var n := |ids| - 1;
      PhaseEvolves(t, u, written, ids[..n], f, before, ok);
    }
  }

  lemma {:induction false} MatchedRowsAreSelected(selected: Table, items: seq<Item>)
    ensures forall id :: id in MatchRows(selected, items).rows ==> id in RowIds(selected)
  {
    if selected != [] {
      MatchedRowsAreSelected(selected[..|selected| - 1], items);
      assert selected == selected[..|selected| - 1] + [selected[|selected| - 1]];
      forall id | id in RowIds(selected[..|selected| - 1]) ensures id in RowIds(selected) {
        var k :| 0 <= k < |selected| - 1 && RowIds(selected[..|selected| - 1])[k] == id;
        assert RowIds(selected)[k] == id;
      }
      assert RowIds(selected)[|selected| - 1] == selected[|selected| - 1].id;
    }
  }

  /** Selected rows are stored rows of the source that are not completed. */
  lemma SelectedRowsAreOpen(t: Table, q: Request)
    requires DistinctIds(t) && q.acquireLimit >= 0
    ensures forall r :: r in SelectionFor(t, q).rows ==> r in t && r.sourceId == q.source && VerdictOf(r) == Selectable
    ensures forall i :: 0 <= i < |t| && t[i].id in RowIds(SelectionFor(t, q).rows) ==>
      t[i] in SelectionFor(t, q).rows && IsOpen(t[i])
  {
    hide Strip;
    var rows := SelectionFor(t, q).rows;
    if q.inventoryIds.Some? {
      RequestedSelectionIsComplete(t, q.source, q.inventoryIds.value);
    } else {
      SelectionIsBestPrefix(t, q.source, q.acquireLimit);
    }
    forall i | 0 <= i < |t| && t[i].id in RowIds(rows) ensures t[i] in rows && IsOpen(t[i]) {
      var k :| 0 <= k < |rows| && RowIds(rows)[k] == t[i].id;
      assert rows[k] in rows;
      SameIdSameRow(t, t[i], rows[k]);
    }
  }

  /** Written rows are evidenced in every committed state, and still open in every one but the last. */
  ghost predicate AllEvolved(t: Table, commits: seq<Table>, written: seq<nat>) {
    forall k :: 0 <= k < |commits| ==>
      Evolved(t, commits[k], written, Evidenced) && (k < |commits| - 1 ==> Evolved(t, commits[k], written, IsOpen))
  }

  lemma OpenIsEvidenced(t: Table, u: Table, written: seq<nat>)
    requires Evolved(t, u, written, IsOpen)
    ensures Evolved(t, u, written, Evidenced)
  {
  }

  lemma IntakeEvolves(t: Table, u: Table, written: seq<nat>, sel: Selected, m: Matching, q: Request, s: Services)
    requires Evolved(t, u, written, IsOpen) && forall id :: id in m.rows ==> id in written
    ensures AllEvolved(t, Intake(u, sel, m, q, s).commits, written)
  {
    if !q.autoRunSourceIntake {
      PhaseEvolves(t, u, written, m.rows, RequiringIntake(), IsOpen, IsOpen);
      OpenIsEvidenced(t, UpdateAll(u, m.rows, RequiringIntake()), written);
    } else if s.intake.IntakeDone? {
      var items := BatchOf(s).GetOr([]);
      forall k: nat, r: Row
        ensures SameScan(r, ResolveAt(items, s.intake, s.resolvedAt)(k, r))
        ensures Evidenced(r) ==> Evidenced(ResolveAt(items, s.intake, s.resolvedAt)(k, r))
      {
      }
      PhaseEvolves(t, u, written, Paired(m.rows, items), ResolveAt(items, s.intake, s.resolvedAt), IsOpen, Evidenced);
    }
  }

  lemma DownloadEvolves(t: Table, u: Table, written: seq<nat>, sel: Selected, m: Matching, q: Request, s: Services)
    requires Evolved(t, u, written, IsOpen) && forall id :: id in m.rows ==> id in written
    ensures AllEvolved(t, Download(u, sel, m, q, s).commits, written)
  {
    var d := s.durable;
    if d.DurableRaised? {
      PhaseEvolves(t, u, written, m.rows, Failing(d.code), IsOpen, IsOpen);
      OpenIsEvidenced(t, UpdateAll(u, m.rows, Failing(d.code)), written);
    } else {
      var downloaded := UpdateAll(u, m.rows, Downloading(d));
      PhaseEvolves(t, u, written, m.rows, Downloading(d), IsOpen, IsOpen);
      OpenIsEvidenced(t, downloaded, written);
      IntakeEvolves(t, downloaded, written, sel, m, q, s);
    }
  }

  lemma PreflightEvolves(t: Table, u: Table, written: seq<nat>, sel: Selected, m: Matching, q: Request, s: Services)
    requires Evolved(t, u, written, IsOpen) && forall id :: id in m.rows ==> id in written
    ensures AllEvolved(t, Preflight(u, sel, m, q, s).commits, written)
  {
    var refusal := RequestRefusal(m.items, s);
    if refusal.Some? {
      PhaseEvolves(t, u, written, m.rows, Failing(refusal.value), IsOpen, IsOpen);
      OpenIsEvidenced(t, UpdateAll(u, m.rows, Failing(refusal.value)), written);
    } else {
      var started := UpdateAll(u, m.rows, Starting(s.attemptAt));
      PhaseEvolves(t, u, written, m.rows, Starting(s.attemptAt), IsOpen, IsOpen);
      OpenIsEvidenced(t, started, written);
      DownloadEvolves(t, started, written, sel, m, q, s);
    }
  }

  /** The identifiers a run may write: those of its selection. */
  function WrittenIds(t: Table, q: Request): seq<nat> {
    if LimitError(q).Some? then [] else RowIds(SelectionFor(t, q).rows)
  }

  lemma PrepareEvolves(t: Table, q: Request, items: seq<Item>)
    requires DistinctIds(t) && q.acquireLimit >= 0
    ensures var written := RowIds(SelectionFor(t, q).rows);
      Evolved(t, UpdateAll(t, written, Preparing(items)), written, IsOpen)
  {
    hide Strip, VerdictOf, SelectionFor;
    SelectedRowsAreOpen(t, q);
    var written := RowIds(SelectionFor(t, q).rows);
    assert Evolved(t, t, written, IsOpen);
    PhaseEvolves(t, t, written, written, Preparing(items), IsOpen, IsOpen);
  }

  /**
   * Every state a run commits, including those a crash would leave behind, differs from the table it started from only
   * in the run columns of selected rows, and those rows were open, stay open until the last commit, and end either open
   * or completed with evidence.
   */
  lemma CommitsTouchOnlyOpenSelectedRows(t: Table, q: Request, s: Services)
    requires DistinctIds(t)
    ensures AllEvolved(t, Acquire(t, q, s).commits, WrittenIds(t, q))
    ensures forall i :: 0 <= i < |t| && t[i].id in WrittenIds(t, q) ==> IsOpen(t[i])
  {
    hide VerdictOf, SelectionFor, Preflight, MatchRows, UpdateAll, Evolved;
    if LimitError(q).None? {
      SelectedRowsAreOpen(t, q);
      var sel := SelectionFor(t, q);
      if s.sourceError.None? && sel.rows != [] && s.listing.ListingDone? {
        var items := s.listing.items;
        MatchedRowsAreSelected(sel.rows, items);
        PrepareEvolves(t, q, items);
        var prepared := UpdateAll(t, RowIds(sel.rows), Preparing(items));
        OpenIsEvidenced(t, prepared, RowIds(sel.rows));
        PreflightEvolves(t, prepared, RowIds(sel.rows), sel, MatchRows(sel.rows, items), q, s);
      }
    }
  }

  // ---- what the counters mean ----

  /** The matching counters: a partition of the selection, and rows and items side by side. */
  lemma {:induction false} MatchingConserves(selected: Table, items: seq<Item>)
    ensures var m := MatchRows(selected, items);
      m.matched + m.stale == |selected| && |m.rows| + m.unsafe == m.matched && |m.items| == |m.rows|
  {
    hide FateOf;
    if selected != [] { MatchingConserves(selected[..|selected| - 1], items); }
  }

  lemma {:induction false} LastMatchIsListed(items: seq<Item>, key: string)
    ensures LastMatch(items, key).Some? ==>
      key != "" && LastMatch(items, key).value in items && Strip(LastMatch(items, key).value.itemId) == key
    ensures LastMatch(items, key).None? ==> key == "" || forall item :: item in items ==> Strip(item.itemId) != key
  {
    if items != [] {
      LastMatchIsListed(items[..|items| - 1], key);
      assert items == items[..|items| - 1] + [items[|items| - 1]];
    }
  }

  /** Safe rows and safe items stay aligned: each item is the listing entry of its own row. */
  lemma {:induction false} MatchingAligned(selected: Table, items: seq<Item>, k: nat)
    requires k < |MatchRows(selected, items).rows| && |MatchRows(selected, items).items| == |MatchRows(selected, items).rows|
    ensures var m := MatchRows(selected, items);
      exists r :: r in selected && r.id == m.rows[k] && FateOf(r, items) == Safe(m.items[k])
        && LastMatch(items, Strip(r.identity)) == Some(m.items[k]) && Strip(m.items[k].itemId) == Strip(r.identity)
  {
    hide ManifestUnsafe, Strip;
    var n := |selected| - 1;
    var r := selected[n];
    var before := selected[..n];
    MatchingConserves(before, items);
    if k < |MatchRows(before, items).rows| {
      MatchingAligned(before, items, k);
    } else {
      LastMatchIsListed(items, Strip(r.identity));
    }
  }

  /** A result accounts for all selected rows, and what it lists as retryable is what it left uncompleted. */
  predicate Conserves(r: AcquireResult) {
    && r.selectedInventory == r.matched + r.stale
    && r.selectedLogical <= r.matched
    && (r.stopReason == NoSafeSelections ==> r.failedRetryable == r.matched - r.selectedLogical)
    && (r.intakeAttempted ==> r.completedCount + r.failedRetryable == r.selectedLogical)
    && (!r.intakeAttempted ==> r.completedCount == 0)
  }

  lemma PreflightConserves(t: Table, sel: Selected, m: Matching, q: Request, s: Services)
    requires m.matched + m.stale == |sel.rows| && |m.rows| + m.unsafe == m.matched
    ensures var o := Preflight(t, sel, m, q, s).outcome; o.Finished? ==> Conserves(o.result)
  {
    hide UpdateAll, ResourceCount, SortItems, RequestRefusal;
    if s.intake.IntakeDone? {
      var items := BatchOf(s).GetOr([]);
      SucceededAtMost(items, Min(|m.rows|, |items|));
    }
  }

  /** Every later phase reports the counters of the matching. */
  lemma ReportedMatching(t: Table, sel: Selected, m: Matching, q: Request, s: Services)
    ensures var o := Preflight(t, sel, m, q, s).outcome;
      o.Finished? ==>
        && o.result.selectedInventory == |sel.rows| && o.result.matched == m.matched
        && o.result.selectedLogical == |m.rows| && o.result.selectedResources == ResourceCount(m.items)
        && o.result.stale == m.stale && o.result.tally == sel.tally
  {
    hide UpdateAll, ResourceCount, RequestRefusal, SortItems, CountSucceeded;
  }

  /** How many selected rows have an unsafe manifest in the listing. */
  function UnsafeRows(t: Table, q: Request, s: Services): nat
    requires q.acquireLimit >= 0
  {
    MatchRows(SelectionFor(t, q).rows, if s.listing.ListingDone? then s.listing.items else []).unsafe
  }

  lemma ReportConserves(t: Table, q: Request, s: Services)
    ensures var o := Acquire(t, q, s).outcome;
      o.Finished? ==>
        && Conserves(o.result)
        && q.acquireLimit >= 0 && o.result.matched == o.result.selectedLogical + UnsafeRows(t, q, s)
  {
    hide VerdictOf, UpdateAll, ResourceCount, SelectionFor, Preflight, Conserves;
    if Acquire(t, q, s).outcome.Raised? { return; }
    var sel := SelectionFor(t, q);
    if sel.rows != [] {
      var items := s.listing.items;
      MatchingConserves(sel.rows, items);
      PreflightConserves(UpdateAll(t, RowIds(sel.rows), Preparing(items)), sel, MatchRows(sel.rows, items), q, s);
      ReportedMatching(UpdateAll(t, RowIds(sel.rows), Preparing(items)), sel, MatchRows(sel.rows, items), q, s);
    } else {
      NothingSelectedConserves(sel);
      assert UnsafeRows(t, q, s) == 0;
    }
  }

  lemma NothingSelectedConserves(sel: Selected)
    requires sel.rows == []
    ensures Conserves(Report(sel, Matching([], [], 0, 0, 0), Blocked, NoEligibleRows))
  {
  }

  /** At most every paired item succeeded, so subtracting the completed rows never goes below zero. */
  lemma {:induction false} SucceededAtMost(items: seq<BatchItem>, n: nat)
    requires n <= |items|
    ensures CountSucceeded(items, n) <= n
  {
    hide AllSucceeded;
    if n > 0 { SucceededAtMost(items, n - 1); }
  }
}
