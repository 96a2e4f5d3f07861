/** Runs that make no progress: a backlog starves behind its front, and a run advances only through a successful item. */
module Starvation {
  import opened Inventory
  import opened Selection
  import opened Acquisition
  import opened AcquisitionTheorems
  import opened PairingTheorems
  import opened Backlog
  import opened Drain

  /** None of the rows this run would select has a complete manifest in the listing. */
  ghost predicate Blocked(t: Table, q: Request, s: Services) {
    && q.acquireLimit >= 0 && q.inventoryIds.None?
    && (s.listing.ListingDone? ==>
          forall r :: r in SelectRows(t, q.source, q.acquireLimit).rows ==> !FateOf(r, s.listing.items).Safe?)
  }

  lemma {:induction false} NoneSafe(selected: Table, items: seq<Item>)
    requires forall r :: r in selected ==> !FateOf(r, items).Safe?
    ensures MatchRows(selected, items).rows == []
  {
    hide FateOf;
    if selected != [] {
      assert selected == selected[..|selected| - 1] + [selected[|selected| - 1]];
      NoneSafe(selected[..|selected| - 1], items);
    }
  }

  lemma BlockedRunCompletesNothing(t: Table, q: Request, s: Services)
    requires DistinctIds(t) && Blocked(t, q, s)
    ensures NewlyCompleted(t, Acquire(t, q, s).Final(t)) == {}
  {
    hide VerdictOf, FateOf, MatchRows, Acquire, SelectRows;
    if s.listing.ListingDone? { NoneSafe(SelectRows(t, q.source, q.acquireLimit).rows, s.listing.items); }
    forall i | 0 <= i < |t| ensures Acquire(t, q, s).Final(t)[i].completed == t[i].completed {
      CompletedIff(t, q, s, i);
    }
  }

  lemma {:induction false} WithoutNothing(ids: seq<nat>)
    ensures Without(ids, {}) == ids
  {
    if ids != [] { WithoutNothing(ids[..|ids| - 1]); }
  }

  /** Only complete manifests at the front matter: such a run leaves the backlog of every source exactly as it was. */
  lemma BlockedRunChangesNothing(t: Table, q: Request, s: Services, source: int)
    requires DistinctIds(t) && Blocked(t, q, s)
    ensures SelectableIds(Acquire(t, q, s).Final(t), source) == SelectableIds(t, source)
    ensures Similar(t, Acquire(t, q, s).Final(t))
  {
    hide VerdictOf, FateOf, MatchRows, Acquire, SelectRows, SelectableIds, Without;
    AcquireAdvances(t, q, s);
    BlockedRunCompletesNothing(t, q, s);
    BacklogShrinks(t, Acquire(t, q, s).Final(t), source);
    WithoutNothing(SelectableIds(t, source));
  }

  lemma SameFate(a: Row, b: Row, items: seq<Item>)
    requires SameScan(a, b)
    ensures FateOf(a, items) == FateOf(b, items)
  {
  }

  /** Rows and fates at the front are the same as long as the backlog is. */
  lemma BlockedAgain(t: Table, u: Table, q: Request, s: Services)
    requires DistinctIds(t) && Similar(t, u) && Blocked(t, q, s)
    requires SelectableIds(u, q.source) == SelectableIds(t, q.source)
    ensures Blocked(u, q, s)
  {
    hide VerdictOf, FateOf, SelectRows, SelectableIds, SameScan;
    if s.listing.ListingDone? {
      var selected := SelectRows(u, q.source, q.acquireLimit).rows;
      forall r | r in selected ensures !FateOf(r, s.listing.items).Safe? {
        SameFront(t, u, q.source, q.acquireLimit, r);
        var i :| 0 <= i < |t| && u[i] == r && t[i] in SelectRows(t, q.source, q.acquireLimit).rows;
        SameFate(t[i], u[i], s.listing.items);
      }
    }
  }

  lemma SameFront(t: Table, u: Table, source: int, limit: nat, r: Row)
    requires DistinctIds(t) && Similar(t, u) && SelectableIds(u, source) == SelectableIds(t, source)
    requires r in SelectRows(u, source, limit).rows
    ensures exists i :: 0 <= i < |t| && u[i] == r && t[i] in SelectRows(t, source, limit).rows
  {
    hide VerdictOf, SelectRows, SelectableIds;
    var a := SelectRows(t, source, limit).rows;
    var b := SelectRows(u, source, limit).rows;
    SelectionIsFront(t, source, limit);
    SelectionIsFront(u, source, limit);
    SelectionIsBestPrefix(t, source, limit);
    SameIds(t, u);
    SelectionIsBestPrefix(u, source, limit);
    var k :| 0 <= k < |b| && b[k] == r;
    assert RowIds(a)[k] == RowIds(b)[k];
    assert a[k] in a && r in u;
    var i :| 0 <= i < |u| && u[i] == r;
    var j :| 0 <= j < |t| && t[j] == a[k];
    assert t[i].id == t[j].id;
    SamePlace(t, i, j);
  }

  lemma SameIds(t: Table, u: Table)
    requires DistinctIds(t) && Similar(t, u)
    ensures DistinctIds(u)
  {
    forall i, j | 0 <= i < j < |u| ensures u[i].id != u[j].id {
      assert SameScan(t[i], u[i]) && SameScan(t[j], u[j]);
    }
  }

  /**
   * Head-of-line blocking: when no row at the front has a complete manifest, any number of runs with that limit leaves
   * every backlog as it was and selects the same rows again, whatever is selectable behind them.
   */
  lemma {:induction false} BlockedFrontStarves(t: Table, runs: seq<Run>, limit: nat, source: int)
    requires DistinctIds(t)
    requires forall k :: 0 <= k < |runs| ==> Blocked(t, runs[k].request, runs[k].services)
    ensures Similar(t, AfterRuns(t, runs))
    ensures SelectableIds(AfterRuns(t, runs), source) == SelectableIds(t, source)
    ensures FrontIds(AfterRuns(t, runs), source, limit) == FrontIds(t, source, limit)
    decreases |runs|
  {
    hide Blocked, Acquire, SelectableIds, SameScan;
    if runs != [] {
      var k := |runs| - 1;
      var last := runs[k];
      var u := AfterRuns(t, runs[..k]);
      BlockedFrontStarves(t, runs[..k], limit, source);
      BlockedFrontStarves(t, runs[..k], limit, last.request.source);
      BlockedAgain(t, u, last.request, last.services);
      SameIds(t, u);
      BlockedRunChangesNothing(u, last.request, last.services, source);
      SimilarAcross(t, u, AfterRuns(t, runs));
    } else {
      SimilarToItself(t);
    }
  }

  lemma SimilarAcross(t: Table, u: Table, v: Table)
    requires Similar(t, u) && Similar(u, v)
    ensures Similar(t, v)
  {
    forall i | 0 <= i < |t| ensures SameScan(t[i], v[i]) {
      assert SameScan(t[i], u[i]) && SameScan(u[i], v[i]);
    }
  }

  lemma SimilarToItself(t: Table)
    ensures Similar(t, t)
  {
  }

  // ---- progress ----

  lemma {:induction false} WithoutSome(ids: seq<nat>, gone: set<nat>)
    ensures |Without(ids, gone)| <= |ids|
    ensures Without(ids, gone) == ids <==> forall id :: id in ids ==> id !in gone
  {
    if ids != [] {
      var n := |ids| - 1;
      WithoutSome(ids[..n], gone);
      assert ids == ids[..n] + [ids[n]];
      if ids[n] in gone {
        assert |Without(ids, gone)| < |ids|;
      } else {
        assert Without(ids, gone)[..|Without(ids, gone)| - 1] == Without(ids[..n], gone);
      }
    }
  }

  /** Some row of the run is paired with a batch item all of whose resources succeeded. */
  ghost predicate SomethingSucceeded(t: Table, q: Request, s: Services) {
    && PassedPreflight(t, q, s) && IntakeRan(q, s)
    && exists k :: 0 <= k < |MatchingFor(t, q, s).rows| && k < |BatchOf(s).value| && AllSucceeded(BatchOf(s).value[k].statuses)
  }

  /** A run shortens the backlog of its source exactly when one of its batch items succeeded. */
  lemma RunProgressesIff(t: Table, q: Request, s: Services)
    requires DistinctIds(t)
    ensures SelectableIds(Acquire(t, q, s).Final(t), q.source) != SelectableIds(t, q.source) <==> SomethingSucceeded(t, q, s)
  {
    hide VerdictOf, MatchRows, SelectableIds, Acquire, AllSucceeded, Without, PassedPreflight, IntakeRan;
    AcquireAdvances(t, q, s);
    var u := Acquire(t, q, s).Final(t);
    BacklogShrinks(t, u, q.source);
    WithoutSome(SelectableIds(t, q.source), NewlyCompleted(t, u));
    forall i | 0 <= i < |t| && u[i].completed && !t[i].completed ensures SomethingSucceeded(t, q, s) {
      CompletedIff(t, q, s, i);
    }
    if SomethingSucceeded(t, q, s) {
      SucceededRowLeaves(t, q, s);
    }
  }

  lemma SucceededRowLeaves(t: Table, q: Request, s: Services)
    requires DistinctIds(t) && SomethingSucceeded(t, q, s) && |Acquire(t, q, s).Final(t)| == |t|
    ensures exists id :: id in SelectableIds(t, q.source) && id in NewlyCompleted(t, Acquire(t, q, s).Final(t))
  {
    hide VerdictOf, MatchRows, SelectableIds, Acquire, AllSucceeded, SelectionFor;
    var rows := MatchingFor(t, q, s).rows;
    var k :| 0 <= k < |rows| && k < |BatchOf(s).value| && AllSucceeded(BatchOf(s).value[k].statuses);
    PreflightSeparatesRows(t, q, s);
    assert HasId(t, rows[k]);
    var i :| 0 <= i < |t| && t[i].id == rows[k];
    CompletedIff(t, q, s, i);
    SelectedRowsAreOpen(t, q);
    MatchedRowsAreSelected(SelectionFor(t, q).rows, s.listing.items);
    SelectableIdIff(t, q.source, i);
    assert t[i].id in NewlyCompleted(t, Acquire(t, q, s).Final(t));
  }

  lemma SelectableIdIff(t: Table, source: int, i: nat)
    requires DistinctIds(t) && i < |t| && t[i].sourceId == source && VerdictOf(t[i]) == Selectable
    ensures t[i].id in SelectableIds(t, source)
  {
    hide VerdictOf, OrderedRows;
    SelectableRowsOfSource(t, source);
    var kept := Keep(OrderedRows(t, source), Selectable);
    assert t[i] in kept;
    var k :| 0 <= k < |kept| && kept[k] == t[i];
    assert RowIds(kept)[k] == t[i].id;
  }
}
