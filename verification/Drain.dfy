/** Repeated good runs over one source drain its backlog, in exactly the expected number of runs. */
module Drain {
  import opened Text
  import opened Inventory
  import opened Session
  import opened Selection
  import opened Acquisition
  import opened AcquisitionTheorems
  import opened PairingTheorems
  import opened Backlog

  /** Rows as scans create them: stripped, non-blank identities on one basis, unique per source. */
  ghost predicate ScanShaped(t: Table) {
    && DistinctIds(t) && UniqueIdentities(t)
    && forall r :: r in t ==> r.basis == HELPER_ITEM_ID_BASIS && r.identity != "" && Stripped(r.identity)
  }

  lemma ShapeKept(t: Table, u: Table)
    requires ScanShaped(t) && Similar(t, u)
    ensures ScanShaped(u)
  {
    forall r | r in u ensures r.basis == HELPER_ITEM_ID_BASIS && r.identity != "" && Stripped(r.identity) {
      var i :| 0 <= i < |u| && u[i] == r;
      assert t[i] in t && SameScan(t[i], u[i]);
    }
    forall i, j | 0 <= i < j < |u| ensures !SameIdentity(u[i], u[j]) && u[i].id != u[j].id {
      assert !SameIdentity(t[i], t[j]) && SameScan(t[i], u[i]) && SameScan(t[j], u[j]);
    }
  }

  /** The answers of a run in which every unseen service succeeds: one successful batch item per selected item. */
  ghost predicate ServicesSucceed(m: Matching, q: Request, s: Services) {
    && s.profileError.None? && s.requestError.None? && !s.guardrailBlocked
    && IntakeRan(q, s)
    && |BatchOf(s).value| == |m.rows|
    && forall b :: b in BatchOf(s).value ==> AllSucceeded(b.statuses)
  }

  /** A run with a valid limit whose listing answers every selectable row with a complete manifest. */
  ghost predicate GoodRun(t: Table, q: Request, s: Services) {
    && LimitError(q).None? && q.inventoryIds.None? && s.sourceError.None?
    && s.listing.ListingDone?
    && (forall r :: r in t && r.sourceId == q.source && VerdictOf(r) == Selectable ==> FateOf(r, s.listing.items).Safe?)
    && ServicesSucceed(MatchingFor(t, q, s), q, s)
  }

  lemma {:induction false} AllSafe(selected: Table, items: seq<Item>)
    requires forall r :: r in selected ==> FateOf(r, items).Safe?
    ensures MatchRows(selected, items).rows == RowIds(selected)
  {
    hide FateOf;
    if selected != [] {
      var n := |selected| - 1;
      assert selected == selected[..n] + [selected[n]];
      AllSafe(selected[..n], items);
    }
  }

  /** With scan-shaped rows the request names each remote item once, so validation has nothing to refuse. */
  lemma ItemsDistinct(t: Table, q: Request, s: Services)
    requires ScanShaped(t) && q.acquireLimit >= 0 && s.listing.ListingDone? && q.inventoryIds.None?
    ensures DistinctItems(MatchingFor(t, q, s).items)
    ensures |MatchingFor(t, q, s).items| <= q.acquireLimit
  {
    hide VerdictOf, Strip, FateOf, MatchRows;
    var selected := SelectionFor(t, q).rows;
    var items := s.listing.items;
    var m := MatchingFor(t, q, s);
    SelectionIsBestPrefix(t, q.source, q.acquireLimit);
    SelectionIsPrefix(t, q.source, q.acquireLimit, q.acquireLimit);
    MatchingConserves(selected, items);
    forall i, j | 0 <= i < j < |m.items| ensures Strip(m.items[i].itemId) != Strip(m.items[j].itemId) {
      MatchedApart(t, q.source, selected, items, i, j);
    }
  }

  /** Matched rows at different positions are different selected rows. */
  lemma {:induction false} MatchedRowsDistinct(selected: Table, items: seq<Item>)
    requires DistinctIds(selected)
    ensures Distinct(MatchRows(selected, items).rows)
  {
    hide FateOf;
    if selected != [] {
      var n := |selected| - 1;
      MatchedRowsDistinct(selected[..n], items);
      MatchedRowsAreSelected(selected[..n], items);
      var rows := MatchRows(selected[..n], items).rows;
      forall k | 0 <= k < |rows| ensures rows[k] != selected[n].id {
        assert rows[k] in RowIds(selected[..n]);
      }
    }
  }

  lemma MatchedApart(t: Table, source: int, selected: Table, items: seq<Item>, i: nat, j: nat)
    requires ScanShaped(t) && DistinctIds(selected)
    requires forall r :: r in selected ==> r in t && r.sourceId == source
    requires i < j < |MatchRows(selected, items).items|
    ensures var m := MatchRows(selected, items); Strip(m.items[i].itemId) != Strip(m.items[j].itemId)
  {
    hide FateOf, Strip, MatchRows;
    var m := MatchRows(selected, items);
    MatchingConserves(selected, items);
    MatchedRowsDistinct(selected, items);
    MatchingAligned(selected, items, i);
    MatchingAligned(selected, items, j);
    var a :| a in selected && a.id == m.rows[i] && Strip(m.items[i].itemId) == Strip(a.identity);
    var b :| b in selected && b.id == m.rows[j] && Strip(m.items[j].itemId) == Strip(b.identity);
    StripIsProjection(a.identity);
    StripIsProjection(b.identity);
    var x :| 0 <= x < |t| && t[x] == a;
    var y :| 0 <= y < |t| && t[y] == b;
    assert SameIdentity(t[x], t[y]) <==> a.identity == b.identity;
    assert x < y ==> !SameIdentity(t[x], t[y]);
    assert y < x ==> !SameIdentity(t[y], t[x]);
  }

  lemma {:induction false} WithoutFront(ids: seq<nat>, m: nat, gone: set<nat>)
    requires m <= |ids| && forall k :: 0 <= k < |ids| ==> (ids[k] in gone <==> k < m)
    ensures Without(ids, gone) == ids[m..]
  {
    if |ids| > m {
      WithoutFront(ids[..|ids| - 1], m, gone);
    } else if m > 0 {
      WithoutFront(ids[..m - 1], m - 1, gone);
    }
  }

  lemma SelectableIdsDistinct(t: Table, source: int)
    requires DistinctIds(t)
    ensures Distinct(SelectableIds(t, source))
    ensures forall id :: id in SelectableIds(t, source) ==> HasId(t, id)
  {
    hide OrderedRows, VerdictOf;
    SelectableRowsOfSource(t, source);
    var kept := Keep(OrderedRows(t, source), Selectable);
    forall id | id in SelectableIds(t, source) ensures HasId(t, id) {
      var k :| 0 <= k < |kept| && RowIds(kept)[k] == id;
      assert kept[k] in t;
      var i :| 0 <= i < |t| && t[i] == kept[k];
    }
  }

  /** The rows a run selects, by identifier. */
  function FrontIds(t: Table, source: int, limit: nat): seq<nat> {
    SelectableIds(t, source)[..Min(limit, |SelectableIds(t, source)|)]
  }

  lemma GoodRunMatches(t: Table, q: Request, s: Services)
    requires ScanShaped(t) && GoodRun(t, q, s)
    ensures MatchingFor(t, q, s).rows == FrontIds(t, q.source, q.acquireLimit)
    ensures PassedPreflight(t, q, s) <==> SelectableIds(t, q.source) != []
  {
    hide VerdictOf, FateOf, MatchRows, SelectableIds;
    SelectionIsBestPrefix(t, q.source, q.acquireLimit);
    AllSafe(SelectionFor(t, q).rows, s.listing.items);
    SelectionIsFront(t, q.source, q.acquireLimit);
    ItemsDistinct(t, q, s);
  }

  lemma SamePlace(t: Table, i: nat, j: nat)
    requires DistinctIds(t) && i < |t| && j < |t| && t[i].id == t[j].id
    ensures i == j
  {
  }

  /** A good run completes exactly the front of the backlog. */
  lemma GoodRunCompletes(t: Table, q: Request, s: Services, id: nat)
    requires ScanShaped(t) && GoodRun(t, q, s) && HasId(t, id)
    ensures id in NewlyCompleted(t, Acquire(t, q, s).Final(t)) <==> id in FrontIds(t, q.source, q.acquireLimit)
  {
    hide VerdictOf, FateOf, MatchRows, SelectableIds, Acquire, AllSucceeded;
    GoodRunMatches(t, q, s);
    var i :| 0 <= i < |t| && t[i].id == id;
    CompletedIff(t, q, s, i);
    FrontIsOpen(t, q, i);
    var u := Acquire(t, q, s).Final(t);
    assert id in NewlyCompleted(t, u) <==> u[i].completed && !t[i].completed by {
      forall j | 0 <= j < |t| && t[j].id == id ensures j == i {
        SamePlace(t, i, j);
      }
    }
    if id in FrontIds(t, q.source, q.acquireLimit) {
      var k :| 0 <= k < |MatchingFor(t, q, s).rows| && MatchingFor(t, q, s).rows[k] == id;
      assert BatchOf(s).value[k] in BatchOf(s).value;
    }
  }

  lemma FrontIsOpen(t: Table, q: Request, i: nat)
    requires DistinctIds(t) && q.acquireLimit >= 0 && q.inventoryIds.None? && i < |t|
    ensures t[i].id in FrontIds(t, q.source, q.acquireLimit) ==> !t[i].completed
  {
    hide VerdictOf, SelectableIds;
    SelectedRowsAreOpen(t, q);
    SelectionIsFront(t, q.source, q.acquireLimit);
  }

  lemma PrefixMember(ids: seq<nat>, m: nat, k: nat)
    requires Distinct(ids) && m <= |ids| && k < |ids|
    ensures ids[k] in ids[..m] <==> k < m
  {
    if k < m { assert ids[..m][k] == ids[k]; }
  }

  function DropFront(ids: seq<nat>, n: nat): seq<nat> {
    ids[Min(n, |ids|)..]
  }

  /** One good run removes the front of the backlog and leaves the rest as it was. */
  lemma GoodRunTakesFront(t: Table, q: Request, s: Services)
    requires ScanShaped(t) && GoodRun(t, q, s)
    ensures ScanShaped(Acquire(t, q, s).Final(t))
    ensures SelectableIds(Acquire(t, q, s).Final(t), q.source) ==
      DropFront(SelectableIds(t, q.source), q.acquireLimit)
  {
    hide VerdictOf, FateOf, MatchRows, SelectableIds, Acquire, Without, NewlyCompleted;
    AcquireAdvances(t, q, s);
    var u := Acquire(t, q, s).Final(t);
    ShapeKept(t, u);
    BacklogShrinks(t, u, q.source);
    SelectableIdsDistinct(t, q.source);
    var ids := SelectableIds(t, q.source);
    var m := Min(q.acquireLimit, |ids|);
    forall k | 0 <= k < |ids| ensures ids[k] in NewlyCompleted(t, u) <==> k < m {
      GoodRunCompletes(t, q, s, ids[k]);
      PrefixMember(ids, m, k);
    }
    WithoutFront(ids, m, NewlyCompleted(t, u));
  }

  // ---- draining ----

  datatype Run = Run(request: Request, services: Services)

  function AfterRuns(t: Table, runs: seq<Run>): Table
    decreases |runs|
  {
    if runs == [] then t
    else
      var last := runs[|runs| - 1];
      var before := AfterRuns(t, runs[..|runs| - 1]);
      Acquire(before, last.request, last.services).Final(before)
  }

  /** Every run is good for the table it starts from, and asks for the same source and limit. */
  ghost predicate GoodRuns(t: Table, runs: seq<Run>, source: int, limit: nat)
    decreases |runs|
  {
    runs == [] ||
    (var last := runs[|runs| - 1];
     && GoodRuns(t, runs[..|runs| - 1], source, limit)
     && last.request.source == source && last.request.acquireLimit == limit
     && GoodRun(AfterRuns(t, runs[..|runs| - 1]), last.request, last.services))
  }

  lemma DropTwice(ids: seq<nat>, m: nat, n: nat)
    ensures DropFront(DropFront(ids, m), n) == DropFront(ids, m + n)
  {
  }

  lemma DropNone(ids: seq<nat>)
    ensures DropFront(ids, 0) == ids
  {
  }

  function RowsTaken(runs: nat, limit: nat): nat {
    runs * limit
  }

  /** After k good runs with limit L the backlog is the earlier one without its first k * L rows, in the same order. */
  lemma {:induction false} BacklogDrains(t: Table, runs: seq<Run>, source: int, limit: nat)
    requires ScanShaped(t) && GoodRuns(t, runs, source, limit)
    ensures ScanShaped(AfterRuns(t, runs))
    ensures SelectableIds(AfterRuns(t, runs), source) ==
      DropFront(SelectableIds(t, source), RowsTaken(|runs|, limit))
    decreases |runs|
  {
    hide GoodRun, Acquire, SelectableIds, ScanShaped, DropFront;
    if runs != [] {
      var k := |runs| - 1;
      BacklogDrains(t, runs[..k], source, limit);
      var last := runs[k];
      GoodRunTakesFront(AfterRuns(t, runs[..k]), last.request, last.services);
      DropTwice(SelectableIds(t, source), RowsTaken(k, limit), limit);
    } else {
      DropNone(SelectableIds(t, source));
    }
  }

  /** The number of runs of size `limit` that n rows need. */
  function RunsNeeded(n: nat, limit: nat): nat
    requires limit > 0
  {
    (n + limit - 1) / limit
  }

  lemma EnoughRuns(n: nat, limit: nat, k: nat)
    requires limit > 0
    ensures k * limit >= n <==> k >= RunsNeeded(n, limit)
  {
    var c := RunsNeeded(n, limit);
    assert c * limit >= n > (c - 1) * limit || (n == 0 && c == 0);
    if k >= c { assert k * limit >= c * limit; } else { assert k * limit <= (c - 1) * limit; }
  }

  /** Good runs drain n selectable rows in exactly n / L runs, rounded up: no run sooner, no run later. */
  lemma DrainsInExactly(t: Table, runs: seq<Run>, source: int, limit: nat)
    requires ScanShaped(t) && GoodRuns(t, runs, source, limit) && limit > 0
    ensures SelectableIds(AfterRuns(t, runs), source) == [] <==> |runs| >= RunsNeeded(|SelectableIds(t, source)|, limit)
  {
    hide GoodRuns, AfterRuns, SelectableIds, ScanShaped;
    BacklogDrains(t, runs, source, limit);
    EnoughRuns(|SelectableIds(t, source)|, limit, |runs|);
  }
}
