/** Which rows an acquisition completes: preflight separates the rows, position pairs each with its own batch item. */
module PairingTheorems {
  import opened Text
  import opened Inventory
  import opened Sequences
  import opened Session
  import opened Selection
  import opened Acquisition
  import opened AcquisitionTheorems

  function MatchingFor(t: Table, q: Request, s: Services): Matching
    requires q.acquireLimit >= 0 && s.listing.ListingDone?
  {
    MatchRows(SelectionFor(t, q).rows, s.listing.items)
  }

  /** The matching has safe rows, and neither the guardrail nor the request validation stops them. */
  predicate Accepted(m: Matching, s: Services) {
    m.rows != [] && !s.guardrailBlocked && RequestRefusal(m.items, s).None?
  }

  /** The batch was downloaded and source intake reported on an existing batch. */
  predicate IntakeRan(q: Request, s: Services) {
    && s.durable.DurableDone? && s.durable.ready && s.durable.batchId.Some?
    && q.autoRunSourceIntake
    && s.intake.IntakeDone? && BatchOf(s).Some?
  }

  /** The run got past the guardrail and the request validation with at least one safe row. */
  predicate PassedPreflight(t: Table, q: Request, s: Services) {
    && LimitError(q).None?
    && s.sourceError.None?
    && s.listing.ListingDone?
    && Accepted(MatchingFor(t, q, s), s)
  }

  /**
   * A request that passes validation names each remote item once, so its rows are distinct even when the caller listed
   * an inventory identifier twice.
   */
  lemma PreflightSeparatesRows(t: Table, q: Request, s: Services)
    requires DistinctIds(t) && PassedPreflight(t, q, s)
    ensures Distinct(MatchingFor(t, q, s).rows)
    ensures forall id :: id in MatchingFor(t, q, s).rows ==> HasId(t, id)
  {
    hide MatchRows, VerdictOf, SelectionFor, Strip, FateOf;
    var selected := SelectionFor(t, q).rows;
    var m := MatchingFor(t, q, s);
    SelectedRowsAreOpen(t, q);
    MatchingConserves(selected, s.listing.items);
    forall i, j | 0 <= i < j < |m.rows| ensures m.rows[i] != m.rows[j] {
      MatchingAligned(selected, s.listing.items, i);
      MatchingAligned(selected, s.listing.items, j);
      var a :| a in selected && a.id == m.rows[i] && Strip(m.items[i].itemId) == Strip(a.identity);
      var b :| b in selected && b.id == m.rows[j] && Strip(m.items[j].itemId) == Strip(b.identity);
      SameIdSameRow(t, a, b);
    }
    forall id | id in m.rows ensures HasId(t, id) {
      var k :| 0 <= k < |m.rows| && m.rows[k] == id;
      MatchingAligned(selected, s.listing.items, k);
      var a :| a in selected && a.id == m.rows[k];
      var i :| 0 <= i < |t| && t[i] == a;
    }
  }

  // ---- attempt counts ----

  lemma {:induction false} AttemptsKept(t: Table, ids: seq<nat>, f: (nat, Row) -> Row, i: nat)
    requires i < |t|
    requires forall k: nat, r: Row :: f(k, r).attempts == r.attempts
    ensures UpdateAll(t, ids, f)[i].attempts == t[i].attempts
  {
    if ids != [] { AttemptsKept(t, ids[..|ids| - 1], f, i); }
  }

  lemma AttemptsAfterStart(t: Table, sel: Selected, m: Matching, q: Request, s: Services, i: nat)
    requires i < |t|
    ensures Download(t, sel, m, q, s).Final(t)[i].attempts == t[i].attempts
  {
    hide SortItems, ResolutionOf, AllSucceeded, ResourceCount, UpdateAll;
    var d := s.durable;
    if d.DurableRaised? {
      AttemptsKept(t, m.rows, Failing(d.code), i);
    } else {
      var u := UpdateAll(t, m.rows, Downloading(d));
      AttemptsKept(t, m.rows, Downloading(d), i);
      AttemptsKept(u, m.rows, RequiringIntake(), i);
      if s.intake.IntakeDone? {
        var items := BatchOf(s).GetOr([]);
        AttemptsKept(u, Paired(m.rows, items), ResolveAt(items, s.intake, s.resolvedAt), i);
      }
    }
  }

  lemma AttemptsAtPreflight(t: Table, sel: Selected, m: Matching, q: Request, s: Services, i: nat)
    requires i < |t| && Distinct(m.rows)
    ensures Preflight(t, sel, m, q, s).Final(t)[i].attempts ==
      t[i].attempts + if Accepted(m, s) && t[i].id in m.rows then 1 else 0
  {
    hide Download, ResourceCount, UpdateAll, RequestRefusal;
    var refusal := RequestRefusal(m.items, s);
    if m.rows != [] && !s.guardrailBlocked {
      if refusal.Some? {
        AttemptsKept(t, m.rows, Failing(refusal.value), i);
      } else {
        var start := Starting(s.attemptAt);
        var started := UpdateAll(t, m.rows, start);
        AttemptsAfterStart(started, sel, m, q, s, i);
        if t[i].id in m.rows {
          var k :| 0 <= k < |m.rows| && m.rows[k] == t[i].id;
          UpdateAllOnce(t, m.rows, start, i, k);
          assert started[i] == MarkStarted(t[i], s.attemptAt);
        } else {
          UpdateAllFrame(t, m.rows, start, i);
        }
      }
    }
  }

  lemma PreparedTable(t: Table, items: seq<Item>, ids: seq<nat>, i: nat)
    requires i < |t|
    ensures var p := UpdateAll(t, ids, Preparing(items));
      p[i].attempts == t[i].attempts && p[i].id == t[i].id && p[i].completed == t[i].completed
  {
    hide FateOf;
    var r0 := t[i];
    var inv := (r: Row) => r.attempts == r0.attempts && r.id == r0.id && r.completed == r0.completed;
    UpdateAllInvariant(t, ids, Preparing(items), i, inv);
  }

  /**
   * A row's attempt count rises, by exactly one, precisely when the run passed the guardrail and the request
   * validation and the row was one of its safe rows.
   */
  lemma AttemptsRiseByOne(t: Table, q: Request, s: Services, i: nat)
    requires DistinctIds(t) && i < |t|
    ensures Acquire(t, q, s).Final(t)[i].attempts ==
      t[i].attempts + if PassedPreflight(t, q, s) && t[i].id in MatchingFor(t, q, s).rows then 1 else 0
  {
    hide MatchRows, VerdictOf, SelectionFor, Preflight, UpdateAll;
    if LimitError(q).None? && s.sourceError.None? && s.listing.ListingDone? && SelectionFor(t, q).rows != [] {
      var sel := SelectionFor(t, q);
      var ids := RowIds(sel.rows);
      var items := s.listing.items;
      var prepared := UpdateAll(t, ids, Preparing(items));
      PreparedTable(t, items, ids, i);
      if PassedPreflight(t, q, s) {
        PreflightSeparatesRows(t, q, s);
        AttemptsAtPreflight(prepared, sel, MatchingFor(t, q, s), q, s, i);
      } else {
        AttemptsWithoutStart(prepared, sel, MatchingFor(t, q, s), q, s, i);
      }
    } else if LimitError(q).None? {
      NothingToMatch(t, q, s);
    }
  }

  lemma NothingToMatch(t: Table, q: Request, s: Services)
    requires q.acquireLimit >= 0
    ensures SelectionFor(t, q).rows == [] ==> !PassedPreflight(t, q, s)
  {
  }

  lemma AttemptsWithoutStart(t: Table, sel: Selected, m: Matching, q: Request, s: Services, i: nat)
    requires i < |t|
    requires !Accepted(m, s)
    ensures Preflight(t, sel, m, q, s).Final(t)[i].attempts == t[i].attempts
  {
    hide Download, ResourceCount, UpdateAll, RequestRefusal;
    var refusal := RequestRefusal(m.items, s);
    if refusal.Some? { AttemptsKept(t, m.rows, Failing(refusal.value), i); }
  }

  // ---- completion ----

  /** The row is paired with a batch item whose resources all succeeded. */
  predicate CompletedBy(rows: seq<nat>, items: seq<BatchItem>, id: nat) {
    exists k :: 0 <= k < |rows| && k < |items| && rows[k] == id && AllSucceeded(items[k].statuses)
  }

  lemma CompletionKept(t: Table, ids: seq<nat>, f: (nat, Row) -> Row, i: nat)
    requires i < |t|
    requires forall k: nat, r: Row :: f(k, r).completed == r.completed && f(k, r).id == r.id
    ensures UpdateAll(t, ids, f)[i].completed == t[i].completed && UpdateAll(t, ids, f)[i].id == t[i].id
  {
    var r0 := t[i];
    UpdateAllInvariant(t, ids, f, i, (r: Row) => r.completed == r0.completed && r.id == r0.id);
  }

  lemma PairedRowCompletes(t: Table, rows: seq<nat>, items: seq<BatchItem>, a: IntakeAnswer, now: Time, i: nat, k: nat)
    requires a.IntakeDone? && Distinct(rows) && i < |t| && k < |rows| && k < |items| && t[i].id == rows[k]
    ensures UpdateAll(t, Paired(rows, items), ResolveAt(items, a, now))[i] == ResolveRow(t[i], items[k], a, now)
    ensures CompletedBy(rows, items, t[i].id) <==> AllSucceeded(items[k].statuses)
  {
    hide AllSucceeded, ResolutionOf, UpdateAll, ResolveRow, KeepsId, CompletedBy;
    ResolvingKeepsIds(items, a, now);
    UpdateAllOnce(t, Paired(rows, items), ResolveAt(items, a, now), i, k);
    PairedDecides(rows, items, k);
  }

  lemma PairedDecides(rows: seq<nat>, items: seq<BatchItem>, k: nat)
    requires Distinct(rows) && k < |rows| && k < |items|
    ensures CompletedBy(rows, items, rows[k]) <==> AllSucceeded(items[k].statuses)
  {
    hide AllSucceeded;
  }

  lemma ResolvingKeepsIds(items: seq<BatchItem>, a: IntakeAnswer, now: Time)
    requires a.IntakeDone?
    ensures KeepsId(ResolveAt(items, a, now))
  {
    hide AllSucceeded, ResolutionOf;
  }

  lemma UnpairedRowKept(t: Table, rows: seq<nat>, items: seq<BatchItem>, a: IntakeAnswer, now: Time, i: nat)
    requires a.IntakeDone? && i < |t| && t[i].id !in Paired(rows, items)
    ensures UpdateAll(t, Paired(rows, items), ResolveAt(items, a, now))[i] == t[i]
    ensures !CompletedBy(rows, items, t[i].id)
  {
    hide AllSucceeded, ResolutionOf, UpdateAll, ResolveAt, ResolveRow, KeepsId;
    ResolvingKeepsIds(items, a, now);
    UpdateAllFrame(t, Paired(rows, items), ResolveAt(items, a, now), i);
    UnpairedStaysOpen(rows, items, t[i].id);
  }

  lemma UnpairedStaysOpen(rows: seq<nat>, items: seq<BatchItem>, id: nat)
    requires id !in Paired(rows, items)
    ensures !CompletedBy(rows, items, id)
  {
    hide AllSucceeded;
    forall k | 0 <= k < |rows| && k < |items| ensures rows[k] != id {
      assert Paired(rows, items)[k] == rows[k];
    }
  }

  lemma IntakeCompletes(t: Table, rows: seq<nat>, items: seq<BatchItem>, a: IntakeAnswer, now: Time, i: nat)
    requires a.IntakeDone? && Distinct(rows) && i < |t| && (t[i].id in rows ==> !t[i].completed)
    ensures UpdateAll(t, Paired(rows, items), ResolveAt(items, a, now))[i].completed <==>
      t[i].completed || CompletedBy(rows, items, t[i].id)
  {
    hide AllSucceeded, ResolutionOf, UpdateAll, CompletedBy;
    if t[i].id in Paired(rows, items) {
      var k :| 0 <= k < |Paired(rows, items)| && Paired(rows, items)[k] == t[i].id;
      PairedRowCompletes(t, rows, items, a, now, i, k);
    } else {
      UnpairedRowKept(t, rows, items, a, now, i);
    }
  }

  lemma DownloadCompletes(t: Table, sel: Selected, m: Matching, q: Request, s: Services, i: nat)
    requires Distinct(m.rows) && i < |t| && (t[i].id in m.rows ==> !t[i].completed)
    ensures Download(t, sel, m, q, s).Final(t)[i].completed <==>
      t[i].completed || (IntakeRan(q, s) && CompletedBy(m.rows, BatchOf(s).value, t[i].id))
  {
    hide SortItems, ResolutionOf, AllSucceeded, ResourceCount, UpdateAll, CompletedBy, ResolveAt;
    var d := s.durable;
    if d.DurableRaised? {
      CompletionKept(t, m.rows, Failing(d.code), i);
    } else {
      var u := UpdateAll(t, m.rows, Downloading(d));
      CompletionKept(t, m.rows, Downloading(d), i);
      CompletionKept(u, m.rows, RequiringIntake(), i);
      if s.intake.IntakeDone? && BatchOf(s).Some? {
        IntakeCompletes(u, m.rows, BatchOf(s).value, s.intake, s.resolvedAt, i);
      }
    }
  }

  lemma PreflightCompletes(t: Table, sel: Selected, m: Matching, q: Request, s: Services, i: nat)
    requires Accepted(m, s) ==> Distinct(m.rows)
    requires i < |t| && (t[i].id in m.rows ==> !t[i].completed)
    ensures Preflight(t, sel, m, q, s).Final(t)[i].completed <==>
      t[i].completed || (Accepted(m, s) && IntakeRan(q, s) && CompletedBy(m.rows, BatchOf(s).value, t[i].id))
  {
    hide Download, ResourceCount, UpdateAll, RequestRefusal, CompletedBy, SortItems, IntakeRan;
    if m.rows != [] && !s.guardrailBlocked {
      var refusal := RequestRefusal(m.items, s);
      if refusal.Some? {
        CompletionKept(t, m.rows, Failing(refusal.value), i);
      } else {
        CompletionKept(t, m.rows, Starting(s.attemptAt), i);
        DownloadCompletes(UpdateAll(t, m.rows, Starting(s.attemptAt)), sel, m, q, s, i);
      }
    }
  }

  /**
   * After a run a row is completed iff it was before, or intake ran and every resource of the batch item at its
   * position succeeded.
   */
  lemma CompletedIff(t: Table, q: Request, s: Services, i: nat)
    requires DistinctIds(t) && i < |t|
    ensures Acquire(t, q, s).Final(t)[i].completed <==>
      || t[i].completed
      || (PassedPreflight(t, q, s) && IntakeRan(q, s)
          && CompletedBy(MatchingFor(t, q, s).rows, BatchOf(s).value, t[i].id))
  {
    hide MatchRows, VerdictOf, SelectionFor, Preflight, UpdateAll, Accepted, CompletedBy, SortItems, IntakeRan;
    if LimitError(q).None? && s.sourceError.None? && s.listing.ListingDone? && SelectionFor(t, q).rows != [] {
      var sel := SelectionFor(t, q);
      var items := s.listing.items;
      var m := MatchingFor(t, q, s);
      PreparedTable(t, items, RowIds(sel.rows), i);
      SelectedRowsAreOpen(t, q);
      MatchedRowsAreSelected(sel.rows, items);
      if Accepted(m, s) { PreflightSeparatesRows(t, q, s); }
      PreflightCompletes(UpdateAll(t, RowIds(sel.rows), Preparing(items)), sel, m, q, s, i);
    } else if LimitError(q).None? {
      NothingToMatch(t, q, s);
    }
  }

  // ---- positional pairing ----

  /** What the durable service promises: one batch item per selected item, numbered from one in selection order. */
  predicate NumberedFor(batch: seq<BatchItem>, items: seq<Item>) {
    && |batch| == |items|
    && (forall i, j :: 0 <= i < j < |batch| ==> batch[i].index != batch[j].index)
    && (forall b :: b in batch ==> 1 <= b.index <= |items| && b.itemId == items[b.index - 1].itemId)
  }

  predicate Ascending(batch: seq<BatchItem>) {
    forall i, j :: 0 <= i < j < |batch| ==> batch[i].index <= batch[j].index
  }

  lemma SortItemsSorts(batch: seq<BatchItem>)
    requires forall i, j :: 0 <= i < j < |batch| ==> batch[i].index != batch[j].index
    ensures var sorted := SortItems(batch);
      && Ascending(sorted) && |sorted| == |batch| && (forall b :: b in sorted <==> b in batch)
      && forall i, j :: 0 <= i < j < |sorted| ==> sorted[i].index != sorted[j].index
  {
    var leq := (a: BatchItem, b: BatchItem) => a.index <= b.index;
    assert TotalPreorder(leq);
    SortSorts(batch, leq);
    var sorted := Sort(batch, leq);
    RearrangedDifferent(batch, sorted);
    forall i, j | 0 <= i < j < |sorted| ensures sorted[i].index != sorted[j].index {
      assert sorted[i] in batch && sorted[j] in batch;
    }
  }

  /** n distinct ascending numbers between 1 and n are 1, 2, ..., n. */
  lemma {:induction false} NumbersAreConsecutive(batch: seq<BatchItem>, k: nat)
    requires Ascending(batch) && k < |batch|
    requires forall i, j :: 0 <= i < j < |batch| ==> batch[i].index != batch[j].index
    requires forall b :: b in batch ==> 1 <= b.index <= |batch|
    ensures batch[k].index == k + 1
  {
    FromBelow(batch, k);
    FromAbove(batch, k);
  }

  lemma {:induction false} FromBelow(batch: seq<BatchItem>, k: nat)
    requires Ascending(batch) && k < |batch|
    requires forall i, j :: 0 <= i < j < |batch| ==> batch[i].index != batch[j].index
    requires forall b :: b in batch ==> 1 <= b.index
    ensures batch[k].index >= k + 1
  {
    assert batch[k] in batch;
    if k > 0 { FromBelow(batch, k - 1); }
  }

  lemma {:induction false} FromAbove(batch: seq<BatchItem>, k: nat)
    requires Ascending(batch) && k < |batch|
    requires forall i, j :: 0 <= i < j < |batch| ==> batch[i].index != batch[j].index
    requires forall b :: b in batch ==> b.index <= |batch|
    ensures batch[k].index <= k + 1
    decreases |batch| - k
  {
    assert batch[k] in batch;
    if k + 1 < |batch| { FromAbove(batch, k + 1); }
  }

  /** Whatever order the batch is loaded in, sorting by number puts at each position the item made for that position. */
  lemma SortedBatchIsAligned(batch: seq<BatchItem>, items: seq<Item>, k: nat)
    requires NumberedFor(batch, items) && k < |items|
    ensures |SortItems(batch)| == |items|
    ensures SortItems(batch)[k] in batch
    ensures SortItems(batch)[k].index == k + 1 && SortItems(batch)[k].itemId == items[k].itemId
  {
    var sorted := SortItems(batch);
    SortItemsSorts(batch);
    NumbersAreConsecutive(sorted, k);
    assert sorted[k] in batch;
  }

  lemma BatchItemAtPosition(batch: seq<BatchItem>, items: seq<Item>, b: BatchItem, k: nat)
    requires NumberedFor(batch, items) && DistinctItems(items) && b in batch && k < |items|
    ensures b.itemId == items[k].itemId ==> k < |SortItems(batch)| && SortItems(batch)[k] == b
  {
    hide Strip, SortItems;
    SortedBatchIsAligned(batch, items, k);
    if b.itemId == items[k].itemId {
      assert b.index - 1 == k;
      var p :| 0 <= p < |batch| && batch[p] == b;
      var r :| 0 <= r < |batch| && batch[r] == SortItems(batch)[k];
      assert p == r;
    }
  }

  /**
   * Positional pairing is sound: when the durable service numbers its batch in selection order, a safe row is completed
   * iff the batch item made for its own listing item has resources and all of them ended in success.
   */
  lemma OwnItemDecides(t: Table, q: Request, s: Services, i: nat, item: Item, b: BatchItem)
    requires DistinctIds(t) && i < |t|
    requires PassedPreflight(t, q, s) && IntakeRan(q, s)
    requires NumberedFor(s.batches[s.intake.batchId.value], MatchingFor(t, q, s).items)
    requires t[i].id in MatchingFor(t, q, s).rows && FateOf(t[i], s.listing.items) == Safe(item)
    requires b in s.batches[s.intake.batchId.value] && b.itemId == item.itemId
    ensures Acquire(t, q, s).Final(t)[i].completed <==> AllSucceeded(b.statuses)
  {
    hide MatchRows, VerdictOf, SelectionFor, Strip, FateOf, SortItems, AllSucceeded, Acquire;
    var m := MatchingFor(t, q, s);
    var selected := SelectionFor(t, q).rows;
    PreflightSeparatesRows(t, q, s);
    SelectedRowsAreOpen(t, q);
    MatchedRowsAreSelected(selected, s.listing.items);
    MatchingConserves(selected, s.listing.items);
    var k :| 0 <= k < |m.rows| && m.rows[k] == t[i].id;
    MatchingAligned(selected, s.listing.items, k);
    var r :| r in selected && r.id == m.rows[k] && FateOf(r, s.listing.items) == Safe(m.items[k]);
    SameIdSameRow(t, r, t[i]);
    BatchItemAtPosition(s.batches[s.intake.batchId.value], m.items, b, k);
    CompletedIff(t, q, s, i);
  }

  // ---- the reported completion count ----

  function CountCompleted(t: Table): nat {
    if t == [] then 0 else CountCompleted(t[..|t| - 1]) + if t[|t| - 1].completed then 1 else 0
  }

  lemma {:induction false} SameCompletion(t: Table, u: Table)
    requires |t| == |u| && forall i :: 0 <= i < |t| ==> t[i].completed == u[i].completed
    ensures CountCompleted(t) == CountCompleted(u)
  {
    if t != [] { SameCompletion(t[..|t| - 1], u[..|u| - 1]); }
  }

  lemma {:induction false} OneMoreCompleted(t: Table, u: Table, i: nat)
    requires |t| == |u| && i < |t| && !t[i].completed
    requires forall j :: 0 <= j < |t| && j != i ==> t[j].completed == u[j].completed
    ensures CountCompleted(u) == CountCompleted(t) + if u[i].completed then 1 else 0
  {
    var n := |t| - 1;
    if i == n {
      SameCompletion(t[..n], u[..n]);
    } else {
      OneMoreCompleted(t[..n], u[..n], i);
    }
  }

  /** Resolving the first n pairs completes as many rows as there were fully successful items among them. */
  lemma {:induction false} ResolvedCount(t: Table, rows: seq<nat>, items: seq<BatchItem>, a: IntakeAnswer, now: Time, n: nat)
    requires a.IntakeDone? && Distinct(rows) && DistinctIds(t) && n <= |rows| && n <= |items|
    requires forall id :: id in rows ==> HasId(t, id)
    requires forall i :: 0 <= i < |t| && t[i].id in rows ==> !t[i].completed
    ensures CountCompleted(UpdateAll(t, rows[..n], ResolveAt(items, a, now))) ==
      CountCompleted(t) + CountSucceeded(items, n)
  {
    if n > 0 {
      ResolvedCount(t, rows, items, a, now, n - 1);
      ResolveOneMore(t, rows, items, a, now, n - 1);
    }
  }

  lemma {:induction false} ResolveOneMore(t: Table, rows: seq<nat>, items: seq<BatchItem>, a: IntakeAnswer, now: Time, n: nat)
    requires a.IntakeDone? && Distinct(rows) && DistinctIds(t) && n < |rows| && n < |items|
    requires HasId(t, rows[n])
    requires forall i :: 0 <= i < |t| && t[i].id in rows ==> !t[i].completed
    ensures CountCompleted(UpdateAll(t, rows[..n + 1], ResolveAt(items, a, now))) ==
      CountCompleted(UpdateAll(t, rows[..n], ResolveAt(items, a, now))) +
      if AllSucceeded(items[n].statuses) then 1 else 0
  {
    hide AllSucceeded, ResolutionOf, CountCompleted;
    var f := ResolveAt(items, a, now);
    var i :| 0 <= i < |t| && t[i].id == rows[n];
    assert t[i].id in rows;
    UpdateAllNext(t, rows, f, n, i);
    OneMoreCompleted(UpdateAll(t, rows[..n], f), UpdateAll(t, rows[..n + 1], f), i);
  }

  lemma CompletionsBeforeIntake(t: Table, ids: seq<nat>, f: (nat, Row) -> Row)
    requires forall k: nat, r: Row :: f(k, r).completed == r.completed && f(k, r).id == r.id
    ensures CountCompleted(UpdateAll(t, ids, f)) == CountCompleted(t)
    ensures forall i :: 0 <= i < |t| ==>
      UpdateAll(t, ids, f)[i].id == t[i].id && UpdateAll(t, ids, f)[i].completed == t[i].completed
  {
    forall i | 0 <= i < |t|
      ensures UpdateAll(t, ids, f)[i].id == t[i].id && UpdateAll(t, ids, f)[i].completed == t[i].completed
    {
      CompletionKept(t, ids, f, i);
    }
    SameCompletion(t, UpdateAll(t, ids, f));
  }

  function ReportedCompletions(o: Outcome): nat {
    if o.Finished? then o.result.completedCount else 0
  }

  /** The rows `ids` are stored once each and are open. */
  ghost predicate OpenRows(t: Table, ids: seq<nat>) {
    && DistinctIds(t) && Distinct(ids)
    && (forall id :: id in ids ==> HasId(t, id))
    && (forall i :: 0 <= i < |t| && t[i].id in ids ==> !t[i].completed)
  }

  lemma OpenRowsKept(t: Table, u: Table, ids: seq<nat>)
    requires OpenRows(t, ids) && |u| == |t|
    requires forall i :: 0 <= i < |t| ==> u[i].id == t[i].id && u[i].completed == t[i].completed
    ensures OpenRows(u, ids)
  {
    forall id | id in ids ensures HasId(u, id) {
      var i :| 0 <= i < |t| && t[i].id == id;
      assert u[i].id == id;
    }
  }

  lemma IntakeCounts(t: Table, sel: Selected, m: Matching, q: Request, s: Services)
    requires OpenRows(t, m.rows)
    ensures CountCompleted(Intake(t, sel, m, q, s).Final(t)) ==
      CountCompleted(t) + ReportedCompletions(Intake(t, sel, m, q, s).outcome)
  {
    hide SortItems, ResolutionOf, AllSucceeded, ResourceCount, CountCompleted, ResolveAt, UpdateAll;
    CompletionsBeforeIntake(t, m.rows, RequiringIntake());
    if q.autoRunSourceIntake && s.intake.IntakeDone? {
      var items := BatchOf(s).GetOr([]);
      ResolvedCount(t, m.rows, items, s.intake, s.resolvedAt, Min(|m.rows|, |items|));
    }
  }

  lemma DownloadCounts(t: Table, sel: Selected, m: Matching, q: Request, s: Services)
    requires OpenRows(t, m.rows)
    ensures CountCompleted(Download(t, sel, m, q, s).Final(t)) ==
      CountCompleted(t) + ReportedCompletions(Download(t, sel, m, q, s).outcome)
  {
    hide CountCompleted, Intake, UpdateAll, ResourceCount, OpenRows;
    var d := s.durable;
    if d.DurableRaised? {
      CompletionsBeforeIntake(t, m.rows, Failing(d.code));
    } else {
      var u := UpdateAll(t, m.rows, Downloading(d));
      CompletionsBeforeIntake(t, m.rows, Downloading(d));
      OpenRowsKept(t, u, m.rows);
      IntakeCounts(u, sel, m, q, s);
    }
  }

  lemma PreflightCounts(t: Table, sel: Selected, m: Matching, q: Request, s: Services)
    requires Accepted(m, s) ==> OpenRows(t, m.rows)
    ensures CountCompleted(Preflight(t, sel, m, q, s).Final(t)) ==
      CountCompleted(t) + ReportedCompletions(Preflight(t, sel, m, q, s).outcome)
  {
    hide CountCompleted, Download, UpdateAll, ResourceCount, OpenRows, RequestRefusal;
    if m.rows != [] && !s.guardrailBlocked {
      var refusal := RequestRefusal(m.items, s);
      if refusal.Some? {
        CompletionsBeforeIntake(t, m.rows, Failing(refusal.value));
      } else {
        var u := UpdateAll(t, m.rows, Starting(s.attemptAt));
        CompletionsBeforeIntake(t, m.rows, Starting(s.attemptAt));
        OpenRowsKept(t, u, m.rows);
        DownloadCounts(u, sel, m, q, s);
      }
    }
  }

  /** A run reports as completed exactly the increase of the completed rows in the inventory. */
  lemma ReportedCompletionsAreReal(t: Table, q: Request, s: Services)
    requires DistinctIds(t)
    ensures CountCompleted(Acquire(t, q, s).Final(t)) ==
      CountCompleted(t) + ReportedCompletions(Acquire(t, q, s).outcome)
  {
    hide MatchRows, VerdictOf, SelectionFor, Preflight, UpdateAll, Accepted, CountCompleted, OpenRows;
    if LimitError(q).None? && s.sourceError.None? && s.listing.ListingDone? && SelectionFor(t, q).rows != [] {
      var sel := SelectionFor(t, q);
      var items := s.listing.items;
      var m := MatchingFor(t, q, s);
      var u := UpdateAll(t, RowIds(sel.rows), Preparing(items));
      CompletionsBeforeIntake(t, RowIds(sel.rows), Preparing(items));
      if Accepted(m, s) {
        AcceptedRowsAreOpen(t, q, s);
        OpenRowsKept(t, u, m.rows);
      }
      PreflightCounts(u, sel, m, q, s);
    }
  }

  lemma AcceptedRowsAreOpen(t: Table, q: Request, s: Services)
    requires DistinctIds(t) && PassedPreflight(t, q, s)
    ensures OpenRows(t, MatchingFor(t, q, s).rows)
  {
    hide MatchRows, VerdictOf, SelectionFor;
    PreflightSeparatesRows(t, q, s);
    SelectedRowsAreOpen(t, q);
    MatchedRowsAreSelected(SelectionFor(t, q).rows, s.listing.items);
  }
}
