/** The acquisition as its service runs it: loops over mapped rows, written in place and committed phase by phase. */
module AcquisitionService {
  import opened Text
  import opened Inventory
  import opened Session
  import opened Selection
  import opened SelectionService
  import opened Acquisition
  import opened AcquisitionTheorems
  import opened Preview

  // ---- writing rows in list order ----

  /** After the first `n` listed rows have been written, the objects hold the n-th state of the fold. */
  ghost predicate Written(s: InventorySession, t: Table, ids: seq<nat>, f: (nat, Row) -> Row, n: nat)
    requires n <= |ids|
    reads s, s.objects
  {
    && s.Laid() && s.Keyed(Values(s.objects)) && s.pending == [] && s.stored == t
    && Values(s.objects) == UpdateAll(t, ids[..n], f)
  }

  ghost predicate KeepsKeys(f: (nat, Row) -> Row) {
    forall k: nat, r: Row :: f(k, r).id == r.id && SameIdentity(f(k, r), r)
  }

  lemma WrittenNext(s: InventorySession, o: InventoryRow, t: Table, ids: seq<nat>, f: (nat, Row) -> Row, n: nat,
                    before: Table, was: Row)
    requires n < |ids| && s.Laid() && s.Keyed(before) && s.pending == [] && s.stored == t && KeepsKeys(f)
    requires before == UpdateAll(t, ids[..n], f)
    requires o in s.objects && was.id == ids[n] && o.Value() == f(n, was)
    requires forall i :: 0 <= i < |s.objects| ==>
      if s.objects[i] == o then before[i] == was else s.objects[i].Value() == before[i]
    ensures Written(s, t, ids, f, n + 1)
  {
    hide InventoryRow.Value;
    assert ids[..n + 1][..n] == ids[..n];
    var g := (r: Row) => f(n, r);
    ObjectWritten(s, o, g, before);
    var u := UpdateAll(t, ids[..n + 1], f);
    assert u == UpdateRow(before, ids[n], r => f(n, r));
    assert forall i :: 0 <= i < |before| ==> u[i] == Values(s.objects)[i];
  }

  ghost predicate Ready(s: InventorySession)
    reads s, s.objects, s.pending
  {
    s.Valid() && s.Clean()
  }

  lemma WrittenNone(s: InventorySession, ids: seq<nat>, f: (nat, Row) -> Row)
    requires Ready(s)
    ensures Written(s, s.stored, ids, f, 0)
  {
    assert ids[..0] == [];
  }

  /** Committing after the last write makes the fold the stored table. */
  method CommitWrites(session: InventorySession, ghost t: Table, ghost ids: seq<nat>, ghost f: (nat, Row) -> Row)
    requires Written(session, t, ids, f, |ids|)
    modifies session`stored, session`durable
    ensures Ready(session) && session.stored == UpdateAll(t, ids, f)
    ensures session.durable == old(session.durable) + [session.stored]
  {
    assert ids[..|ids|] == ids;
    session.Commit();
  }

  /** The rows are objects of the session, in the order of `ids`. */
  ghost predicate RowsOf(s: InventorySession, rows: seq<InventoryRow>, ids: seq<nat>)
    reads s, rows
  {
    Ids(rows) == ids && forall o :: o in rows ==> o in s.objects
  }

  // ---- the writes of each phase ----

  lemma PhasesKeepKeys(code: string, now: Time)
    ensures KeepsKeys(Starting(now)) && KeepsKeys(Failing(code)) && KeepsKeys(RequiringIntake())
  {
  }

  lemma DownloadingKeepsKeys(d: DurableAnswer)
    requires d.DurableDone?
    ensures KeepsKeys(Downloading(d))
  {
  }

  method StartAttempt(row: InventoryRow, now: Time)
    modifies row
    ensures row.Value() == MarkStarted(old(row.Value()), now)
  {
    row.acquisition := Some(Acquiring);
    row.attempts := row.attempts + 1;
    row.lastAttemptAt := Some(now);
    row.errorCode := None;
  }

  method MarkAttemptStarted(session: InventorySession, rows: seq<InventoryRow>, now: Time, ghost ids: seq<nat>)
    requires Ready(session) && RowsOf(session, rows, ids)
    modifies session`stored, session`durable, session.objects
    ensures Ready(session) && RowsOf(session, rows, ids)
    ensures session.stored == UpdateAll(old(session.stored), ids, Starting(now))
    ensures session.durable == old(session.durable) + [session.stored]
    ensures session.objects == old(session.objects)
  {
    hide InventoryRow.Value, UpdateAll, InventorySession.Laid, InventorySession.Keyed, KeepsKeys, MarkStarted;
    ghost var t, f := session.stored, Starting(now);
    PhasesKeepKeys("", now);
    WrittenNone(session, ids, f);
    for k := 0 to |rows|
      invariant Written(session, t, ids, f, k) && RowsOf(session, rows, ids)
      invariant session.objects == old(session.objects) && session.durable == old(session.durable)
    {
      var row := rows[k];
      assert row in session.objects;
      ghost var before, was := Values(session.objects), row.Value();
      StartAttempt(row, now);
      WrittenNext(session, row, t, ids, f, k, before, was);
    }
    CommitWrites(session, t, ids, f);
  }

  method Fail(row: InventoryRow, code: string)
    modifies row
    ensures row.Value() == MarkFailed(old(row.Value()), code)
  {
    row.acquisition := Some(AcquisitionFailedRetryable);
    row.resolution := Some(FailedRetryable);
    row.errorCode := Some(code);
  }

  /** The handlers of a refused request and of a failed download. */
  method MarkAllFailed(session: InventorySession, rows: seq<InventoryRow>, code: string, ghost ids: seq<nat>)
    requires Ready(session) && RowsOf(session, rows, ids)
    modifies session`stored, session`durable, session.objects
    ensures Ready(session) && RowsOf(session, rows, ids)
    ensures session.stored == UpdateAll(old(session.stored), ids, Failing(code))
    ensures session.durable == old(session.durable) + [session.stored]
    ensures session.objects == old(session.objects)
  {
    hide InventoryRow.Value, UpdateAll, InventorySession.Laid, InventorySession.Keyed, KeepsKeys, MarkFailed;
    ghost var t, f := session.stored, Failing(code);
    PhasesKeepKeys(code, 0);
    WrittenNone(session, ids, f);
    for k := 0 to |rows|
      invariant Written(session, t, ids, f, k) && RowsOf(session, rows, ids)
      invariant session.objects == old(session.objects) && session.durable == old(session.durable)
    {
      var row := rows[k];
      assert row in session.objects;
      ghost var before, was := Values(session.objects), row.Value();
      Fail(row, code);
      WrittenNext(session, row, t, ids, f, k, before, was);
    }
    CommitWrites(session, t, ids, f);
  }

  method NameDownload(row: InventoryRow, d: DurableAnswer)
    requires d.DurableDone?
    modifies row
    ensures row.Value() == old(row.Value()).(runId := Some(d.runId), batchId := d.batchId)
  {
    row.runId := Some(d.runId);
    row.batchId := d.batchId;
  }

  method Stage(row: InventoryRow)
    modifies row
    ensures row.Value() == old(row.Value()).(acquisition := Some(Staged), resolution := None, errorCode := None)
  {
    row.acquisition := Some(Staged);
    row.resolution := None;
    row.errorCode := None;
  }

  method RecordDownload(row: InventoryRow, d: DurableAnswer)
    requires d.DurableDone?
    modifies row
    ensures row.Value() == MarkDurable(old(row.Value()), d)
  {
    hide InventoryRow.Value;
    NameDownload(row, d);
    if d.ready {
      Stage(row);
    } else {
      Fail(row, OrText(d.stopReason, "acquisition_failed"));
    }
  }

  method MarkAcquisitionResult(session: InventorySession, rows: seq<InventoryRow>, d: DurableAnswer, ghost ids: seq<nat>)
    requires Ready(session) && RowsOf(session, rows, ids)
    requires d.DurableDone?
    modifies session`stored, session`durable, session.objects
    ensures Ready(session) && RowsOf(session, rows, ids)
    ensures session.stored == UpdateAll(old(session.stored), ids, Downloading(d))
    ensures session.durable == old(session.durable) + [session.stored]
    ensures session.objects == old(session.objects)
  {
    hide InventoryRow.Value, UpdateAll, InventorySession.Laid, InventorySession.Keyed, KeepsKeys, MarkDurable;
    ghost var t, f := session.stored, Downloading(d);
    DownloadingKeepsKeys(d);
    WrittenNone(session, ids, f);
    for k := 0 to |rows|
      invariant Written(session, t, ids, f, k) && RowsOf(session, rows, ids)
      invariant session.objects == old(session.objects) && session.durable == old(session.durable)
    {
      var row := rows[k];
      assert row in session.objects;
      ghost var before, was := Values(session.objects), row.Value();
      RecordDownload(row, d);
      WrittenNext(session, row, t, ids, f, k, before, was);
    }
    CommitWrites(session, t, ids, f);
  }

  method RequireIntake(row: InventoryRow)
    modifies row
    ensures row.Value() == MarkIntakeRequired(old(row.Value()))
  {
    row.acquisition := Some(IntakeRequired);
  }

  method MarkIntakeRequiredRows(session: InventorySession, rows: seq<InventoryRow>, ghost ids: seq<nat>)
    requires Ready(session) && RowsOf(session, rows, ids)
    modifies session`stored, session`durable, session.objects
    ensures Ready(session) && RowsOf(session, rows, ids)
    ensures session.stored == UpdateAll(old(session.stored), ids, RequiringIntake())
    ensures session.durable == old(session.durable) + [session.stored]
    ensures session.objects == old(session.objects)
  {
    hide InventoryRow.Value, UpdateAll, InventorySession.Laid, InventorySession.Keyed, KeepsKeys, MarkIntakeRequired;
    ghost var t, f := session.stored, RequiringIntake();
    PhasesKeepKeys("", 0);
    WrittenNone(session, ids, f);
    for k := 0 to |rows|
      invariant Written(session, t, ids, f, k) && RowsOf(session, rows, ids)
      invariant session.objects == old(session.objects) && session.durable == old(session.durable)
    {
      var row := rows[k];
      assert row in session.objects;
      ghost var before, was := Values(session.objects), row.Value();
      RequireIntake(row);
      WrittenNext(session, row, t, ids, f, k, before, was);
    }
    CommitWrites(session, t, ids, f);
  }

  // ---- matching ----

  ghost predicate IsLookup(lookup: map<string, Item>, items: seq<Item>) {
    forall key ::
      && (key in lookup <==> LastMatch(items, key).Some?)
      && (key in lookup ==> LastMatch(items, key) == Some(lookup[key]))
  }

  /** The dictionary of a listing: of two items with one identity the later stays. */
  method ListingByRemoteIdentity(items: seq<Item>) returns (lookup: map<string, Item>)
    ensures IsLookup(lookup, items)
  {
    hide Strip;
    lookup := map[];
    for k := 0 to |items|
      invariant IsLookup(lookup, items[..k])
    {
      var identity := Strip(items[k].itemId);
      if identity != "" { lookup := lookup[identity := items[k]]; }
      assert items[..k + 1][..k] == items[..k];
    }
    assert items[..|items|] == items;
  }

  method IsManifestUnsafe(row: InventoryRow, item: Item) returns (unsafe: bool)
    ensures unsafe == ManifestUnsafe(row.Value(), item)
  {
    hide Strip;
    if item.identityAmbiguous || item.unsupportedReasons != [] { return true; }
    if item.resources == [] { return true; }
    for k := 0 to |item.resources|
      invariant forall j :: 0 <= j < k ==> CompleteResource(item.resources[j])
    {
      var r := item.resources[k];
      if Strip(r.resourceId) == "" || Strip(r.relativePath) == "" || r.expectedSize.None? || Strip(r.expectedChecksum) == "" {
        assert !CompleteResource(item.resources[k]);
        return true;
      }
    }
    unsafe := row.seen.isLivePhoto && |item.resources| < 2;
  }

  /** The fate of a row in the listing. */
  method FindFate(row: InventoryRow, lookup: map<string, Item>, ghost items: seq<Item>) returns (fate: Fate)
    requires IsLookup(lookup, items)
    ensures fate == FateOf(row.Value(), items)
  {
    hide Strip, ManifestUnsafe, LastMatch;
    var key := Strip(row.identity);
    if key !in lookup { return Stale; }
    var unsafe := IsManifestUnsafe(row, lookup[key]);
    fate := if unsafe then Unsafe else Safe(lookup[key]);
  }

  /** Mark a row that cannot be downloaded. */
  method MarkFate(row: InventoryRow, fate: Fate, ghost items: seq<Item>)
    requires fate == FateOf(row.Value(), items)
    modifies row
    ensures row.Value() == PrepareRow(old(row.Value()), items)
  {
    hide FateOf;
    match fate {
      case Stale =>
        row.acquisition := Some(AcquisitionSkippedStale);
        row.resolution := Some(SkippedStale);
      case Unsafe => Fail(row, "unsafe_manifest");
      case Safe(_) =>
    }
  }

  /** The objects still show the scan columns of the selected rows. */
  ghost predicate ShowScan(rows: seq<InventoryRow>, selected: Table)
    reads rows
  {
    |rows| == |selected| && forall i :: 0 <= i < |rows| ==> SameScan(selected[i], rows[i].Value())
  }

  lemma PreparingKeeps(items: seq<Item>)
    ensures KeepsKeys(Preparing(items))
    ensures forall r :: SameScan(r, PrepareRow(r, items))
  {
  }

  lemma ShownFate(a: Row, b: Row, items: seq<Item>)
    requires SameScan(a, b)
    ensures FateOf(a, items) == FateOf(b, items) && a.id == b.id
  {
  }

  lemma ShowScanNext(rows: seq<InventoryRow>, selected: Table, row: InventoryRow, was: Row, before: seq<Row>)
    requires |before| == |rows| == |selected| && forall i :: 0 <= i < |rows| ==> SameScan(selected[i], before[i])
    requires forall i :: 0 <= i < |rows| ==> if rows[i] == row then before[i] == was else rows[i].Value() == before[i]
    requires SameScan(was, row.Value())
    ensures ShowScan(rows, selected)
  {
    hide InventoryRow.Value;
    forall i | 0 <= i < |rows| ensures SameScan(selected[i], rows[i].Value()) {
      assert SameScan(selected[i], before[i]);
    }
  }

  lemma MatchNext(selected: Table, items: seq<Item>, k: nat)
    requires k < |selected|
    ensures MatchRows(selected[..k + 1], items) ==
      AddRow(MatchRows(selected[..k], items), selected[k], FateOf(selected[k], items))
  {
    hide FateOf, AddRow;
    assert selected[..k + 1][..k] == selected[..k];
  }

  method MatchOne(session: InventorySession, rows: seq<InventoryRow>, k: nat, lookup: map<string, Item>,
                  ghost items: seq<Item>, ghost selected: Table, ghost t: Table)
    returns (fate: Fate)
    requires k < |rows| && IsLookup(lookup, items) && ShowScan(rows, selected) && RowsOf(session, rows, RowIds(selected))
    requires Written(session, t, RowIds(selected), Preparing(items), k)
    modifies rows[k]
    ensures fate == FateOf(selected[k], items)
    ensures ShowScan(rows, selected) && RowsOf(session, rows, RowIds(selected))
    ensures Written(session, t, RowIds(selected), Preparing(items), k + 1)
    ensures rows[k].Value().id == old(rows[k].Value().id)
  {
    hide InventoryRow.Value, UpdateAll, InventorySession.Laid, InventorySession.Keyed, KeepsKeys, PrepareRow, FateOf;
    hide SameScan;
    var row := rows[k];
    ghost var before, was, shown := Values(session.objects), row.Value(), Values(rows);
    PreparingKeeps(items);
    ShownFate(selected[k], was, items);
    fate := FindFate(row, lookup, items);
    MarkFate(row, fate, items);
    ShownFate(was, row.Value(), items);
    WrittenNext(session, row, t, RowIds(selected), Preparing(items), k, before, was);
    ShowScanNext(rows, selected, row, was, shown);
  }

  method PrepareSelection(session: InventorySession, rows: seq<InventoryRow>, items: seq<Item>, ghost selected: Table)
    returns (safeRows: seq<InventoryRow>, m: Matching)
    requires Ready(session) && RowsOf(session, rows, RowIds(selected)) && Values(rows) == selected
    modifies session`stored, session`durable, session.objects
    ensures Ready(session) && RowsOf(session, safeRows, m.rows) && m == MatchRows(selected, items)
    ensures session.stored == UpdateAll(old(session.stored), RowIds(selected), Preparing(items))
    ensures session.durable == old(session.durable) + [session.stored] && session.objects == old(session.objects)
  {
    hide InventoryRow.Value, UpdateAll, PrepareRow, FateOf, Written, MatchRows, SameScan, ShowScan, IsLookup, Ready;
    ghost var t, f := session.stored, Preparing(items);
    var lookup := ListingByRemoteIdentity(items);
    var safeItems: seq<Item>, matched, stale, unsafe := [], 0, 0, 0;
    safeRows := [];
    WrittenNone(session, RowIds(selected), f);
    StartMatching(rows, selected, items);
    for k := 0 to |rows|
      invariant Written(session, t, RowIds(selected), f, k) && RowsOf(session, rows, RowIds(selected))
      invariant session.objects == old(session.objects) && session.durable == old(session.durable)
      invariant ShowScan(rows, selected) && RowsOf(session, safeRows, Ids(safeRows))
      invariant Matching(Ids(safeRows), safeItems, matched, stale, unsafe) == MatchRows(selected[..k], items)
    {
      MatchNext(selected, items, k);
      ghost var safeIds := Ids(safeRows);
      var row := rows[k];
      assert row in session.objects;
      var fate := MatchOne(session, rows, k, lookup, items, selected, t);
      assert Ids(safeRows) == safeIds;
      match fate {
        case Stale => stale := stale + 1;
        case Unsafe => matched, unsafe := matched + 1, unsafe + 1;
        case Safe(item) =>
          matched := matched + 1;
          safeRows := safeRows + [row];
          safeItems := safeItems + [item];
      }
    }
    assert selected[..|rows|] == selected;
    CommitWrites(session, t, RowIds(selected), f);
    m := Matching(Ids(safeRows), safeItems, matched, stale, unsafe);
  }

  lemma StartMatching(rows: seq<InventoryRow>, selected: Table, items: seq<Item>)
    requires Values(rows) == selected
    ensures ShowScan(rows, selected)
    ensures MatchRows(selected[..0], items) == Matching([], [], 0, 0, 0)
  {
  }

  // ---- source intake ----

  method NameIntake(row: InventoryRow, i: IntakeAnswer)
    requires i.IntakeDone?
    modifies row
    ensures row.Value() == old(row.Value()).(intakeRunId := i.intakeRunId, runId := i.runId, batchId := i.batchId)
  {
    row.intakeRunId := i.intakeRunId;
    row.runId := i.runId;
    row.batchId := i.batchId;
  }

  method Complete(row: InventoryRow, resolution: Resolution, now: Time)
    modifies row
    ensures row.Value() == old(row.Value()).(completed := true, completedAt := Some(now), resolution := Some(resolution),
      acquisition := Some(IntakeCompleted), errorCode := None)
  {
    row.completed := true;
    row.completedAt := Some(now);
    row.resolution := Some(resolution);
    row.acquisition := Some(IntakeCompleted);
    row.errorCode := None;
  }

  method LeaveOpen(row: InventoryRow, code: string)
    modifies row
    ensures row.Value() == old(row.Value()).(completed := false, resolution := Some(PartialFailed),
      acquisition := Some(IntakePartialFailed), errorCode := Some(code))
  {
    row.completed := false;
    row.resolution := Some(PartialFailed);
    row.acquisition := Some(IntakePartialFailed);
    row.errorCode := Some(code);
  }

  method ResolveBackfill(row: InventoryRow, item: BatchItem, i: IntakeAnswer, now: Time)
    requires i.IntakeDone?
    modifies row
    ensures row.Value() == ResolveRow(old(row.Value()), item, i, now)
  {
    hide ResolutionOf, AllSucceeded, InventoryRow.Value;
    NameIntake(row, i);
    if AllSucceeded(item.statuses) {
      Complete(row, ResolutionOf(item.statuses), now);
    } else {
      LeaveOpen(row, OrText(i.stopReason, "source_intake_partial_failed"));
    }
  }

  lemma ResolvingKeepsKeys(items: seq<BatchItem>, i: IntakeAnswer, now: Time)
    requires i.IntakeDone?
    ensures KeepsKeys(ResolveAt(items, i, now))
  {
  }

  lemma ResolveAtPosition(items: seq<BatchItem>, i: IntakeAnswer, now: Time, k: nat, r: Row)
    requires i.IntakeDone? && k < |items|
    ensures ResolveAt(items, i, now)(k, r) == ResolveRow(r, items[k], i, now)
  {
  }

  /** Pair rows with the sorted batch items by position and resolve each pair. */
  method ResolvePairs(session: InventorySession, rows: seq<InventoryRow>, items: seq<BatchItem>, i: IntakeAnswer,
                      now: Time, ghost ids: seq<nat>)
    returns (completed: nat)
    requires i.IntakeDone? && Ready(session) && RowsOf(session, rows, ids)
    modifies session`stored, session`durable, session.objects
    ensures Ready(session) && completed == CountSucceeded(items, Min(|ids|, |items|))
    ensures session.stored == UpdateAll(old(session.stored), Paired(ids, items), ResolveAt(items, i, now))
    ensures session.durable == old(session.durable) + [session.stored]
  {
    hide InventoryRow.Value, UpdateAll, InventorySession.Laid, InventorySession.Keyed, KeepsKeys, ResolveRow, ResolveAt;
    hide AllSucceeded;
    ghost var t, f, paired := session.stored, ResolveAt(items, i, now), Paired(ids, items);
    completed := 0;
    ResolvingKeepsKeys(items, i, now);
    WrittenNone(session, paired, f);
    for k := 0 to Min(|rows|, |items|)
      invariant Written(session, t, paired, f, k) && RowsOf(session, rows, ids)
      invariant session.objects == old(session.objects) && session.durable == old(session.durable)
      invariant completed == CountSucceeded(items, k)
    {
      var row := rows[k];
      assert row in session.objects;
      ghost var before, was := Values(session.objects), row.Value();
      ResolveAtPosition(items, i, now, k, was);
      ResolveBackfill(row, items[k], i, now);
      if AllSucceeded(items[k].statuses) { completed := completed + 1; }
      WrittenNext(session, row, t, paired, f, k, before, was);
    }
    CommitWrites(session, t, paired, f);
  }

  /** The batch may be unknown; then no row is written and none counts as completed. */
  method ApplySourceIntakeResult(session: InventorySession, rows: seq<InventoryRow>, s: Services, ghost ids: seq<nat>)
    returns (completed: nat)
    requires s.intake.IntakeDone? && Ready(session) && RowsOf(session, rows, ids)
    modifies session`stored, session`durable, session.objects
    ensures var items := BatchOf(s).GetOr([]);
      && completed == CountSucceeded(items, Min(|ids|, |items|))
      && session.durable == old(session.durable) + (if BatchOf(s).None? then [] else
           [UpdateAll(old(session.stored), Paired(ids, items), ResolveAt(items, s.intake, s.resolvedAt))])
  {
    hide UpdateAll, SortItems, ResolveAt;
    if s.intake.batchId.None? || s.intake.batchId.value !in s.batches { return 0; }
    var items := SortItems(s.batches[s.intake.batchId.value]);
    completed := ResolvePairs(session, rows, items, s.intake, s.resolvedAt, ids);
  }

  // ---- the run ----

  /** The request validation's duplicate check: one pass with the set of item identities seen so far. */
  method NamesItemTwice(items: seq<Item>) returns (twice: bool)
    ensures twice == !DistinctItems(items)
  {
    hide Strip;
    var seen: set<string> := {};
    for k := 0 to |items|
      invariant forall x :: x in seen <==> exists j :: 0 <= j < k && Strip(items[j].itemId) == x
      invariant DistinctItems(items[..k])
    {
      var identity := Strip(items[k].itemId);
      if identity in seen {
        var j :| 0 <= j < k && Strip(items[j].itemId) == identity;
        return true;
      }
      seen := seen + {identity};
    }
    assert items[..|items|] == items;
    twice := false;
  }

  method ValidateRequest(items: seq<Item>, s: Services) returns (refusal: Option<string>)
    ensures refusal == RequestRefusal(items, s)
  {
    if s.profileError.Some? { return s.profileError; }
    if s.requestError.Some? { return s.requestError; }
    if |items| > MAX_SELECTED_ITEMS { return Some("invalid_request"); }
    var twice := NamesItemTwice(items);
    refusal := if twice then Some("invalid_request") else None;
  }

  method RunIntake(session: InventorySession, rows: seq<InventoryRow>, sel: Selected, m: Matching, q: Request, s: Services)
    returns (outcome: Outcome)
    requires Ready(session) && RowsOf(session, rows, m.rows)
    modifies session`stored, session`durable, session.objects
    ensures outcome == Intake(old(session.stored), sel, m, q, s).outcome
    ensures session.durable == old(session.durable) + Intake(old(session.stored), sel, m, q, s).commits
  {
    hide InventoryRow.Value, UpdateAll, Ready, RowsOf, CountSucceeded, ResourceCount, SortItems, ResolveAt, RequiringIntake;
    if !q.autoRunSourceIntake {
      MarkIntakeRequiredRows(session, rows, m.rows);
      return Finished(Report(sel, m, Completed, SourceIntakeRequired));
    }
    if s.intake.IntakeRaised? { return Raised(s.intake.code); }
    var done := ApplySourceIntakeResult(session, rows, s, m.rows);
    var ok := s.intake.completed && (s.intake.stopReason == None || s.intake.stopReason == Some("already_processed"));
    var failed := if |m.rows| >= done then |m.rows| - done else 0;
    var stop := if ok then SourceIntakeCompleted
      else if s.intake.stopReason.Some? && s.intake.stopReason.value != "" then SourceIntakeFailed
      else SourceIntakeBlocked;
    outcome := Finished(Report(sel, m, if ok then Completed else Failed, stop).(intakeAttempted := true,
      intakeSucceeded := ok, completedCount := done, failedRetryable := failed));
  }

  method RunDownload(session: InventorySession, rows: seq<InventoryRow>, sel: Selected, m: Matching, q: Request, s: Services)
    returns (outcome: Outcome)
    requires Ready(session) && RowsOf(session, rows, m.rows)
    modifies session`stored, session`durable, session.objects
    ensures outcome == Download(old(session.stored), sel, m, q, s).outcome
    ensures session.durable == old(session.durable) + Download(old(session.stored), sel, m, q, s).commits
  {
    hide InventoryRow.Value, UpdateAll, Ready, RowsOf, Intake, Report, Failing, Downloading;
    var d := s.durable;
    if d.DurableRaised? {
      MarkAllFailed(session, rows, d.code, m.rows);
      return Finished(AllRetryable(Report(sel, m, Failed, AcquisitionError(d.code))));
    }
    MarkAcquisitionResult(session, rows, d, m.rows);
    if !d.ready || d.batchId.None? {
      return Finished(AllRetryable(Report(sel, m, Failed, AcquisitionError(OrText(d.stopReason, "acquisition_failed")))));
    }
    outcome := RunIntake(session, rows, sel, m, q, s);
  }

  method RunPreflight(session: InventorySession, rows: seq<InventoryRow>, sel: Selected, m: Matching, q: Request, s: Services)
    returns (outcome: Outcome)
    requires Ready(session) && RowsOf(session, rows, m.rows)
    modifies session`stored, session`durable, session.objects
    ensures outcome == Preflight(old(session.stored), sel, m, q, s).outcome
    ensures session.durable == old(session.durable) + Preflight(old(session.stored), sel, m, q, s).commits
  {
    hide InventoryRow.Value, UpdateAll, Ready, RowsOf, Download, Report, Failing, Starting, RequestRefusal;
    if m.rows == [] {
      return Finished(Report(sel, m, Blocked, NoSafeSelections).(failedRetryable := m.unsafe));
    }
    if s.guardrailBlocked { return Finished(Report(sel, m, Blocked, PreflightBlocked)); }
    var refusal := ValidateRequest(m.items, s);
    if refusal.Some? {
      MarkAllFailed(session, rows, refusal.value, m.rows);
      return Finished(AllRetryable(Report(sel, m, Blocked, PreflightBlocked)));
    }
    MarkAttemptStarted(session, rows, s.attemptAt, m.rows);
    outcome := RunDownload(session, rows, sel, m, q, s);
  }

  method SelectFor(session: InventorySession, q: Request) returns (acc: SelectionAccumulator, sel: Selected)
    requires Ready(session) && q.acquireLimit >= 0
    ensures fresh(acc) && sel == SelectionFor(session.stored, q)
    ensures Values(acc.selectedRows) == sel.rows && RowsOf(session, acc.selectedRows, RowIds(sel.rows))
  {
    hide InventoryRow.Value, SelectRows, SelectRequested, InventorySession.Valid, InventorySession.Clean;
    if q.inventoryIds.Some? {
      acc := SelectInventoryRowsByIds(session, q.source, q.inventoryIds.value);
    } else {
      acc := SelectInventoryRows(session, q.source, q.acquireLimit);
    }
    sel := Selected(Values(acc.selectedRows), acc.Counts());
  }

  /**
   * A real run. What it commits, in order, and what it returns are those of `Acquire`, on which the properties of whole
   * runs are proved.
   */
  method RunAcquisition(session: InventorySession, q: Request, s: Services) returns (outcome: Outcome)
    requires Ready(session)
    modifies session`stored, session`durable, session.objects
    ensures outcome == Acquire(old(session.stored), q, s).outcome
    ensures session.durable == old(session.durable) + Acquire(old(session.stored), q, s).commits
  {
    hide InventoryRow.Value, UpdateAll, Ready, RowsOf, Preflight, Report, Preparing, SelectionFor, MatchRows;
    if q.acquireLimit < 1 || q.acquireLimit > MAX_SELECTED_ITEMS { return Raised("invalid_acquire_limit"); }
    if q.maxListingCandidates < 1 || q.maxListingCandidates > MAX_LISTING_CANDIDATES {
      return Raised("invalid_max_listing_candidates");
    }
    if s.sourceError.Some? { return Raised(s.sourceError.value); }
    var acc, sel := SelectFor(session, q);
    if acc.selectedRows == [] {
      return Finished(Report(sel, Matching([], [], 0, 0, 0), Blocked, NoEligibleRows));
    }
    if s.listing.ListingRaised? { return Raised(s.listing.code); }
    var rows, m := PrepareSelection(session, acc.selectedRows, s.listing.items, sel.rows);
    outcome := RunPreflight(session, rows, sel, m, q, s);
  }

  /** A preview writes nothing: it has no objects to modify. */
  method PreviewAcquisition(session: InventorySession, q: Request, sourceError: Option<string>, listing: ListingAnswer,
                            includeItems: bool)
    returns (outcome: PreviewOutcome)
    requires Ready(session)
    ensures outcome == PreviewOf(session.stored, q, sourceError, listing, includeItems)
  {
    hide InventoryRow.Value, SelectRows, MatchRows, PreviewItems, InventorySession.Valid, InventorySession.Clean;
    hide ResourceCount;
    if q.acquireLimit < 1 || q.acquireLimit > MAX_SELECTED_ITEMS { return PreviewRaised("invalid_acquire_limit"); }
    if q.maxListingCandidates < 1 || q.maxListingCandidates > MAX_LISTING_CANDIDATES {
      return PreviewRaised("invalid_max_listing_candidates");
    }
    if sourceError.Some? { return PreviewRaised(sourceError.value); }
    var acc := SelectInventoryRows(session, q.source, q.acquireLimit);
    var n := |acc.selectedRows|;
    if n == 0 { return Previewed(PreviewResult(0, 0, 0, 0, 0, 0, acc.Counts(), NoEligibleInventoryRows, [])); }
    if listing.ListingRaised? { return PreviewRaised(listing.code); }
    if listing.items == [] {
      return Previewed(PreviewResult(n, 0, 0, 0, n, 0, acc.Counts(), ListingRequeryEmpty, []));
    }
    var p := PreviewRows(acc.selectedRows, listing.items, includeItems);
    var stop := if p.selectedLogical > 0 then (if acc.selectableTotal > q.acquireLimit then LimitReached else ReadyForReview)
      else if p.stale > 0 then AllSelectedRowsStale
      else ReadyForReview;
    outcome := Previewed(p.(tally := acc.Counts(), stop := stop));
  }

  /** The counting loop of the preview. */
  method PreviewRows(rows: seq<InventoryRow>, items: seq<Item>, includeItems: bool) returns (p: PreviewResult)
    ensures var m := MatchRows(Values(rows), items);
      p == PreviewResult(|rows|, m.matched, |m.rows|, ResourceCount(m.items), m.stale, m.unsafe, NO_VERDICTS, ReadyForReview,
        if includeItems then PreviewItems(Values(rows), items) else [])
  {
    hide InventoryRow.Value, FateOf;
    var lookup := ListingByRemoteIdentity(items);
    var matched, stale, logical, resources, unsafe := 0, 0, 0, 0, 0;
    var entries: seq<PreviewItem> := [];
    ghost var selected := Values(rows);
    assert selected[..0] == [];
    for k := 0 to |rows|
      invariant var m := MatchRows(selected[..k], items);
        && matched == m.matched && logical == |m.rows| && resources == ResourceCount(m.items)
        && stale == m.stale && unsafe == m.unsafe
      invariant entries == if includeItems then PreviewItems(selected[..k], items) else []
    {
      MatchNext(selected, items, k);
      assert selected[..k + 1][..k] == selected[..k];
      var fate := FindFate(rows[k], lookup, items);
      CountFate(MatchRows(selected[..k], items), selected[k], fate);
      match fate {
        case Stale => stale := stale + 1;
        case Unsafe => matched, unsafe := matched + 1, unsafe + 1;
        case Safe(item) =>
          matched, logical, resources := matched + 1, logical + 1, resources + |item.resources|;
          if includeItems {
            entries := entries + [EntryOf(rows[k], item)];
          }
      }
    }
    assert selected[..|rows|] == selected;
    p := PreviewResult(|rows|, matched, logical, resources, stale, unsafe, NO_VERDICTS, ReadyForReview, entries);
  }

  function EntryOf(row: InventoryRow, item: Item): (entry: PreviewItem)
    reads row
    ensures [entry] == EntryFor(row.Value(), Safe(item))
  {
    PreviewItem(row.id, |item.resources|, row.seen.isLivePhoto, row.seen.primaryPath)
  }

  lemma CountFate(m: Matching, r: Row, fate: Fate)
    ensures ResourceCount(AddRow(m, r, fate).items) ==
      ResourceCount(m.items) + if fate.Safe? then |fate.item.resources| else 0
    ensures |AddRow(m, r, fate).rows| == |m.rows| + if fate.Safe? then 1 else 0
  {
    if fate.Safe? { assert (m.items + [fate.item])[..|m.items|] == m.items; }
  }

  /** The executor's entry point: a dry run is a preview, and writes nothing. */
  method RunIcloudBackfillAcquisition(session: InventorySession, q: Request, s: Services, dryRun: bool)
    returns (outcome: Outcome)
    requires Ready(session)
    modifies session`stored, session`durable, session.objects
    ensures !dryRun ==>
      && outcome == Acquire(old(session.stored), q, s).outcome
      && session.durable == old(session.durable) + Acquire(old(session.stored), q, s).commits
    ensures dryRun ==>
      && session.stored == old(session.stored) && session.durable == old(session.durable)
      && Values(session.objects) == old(Values(session.objects))
    ensures dryRun ==>
      var p := PreviewOf(session.stored, q, s.sourceError, s.listing, false);
      if p.PreviewRaised? then outcome == Raised(p.code)
      else outcome.Finished? && ReportsPreview(outcome.result, p.result)
  {
    hide InventoryRow.Value, Ready, Acquire, PreviewOf;
    if dryRun {
      var p := PreviewAcquisition(session, q, s.sourceError, s.listing, false);
      return if p.PreviewRaised? then Raised(p.code) else Finished(DryRunResult(p.result));
    }
    outcome := RunAcquisition(session, q, s);
  }
}
