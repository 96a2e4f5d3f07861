/** What a run leaves in each selected row and in its report, read off the services' answers column by column. */
module RunOutcomes {
  import opened Text
  import opened Inventory
  import opened Session
  import opened Selection
  import opened Acquisition
  import opened AcquisitionTheorems
  import opened PairingTheorems

  // ---- writes to one row ----

  /** Writing a row several times in the same way is writing it once. */
  lemma {:induction false} UpdateAllAgain(t: Table, ids: seq<nat>, f: (nat, Row) -> Row, g: Row -> Row, i: nat)
    requires KeepsId(f) && i < |t|
    requires forall k: nat, r: Row :: f(k, r) == g(r)
    requires forall r: Row :: g(g(r)) == g(r)
    ensures UpdateAll(t, ids, f)[i] == if t[i].id in ids then g(t[i]) else t[i]
  {
    if ids != [] {
      var n := |ids| - 1;
      UpdateAllKeepsIds(t, ids[..n], f);
      UpdateAllAgain(t, ids[..n], f, g, i);
    }
  }

  /** The run reached its matching pass. */
  predicate Matched(t: Table, q: Request, s: Services) {
    LimitError(q).None? && s.sourceError.None? && s.listing.ListingDone? && SelectionFor(t, q).rows != []
  }

  lemma PreparedRow(t: Table, ids: seq<nat>, items: seq<Item>, i: nat)
    requires i < |t|
    ensures UpdateAll(t, ids, Preparing(items))[i] == if t[i].id in ids then PrepareRow(t[i], items) else t[i]
  {
    forall r ensures FateOf(PrepareRow(r, items), items) == FateOf(r, items) { PreparationKeepsFate(r, items); }
    hide FateOf;
    UpdateAllAgain(t, ids, Preparing(items), r => PrepareRow(r, items), i);
  }

  lemma PreparationKeepsFate(r: Row, items: seq<Item>)
    ensures FateOf(PrepareRow(r, items), items) == FateOf(r, items)
  {
    hide Strip, LastMatch, ManifestUnsafe;
    SameManifest(r, PrepareRow(r, items), items);
  }

  lemma SameManifest(a: Row, b: Row, items: seq<Item>)
    requires a.identity == b.identity && a.seen == b.seen
    ensures FateOf(a, items) == FateOf(b, items)
  {
    hide Strip, LastMatch, CompleteResource;
  }

  lemma FailedRow(t: Table, ids: seq<nat>, code: string, i: nat)
    requires i < |t|
    ensures UpdateAll(t, ids, Failing(code))[i] == if t[i].id in ids then MarkFailed(t[i], code) else t[i]
  {
    UpdateAllAgain(t, ids, Failing(code), r => MarkFailed(r, code), i);
  }

  // ---- rows the run does not take ----

  /** The rows of the run are its safe rows. */
  lemma SafeRowIsTaken(t: Table, q: Request, items: seq<Item>, i: nat)
    requires DistinctIds(t) && q.acquireLimit >= 0 && i < |t|
    ensures var selected := SelectionFor(t, q).rows;
      t[i].id in MatchRows(selected, items).rows <==> t[i].id in RowIds(selected) && FateOf(t[i], items).Safe?
  {
    hide MatchRows, VerdictOf, SelectionFor, Strip, FateOf;
    var selected := SelectionFor(t, q).rows;
    var m := MatchRows(selected, items);
    SelectedRowsAreOpen(t, q);
    MatchingConserves(selected, items);
    MatchedRowsAreSelected(selected, items);
    if t[i].id in m.rows {
      var k :| 0 <= k < |m.rows| && m.rows[k] == t[i].id;
      MatchingAligned(selected, items, k);
      var r :| r in selected && r.id == m.rows[k] && FateOf(r, items) == Safe(m.items[k]);
      SameIdSameRow(t, r, t[i]);
    }
    if t[i].id in RowIds(selected) && FateOf(t[i], items).Safe? { SafeIsMatched(selected, items, t[i]); }
  }

  lemma {:induction false} SafeIsMatched(selected: Table, items: seq<Item>, r: Row)
    requires r in selected && FateOf(r, items).Safe?
    ensures r.id in MatchRows(selected, items).rows
  {
    hide FateOf;
    var n := |selected| - 1;
    assert selected == selected[..n] + [selected[n]];
    if r in selected[..n] { SafeIsMatched(selected[..n], items, r); }
  }

  lemma UntakenAfterStart(t: Table, sel: Selected, m: Matching, q: Request, s: Services, i: nat)
    requires i < |t| && t[i].id !in m.rows
    ensures Download(t, sel, m, q, s).Final(t)[i] == t[i]
  {
    hide SortItems, ResolutionOf, AllSucceeded, ResourceCount, UpdateAll;
    var d := s.durable;
    if d.DurableRaised? {
      FailedRow(t, m.rows, d.code, i);
    } else {
      var u := UpdateAll(t, m.rows, Downloading(d));
      UpdateAllFrame(t, m.rows, Downloading(d), i);
      UpdateAllFrame(u, m.rows, RequiringIntake(), i);
      if s.intake.IntakeDone? {
        var items := BatchOf(s).GetOr([]);
        UpdateAllFrame(u, Paired(m.rows, items), ResolveAt(items, s.intake, s.resolvedAt), i);
      }
    }
  }

  lemma UntakenAtPreflight(t: Table, sel: Selected, m: Matching, q: Request, s: Services, i: nat)
    requires i < |t| && t[i].id !in m.rows
    ensures Preflight(t, sel, m, q, s).Final(t)[i] == t[i]
  {
    hide Download, ResourceCount, UpdateAll, RequestRefusal;
    var refusal := RequestRefusal(m.items, s);
    if refusal.Some? { FailedRow(t, m.rows, refusal.value, i); }
    UpdateAllFrame(t, m.rows, Starting(s.attemptAt), i);
    UntakenAfterStart(UpdateAll(t, m.rows, Starting(s.attemptAt)), sel, m, q, s, i);
  }

  lemma RunContinues(t: Table, q: Request, s: Services)
    requires Matched(t, q, s)
    ensures var sel := SelectionFor(t, q);
      var p := UpdateAll(t, RowIds(sel.rows), Preparing(s.listing.items));
      Acquire(t, q, s).Final(t) == Preflight(p, sel, MatchingFor(t, q, s), q, s).Final(p)
  {
    hide SelectionFor, MatchRows, UpdateAll, Preflight;
  }

  /** The last listing entry with this identity. */
  predicate LastListed(items: seq<Item>, key: string, n: nat) {
    n < |items| && Strip(items[n].itemId) == key && forall m :: n < m < |items| ==> Strip(items[m].itemId) != key
  }

  lemma {:induction false} LastMatchIsLast(items: seq<Item>, key: string, n: nat)
    requires key != "" && LastListed(items, key, n)
    ensures LastMatch(items, key) == Some(items[n])
  {
    hide Strip;
    var last := |items| - 1;
    if n < last { LastMatchIsLast(items[..last], key, n); }
  }

  /** The manifest a row needs: complete resources, two of them for a live photo, and nothing that speaks against it. */
  predicate Whole(r: Row, item: Item) {
    && !item.identityAmbiguous && item.unsupportedReasons == [] && item.resources != []
    && (r.seen.isLivePhoto ==> |item.resources| >= 2)
    && (forall x :: x in item.resources ==>
          Strip(x.resourceId) != "" && Strip(x.relativePath) != "" && x.expectedSize.Some? && Strip(x.expectedChecksum) != "")
  }

  lemma FateMeans(r: Row, items: seq<Item>, n: nat)
    requires Strip(r.identity) != ""
    ensures (forall item :: item in items ==> Strip(item.itemId) != Strip(r.identity)) ==> FateOf(r, items) == Stale
    ensures LastListed(items, Strip(r.identity), n) ==>
      FateOf(r, items) == if Whole(r, items[n]) then Safe(items[n]) else Unsafe
  {
    hide Strip;
    LastMatchIsListed(items, Strip(r.identity));
    if LastListed(items, Strip(r.identity), n) {
      LastMatchIsLast(items, Strip(r.identity), n);
      UnsafeMeans(r, items[n]);
    }
  }

  lemma UnsafeMeans(r: Row, item: Item)
    ensures ManifestUnsafe(r, item) <==> !Whole(r, item)
  {
    hide Strip;
    if !ManifestUnsafe(r, item) {
      forall x | x in item.resources ensures CompleteResource(x) {
        var k :| 0 <= k < |item.resources| && item.resources[k] == x;
      }
    }
  }

  /**
   * A selected row that is not listed any more ends as stale, one whose last listing entry lacks a whole manifest ends
   * as retryable with that error, and neither changes in any other column, whatever the rest of the run does.
   */
  lemma UntakenRows(t: Table, q: Request, s: Services, i: nat, n: nat)
    requires DistinctIds(t) && Matched(t, q, s) && i < |t| && t[i].id in RowIds(SelectionFor(t, q).rows)
    ensures var (r, u, items) := (t[i], Acquire(t, q, s).Final(t)[i], s.listing.items);
      && ((forall item :: item in items ==> Strip(item.itemId) != Strip(r.identity)) ==>
            u == r.(acquisition := Some(AcquisitionSkippedStale), resolution := Some(SkippedStale)))
      && (LastListed(items, Strip(r.identity), n) && !Whole(r, items[n]) ==>
            u == r.(acquisition := Some(AcquisitionFailedRetryable), resolution := Some(FailedRetryable),
                    errorCode := Some("unsafe_manifest")))
  {
    hide MatchRows, SelectionFor, Strip, FateOf, Preflight, UpdateAll, Acquire, Whole, LastListed, VerdictOf;
    var items := s.listing.items;
    var ids := RowIds(SelectionFor(t, q).rows);
    RunContinues(t, q, s);
    PreparedRow(t, ids, items, i);
    SafeRowIsTaken(t, q, items, i);
    SelectedIsIdentified(t, q, i);
    FateMeans(t[i], items, n);
    if !FateOf(t[i], items).Safe? {
      UntakenAtPreflight(UpdateAll(t, ids, Preparing(items)), SelectionFor(t, q), MatchingFor(t, q, s), q, s, i);
    }
  }

  lemma SelectedIsIdentified(t: Table, q: Request, i: nat)
    requires DistinctIds(t) && q.acquireLimit >= 0 && i < |t| && t[i].id in RowIds(SelectionFor(t, q).rows)
    ensures Strip(t[i].identity) != ""
  {
    hide SelectionFor, Strip, DistinctIds;
    SelectedRowsAreOpen(t, q);
    assert VerdictOf(t[i]) == Selectable;
  }

  // ---- rows the run takes ----

  /** What source intake makes of a row whose batch item has these statuses. */
  ghost predicate Settled(u: Row, statuses: seq<Option<IntakeStatus>>, s: Services)
    requires s.intake.IntakeDone?
  {
    && u.intakeRunId == s.intake.intakeRunId && u.runId == s.intake.runId && u.batchId == s.intake.batchId
    && if statuses != [] &&
          forall x :: x in statuses ==> x == Some(Processed) || x == Some(DuplicateLinked) || x == Some(SkippedKnown)
       then
         && u.completed && u.completedAt == Some(s.resolvedAt) && u.acquisition == Some(IntakeCompleted) && u.errorCode == None
         && (u.resolution == Some(AlreadyKnown) <==> forall x :: x in statuses ==> x == Some(SkippedKnown))
         && (u.resolution == Some(ExactDuplicateResolved) <==> Some(DuplicateLinked) in statuses)
         && (u.resolution == Some(NewlyImported) <==> Some(Processed) in statuses && Some(DuplicateLinked) !in statuses)
       else
         && !u.completed && u.acquisition == Some(IntakePartialFailed) && u.resolution == Some(PartialFailed)
         && u.errorCode == if s.intake.stopReason.None? || s.intake.stopReason == Some("")
                           then Some("source_intake_partial_failed") else s.intake.stopReason
  }

  /** The row is settled, and nothing else in it has changed. */
  ghost predicate Settles(r: Row, u: Row, statuses: seq<Option<IntakeStatus>>, s: Services)
    requires s.intake.IntakeDone?
  {
    && Settled(u, statuses, s) && (!u.completed ==> u.completedAt == r.completedAt)
    && u == r.(intakeRunId := u.intakeRunId, runId := u.runId, batchId := u.batchId, completed := u.completed,
               completedAt := u.completedAt, resolution := u.resolution, acquisition := u.acquisition,
               errorCode := u.errorCode)
  }

  lemma ResolveSettles(r: Row, item: BatchItem, s: Services)
    requires s.intake.IntakeDone?
    ensures Settles(r, ResolveRow(r, item, s.intake, s.resolvedAt), item.statuses, s)
  {
    var statuses := item.statuses;
    SuccessMeans(statuses);
    if AllSucceeded(statuses) { ResolutionMeans(statuses); }
    hide AllSucceeded, ResolutionOf;
  }

  lemma SuccessMeans(statuses: seq<Option<IntakeStatus>>)
    ensures AllSucceeded(statuses) <==>
      (statuses != [] &&
       forall x :: x in statuses ==> x == Some(Processed) || x == Some(DuplicateLinked) || x == Some(SkippedKnown))
  {
    if AllSucceeded(statuses) {
      forall x | x in statuses ensures Succeeded(x) {
        var k :| 0 <= k < |statuses| && statuses[k] == x;
      }
    } else if statuses != [] {
      var k :| 0 <= k < |statuses| && !Succeeded(statuses[k]);
      assert statuses[k] in statuses;
    }
  }

  lemma ResolutionMeans(statuses: seq<Option<IntakeStatus>>)
    requires AllSucceeded(statuses)
    ensures var u := ResolutionOf(statuses);
      && (u == AlreadyKnown <==> forall x :: x in statuses ==> x == Some(SkippedKnown))
      && (u == ExactDuplicateResolved <==> Some(DuplicateLinked) in statuses)
      && (u == NewlyImported <==> Some(Processed) in statuses && Some(DuplicateLinked) !in statuses)
  {
    assert statuses[0] in statuses;
    if Some(DuplicateLinked) in statuses {
      var k :| 0 <= k < |statuses| && statuses[k] == Some(DuplicateLinked);
    } else if k :| 0 <= k < |statuses| && statuses[k] != Some(SkippedKnown) {
      assert Succeeded(statuses[k]);
      assert statuses[k] in statuses;
    }
  }

  /** What intake leaves in a row of the run; `k` is its position. */
  ghost predicate IntakeLeaves(r: Row, u: Row, k: nat, q: Request, s: Services) {
    if !q.autoRunSourceIntake then u == r.(acquisition := Some(IntakeRequired))
    else if s.intake.IntakeRaised? || BatchOf(s).None? || k >= |BatchOf(s).value| then u == r
    else Settles(r, u, BatchOf(s).value[k].statuses, s)
  }

  lemma IntakeRow(t: Table, sel: Selected, m: Matching, q: Request, s: Services, i: nat, k: nat)
    requires i < |t| && Distinct(m.rows) && k < |m.rows| && m.rows[k] == t[i].id
    ensures IntakeLeaves(t[i], Intake(t, sel, m, q, s).Final(t)[i], k, q, s)
  {
    hide SortItems, ResolutionOf, AllSucceeded, ResourceCount, UpdateAll, ResolveRow, CountSucceeded, KeepsId, Settles;
    if !q.autoRunSourceIntake {
      assert KeepsId(RequiringIntake()) by { RequiringKeepsIds(); }
      UpdateAllOnce(t, m.rows, RequiringIntake(), i, k);
    } else if s.intake.IntakeDone? && BatchOf(s).Some? {
      var items := BatchOf(s).value;
      ResolvingKeepsIds(items, s.intake, s.resolvedAt);
      if k < |items| {
        UpdateAllOnce(t, Paired(m.rows, items), ResolveAt(items, s.intake, s.resolvedAt), i, k);
        ResolveSettles(t[i], items[k], s);
      } else {
        UpdateAllFrame(t, Paired(m.rows, items), ResolveAt(items, s.intake, s.resolvedAt), i);
      }
    }
  }

  lemma RequiringKeepsIds()
    ensures KeepsId(RequiringIntake())
  {
  }

  /** The row as a failed download or a refused request leaves it. */
  function Retryable(r: Row, code: string): Row {
    r.(acquisition := Some(AcquisitionFailedRetryable), resolution := Some(FailedRetryable), errorCode := Some(code))
  }

  /** What download and intake leave in a row of the run that has been marked as started. */
  ghost predicate DownloadLeaves(r: Row, u: Row, k: nat, q: Request, s: Services) {
    match s.durable
    case DurableRaised(code) => u == Retryable(r, code)
    case DurableDone(runId, batchId, ready, stop) =>
      var named := r.(runId := Some(runId), batchId := batchId);
      if !ready then u == Retryable(named, if stop.None? || stop == Some("") then "acquisition_failed" else stop.value)
      else
        var staged := named.(acquisition := Some(Staged), resolution := None, errorCode := None);
        if batchId.None? then u == staged else IntakeLeaves(staged, u, k, q, s)
  }

  lemma DownloadRow(t: Table, sel: Selected, m: Matching, q: Request, s: Services, i: nat, k: nat)
    requires i < |t| && Distinct(m.rows) && k < |m.rows| && m.rows[k] == t[i].id
    ensures DownloadLeaves(t[i], Download(t, sel, m, q, s).Final(t)[i], k, q, s)
  {
    hide ResourceCount, UpdateAll, Intake, IntakeLeaves;
    var d := s.durable;
    if d.DurableRaised? {
      UpdateAllOnce(t, m.rows, Failing(d.code), i, k);
    } else {
      UpdateAllOnce(t, m.rows, Downloading(d), i, k);
      IntakeRow(UpdateAll(t, m.rows, Downloading(d)), sel, m, q, s, i, k);
    }
  }

  /** The row when its attempt has begun. */
  function Begun(r: Row, s: Services): Row {
    r.(acquisition := Some(Acquiring), attempts := r.attempts + 1, lastAttemptAt := Some(s.attemptAt), errorCode := None)
  }

  /** What the phases after the matching pass leave in a row of the run. */
  ghost predicate RunLeaves(r: Row, u: Row, k: nat, m: Matching, q: Request, s: Services) {
    if s.guardrailBlocked then u == r
    else if RequestRefusal(m.items, s).Some? then u == Retryable(r, RequestRefusal(m.items, s).value)
    else
      DownloadLeaves(Begun(r, s), u, k, q, s)
  }

  lemma PreflightRow(t: Table, sel: Selected, m: Matching, q: Request, s: Services, i: nat, k: nat)
    requires i < |t| && (Accepted(m, s) ==> Distinct(m.rows)) && k < |m.rows| && m.rows[k] == t[i].id
    ensures RunLeaves(t[i], Preflight(t, sel, m, q, s).Final(t)[i], k, m, q, s)
  {
    hide Download, ResourceCount, UpdateAll, RequestRefusal, DownloadLeaves;
    var refusal := RequestRefusal(m.items, s);
    if refusal.Some? {
      FailedRow(t, m.rows, refusal.value, i);
    } else if !s.guardrailBlocked {
      UpdateAllOnce(t, m.rows, Starting(s.attemptAt), i, k);
      DownloadRow(UpdateAll(t, m.rows, Starting(s.attemptAt)), sel, m, q, s, i, k);
    }
  }

  /**
   * Every column of a safe row after a run, from the answers of guardrail, validation, durable download and intake; `k` is
   * the row's position among the safe rows.
   */
  lemma SafeRowOutcome(t: Table, q: Request, s: Services, i: nat, k: nat)
    requires DistinctIds(t) && Matched(t, q, s) && i < |t|
    requires k < |MatchingFor(t, q, s).rows| && MatchingFor(t, q, s).rows[k] == t[i].id
    ensures RunLeaves(t[i], Acquire(t, q, s).Final(t)[i], k, MatchingFor(t, q, s), q, s)
  {
    hide MatchRows, SelectionFor, FateOf, Preflight, UpdateAll, Acquire, VerdictOf, RunLeaves, Accepted, Distinct;
    var items := s.listing.items;
    var ids := RowIds(SelectionFor(t, q).rows);
    RunContinues(t, q, s);
    PreparedRow(t, ids, items, i);
    SafeRowIsTaken(t, q, items, i);
    SafeIsPrepared(t[i], items);
    if Accepted(MatchingFor(t, q, s), s) { PreflightSeparatesRows(t, q, s); }
    PreflightRow(UpdateAll(t, ids, Preparing(items)), SelectionFor(t, q), MatchingFor(t, q, s), q, s, i, k);
  }

  lemma SafeIsPrepared(r: Row, items: seq<Item>)
    ensures FateOf(r, items).Safe? ==> PrepareRow(r, items) == r
  {
    hide FateOf;
  }

  /**
   * A safe row whose intake reported is settled by the batch item made for it, whatever order the batch is loaded in:
   * already known when all its resources were, an exact duplicate when any was linked to one, and newly imported when
   * some resource was processed and none linked; anything else leaves the row open as partly failed.
   */
  lemma OwnItemSettles(t: Table, q: Request, s: Services, i: nat, item: Item, b: BatchItem)
    requires DistinctIds(t) && i < |t| && PassedPreflight(t, q, s) && IntakeRan(q, s)
    requires NumberedFor(s.batches[s.intake.batchId.value], MatchingFor(t, q, s).items)
    requires t[i].id in MatchingFor(t, q, s).rows && FateOf(t[i], s.listing.items) == Safe(item)
    requires b in s.batches[s.intake.batchId.value] && b.itemId == item.itemId
    ensures var u := Acquire(t, q, s).Final(t)[i];
      Settled(u, b.statuses, s) && u.attempts == t[i].attempts + 1 && u.lastAttemptAt == Some(s.attemptAt) && SameScan(t[i], u)
  {
    hide MatchRows, VerdictOf, SelectionFor, Strip, FateOf, SortItems, Acquire, Settled, Distinct;
    var m := MatchingFor(t, q, s);
    var selected := SelectionFor(t, q).rows;
    SelectedRowsAreOpen(t, q);
    MatchedRowsAreSelected(selected, s.listing.items);
    MatchingConserves(selected, s.listing.items);
    NothingToMatch(t, q, s);
    var k :| 0 <= k < |m.rows| && m.rows[k] == t[i].id;
    MatchingAligned(selected, s.listing.items, k);
    var r :| r in selected && r.id == m.rows[k] && FateOf(r, s.listing.items) == Safe(m.items[k]);
    SameIdSameRow(t, r, t[i]);
    BatchItemAtPosition(s.batches[s.intake.batchId.value], m.items, b, k);
    SafeRowOutcome(t, q, s, i, k);
    SettledColumns(t[i], Acquire(t, q, s).Final(t)[i], k, m, q, s);
  }

  lemma SettledColumns(r: Row, u: Row, k: nat, m: Matching, q: Request, s: Services)
    requires RunLeaves(r, u, k, m, q, s) && Accepted(m, s) && IntakeRan(q, s) && k < |BatchOf(s).value|
    ensures u.attempts == r.attempts + 1 && u.lastAttemptAt == Some(s.attemptAt) && SameScan(r, u)
    ensures Settled(u, BatchOf(s).value[k].statuses, s)
  {
    hide RequestRefusal, SortItems, Settled;
  }

  // ---- the report ----

  /** The request validation passes the first objection on: of the profile, of the request, or of the items themselves. */
  lemma RefusalMeans(items: seq<Item>, s: Services)
    ensures RequestRefusal(items, s).None? <==>
      (s.profileError.None? && s.requestError.None? && |items| <= 10_000
       && forall i, j :: 0 <= i < j < |items| ==> Strip(items[i].itemId) != Strip(items[j].itemId))
    ensures s.profileError.Some? ==> RequestRefusal(items, s) == s.profileError
    ensures s.profileError.None? && s.requestError.Some? ==> RequestRefusal(items, s) == s.requestError
    ensures s.profileError.None? && s.requestError.None? && RequestRefusal(items, s).Some? ==>
      RequestRefusal(items, s) == Some("invalid_request")
  {
    hide Strip;
  }

  /** The durable download failed, or has no batch, with this code. */
  predicate DownloadStops(s: Services, code: string) {
    match s.durable
    case DurableRaised(raised) => code == raised
    case DurableDone(_, batchId, ready, stop) =>
      (!ready || batchId.None?) && code == if stop.None? || stop == Some("") then "acquisition_failed" else stop.value
  }

  /** Source intake completed its batch. */
  predicate IntakeSays(s: Services) {
    && s.intake.IntakeDone? && s.intake.completed
    && (s.intake.stopReason.None? || s.intake.stopReason == Some("already_processed"))
  }

  /** Why a run that returned stopped, and what it reports as retryable. */
  ghost predicate Explains(o: AcquireResult, sel: Selected, m: Matching, q: Request, s: Services) {
    match o.stopReason
    case PreviewReady => false
    case NoEligibleRows => sel.rows == [] && o.status == Blocked && o.failedRetryable == 0
    case NoSafeSelections => sel.rows != [] && m.rows == [] && o.status == Blocked && o.failedRetryable == m.unsafe
    case PreflightBlocked =>
      && m.rows != [] && !Accepted(m, s) && o.status == Blocked
      && o.failedRetryable == if s.guardrailBlocked then 0 else |m.rows|
    case AcquisitionError(code) => Accepted(m, s) && DownloadStops(s, code) && o.status == Failed && o.failedRetryable == |m.rows|
    case SourceIntakeRequired =>
      && Accepted(m, s) && s.durable.DurableDone? && s.durable.ready && s.durable.batchId.Some? && !q.autoRunSourceIntake
      && o.status == Completed && o.failedRetryable == 0
    case _ =>
      && Accepted(m, s) && s.durable.DurableDone? && s.durable.ready && s.durable.batchId.Some? && q.autoRunSourceIntake
      && o.intakeAttempted && s.intake.IntakeDone?
      && (o.stopReason == SourceIntakeCompleted <==> IntakeSays(s)) && (o.status == Completed <==> IntakeSays(s))
      && (o.stopReason == SourceIntakeBlocked ==> s.intake.stopReason.None? || s.intake.stopReason == Some(""))
      && (o.stopReason == SourceIntakeFailed ==> s.intake.stopReason.Some? && s.intake.stopReason != Some(""))
      && (o.status == Completed || o.status == Failed)
  }

  /** The report fits its stop reason, and its two intake flags do. */
  ghost predicate Reported(o: AcquireResult, sel: Selected, m: Matching, q: Request, s: Services) {
    && Explains(o, sel, m, q, s)
    && (o.intakeAttempted <==> o.stopReason in {SourceIntakeCompleted, SourceIntakeFailed, SourceIntakeBlocked})
    && (o.intakeSucceeded <==> o.stopReason == SourceIntakeCompleted)
  }

  lemma IntakeExplains(t: Table, sel: Selected, m: Matching, q: Request, s: Services)
    requires Accepted(m, s) && s.durable.DurableDone? && s.durable.ready && s.durable.batchId.Some?
    ensures var o := Intake(t, sel, m, q, s).outcome; o.Finished? ==> Reported(o.result, sel, m, q, s)
  {
    hide UpdateAll, ResourceCount, SortItems, Accepted, CountSucceeded;
  }

  lemma DownloadExplains(t: Table, sel: Selected, m: Matching, q: Request, s: Services)
    requires Accepted(m, s)
    ensures var o := Download(t, sel, m, q, s).outcome; o.Finished? ==> Reported(o.result, sel, m, q, s)
  {
    hide UpdateAll, ResourceCount, Accepted, Intake;
    var d := s.durable;
    if d.DurableDone? && d.ready && d.batchId.Some? {
      IntakeExplains(UpdateAll(t, m.rows, Downloading(d)), sel, m, q, s);
      hide Reported;
    }
  }

  lemma PreflightExplains(t: Table, sel: Selected, m: Matching, q: Request, s: Services)
    requires sel.rows != []
    ensures var o := Preflight(t, sel, m, q, s).outcome; o.Finished? ==> Reported(o.result, sel, m, q, s)
  {
    hide UpdateAll, ResourceCount, Download, RequestRefusal;
    if Accepted(m, s) {
      DownloadExplains(UpdateAll(t, m.rows, Starting(s.attemptAt)), sel, m, q, s);
      hide Reported;
    }
  }

  lemma NothingExplains(sel: Selected, q: Request, s: Services)
    requires sel.rows == []
    ensures Reported(Report(sel, Matching([], [], 0, 0, 0), Blocked, NoEligibleRows), sel, Matching([], [], 0, 0, 0), q, s)
  {
  }

  /**
   * The report of a run that returned: its stop reason names the first answer that stopped it, the status and the retryable
   * count fit the reason, and intake is reported as attempted and as succeeded exactly when it was.
   */
  lemma ReportExplains(t: Table, q: Request, s: Services)
    requires Acquire(t, q, s).outcome.Finished?
    ensures var (o, sel) := (Acquire(t, q, s).outcome.result, SelectionFor(t, q));
      Reported(o, sel, MatchRows(sel.rows, if s.listing.ListingDone? then s.listing.items else []), q, s)
  {
    hide UpdateAll, Preflight, SelectionFor, Reported, Report, MatchRows;
    var sel := SelectionFor(t, q);
    if sel.rows == [] {
      assert MatchRows(sel.rows, if s.listing.ListingDone? then s.listing.items else []) == Matching([], [], 0, 0, 0) by {
        NothingMatched(s);
      }
      NothingExplains(sel, q, s);
    } else {
      var items := s.listing.items;
      PreflightExplains(UpdateAll(t, RowIds(sel.rows), Preparing(items)), sel, MatchRows(sel.rows, items), q, s);
    }
  }

  lemma NothingMatched(s: Services)
    ensures MatchRows([], if s.listing.ListingDone? then s.listing.items else []) == Matching([], [], 0, 0, 0)
  {
  }

  /**
   * A run is turned away, before it commits anything, exactly when a limit is out of range, the source is not valid, or
   * something was selected and the listing failed.
   */
  lemma TurnedAwayIff(t: Table, q: Request, s: Services)
    ensures var e := Acquire(t, q, s);
      (e.outcome.Raised? && e.commits == []) <==>
        || !(1 <= q.acquireLimit <= 10_000) || !(1 <= q.maxListingCandidates <= 100_000)
        || s.sourceError.Some?
        || (SelectionFor(t, q).rows != [] && s.listing.ListingRaised?)
  {
    hide SelectionFor, MatchRows, UpdateAll, Preflight;
  }

  // ---- what is durable while a run goes on ----

  lemma FirstDownloadCommit(t: Table, sel: Selected, m: Matching, q: Request, s: Services, i: nat, k: nat)
    requires i < |t| && Distinct(m.rows) && k < |m.rows| && m.rows[k] == t[i].id
    ensures Download(t, sel, m, q, s).commits != []
    ensures Downloaded(t[i], Download(t, sel, m, q, s).commits[0][i], s)
  {
    hide ResourceCount, UpdateAll, Intake;
    var d := s.durable;
    if d.DurableRaised? {
      UpdateAllOnce(t, m.rows, Failing(d.code), i, k);
    } else {
      UpdateAllOnce(t, m.rows, Downloading(d), i, k);
    }
  }

  /** What the durable download leaves in a row that has been marked as started. */
  predicate Downloaded(r: Row, u: Row, s: Services) {
    match s.durable
    case DurableRaised(code) => u == Retryable(r, code)
    case DurableDone(runId, batchId, ready, stop) =>
      var named := r.(runId := Some(runId), batchId := batchId);
      u == if ready then named.(acquisition := Some(Staged), resolution := None, errorCode := None)
           else Retryable(named, if stop.None? || stop == Some("") then "acquisition_failed" else stop.value)
  }

  lemma PreflightCommits(t: Table, sel: Selected, m: Matching, q: Request, s: Services, i: nat, k: nat)
    requires i < |t| && Accepted(m, s) && Distinct(m.rows) && k < |m.rows| && m.rows[k] == t[i].id
    ensures var commits := Preflight(t, sel, m, q, s).commits;
      && |commits| >= 2 && |commits[0]| == |t| && |commits[1]| == |t|
      && commits[0][i] == Begun(t[i], s)
      && Downloaded(commits[0][i], commits[1][i], s)
  {
    hide Download, ResourceCount, UpdateAll, RequestRefusal, Downloaded;
    UpdateAllOnce(t, m.rows, Starting(s.attemptAt), i, k);
    FirstDownloadCommit(UpdateAll(t, m.rows, Starting(s.attemptAt)), sel, m, q, s, i, k);
  }

  /**
   * What a crash finds: an accepted run first makes its matching pass durable, which leaves safe rows as they are, then
   * the start of the attempt, and then, before intake, the outcome of the download with its run and batch.
   */
  lemma PhasesAreDurable(t: Table, q: Request, s: Services, i: nat, k: nat)
    requires DistinctIds(t) && PassedPreflight(t, q, s) && i < |t|
    requires k < |MatchingFor(t, q, s).rows| && MatchingFor(t, q, s).rows[k] == t[i].id
    ensures var commits := Acquire(t, q, s).commits;
      && |commits| >= 3 && |commits[0]| == |t| && |commits[1]| == |t| && |commits[2]| == |t|
      && commits[0][i] == t[i]
      && commits[1][i] == Begun(t[i], s)
      && Downloaded(commits[1][i], commits[2][i], s)
  {
    hide MatchRows, SelectionFor, FateOf, Preflight, UpdateAll, VerdictOf, Accepted, Distinct, Downloaded;
    var items := s.listing.items;
    var ids := RowIds(SelectionFor(t, q).rows);
    NothingToMatch(t, q, s);
    PreparedRow(t, ids, items, i);
    SafeRowIsTaken(t, q, items, i);
    SafeIsPrepared(t[i], items);
    PreflightSeparatesRows(t, q, s);
    PreflightCommits(UpdateAll(t, ids, Preparing(items)), SelectionFor(t, q), MatchingFor(t, q, s), q, s, i, k);
  }
}
