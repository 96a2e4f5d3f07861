/** What an acquisition run does to the inventory, as a function of the table, the request and the services' answers. */
module Acquisition {
  import opened Text
  import opened Inventory
  import opened Sequences
  import opened Session
  import opened Selection

  const MAX_SELECTED_ITEMS := 10_000
  const MAX_LISTING_CANDIDATES := 100_000

  // ---- matching the selection against a fresh listing ----

  /** The listing entry for a remote identity: the last item with that identity wins. */
  function LastMatch(items: seq<Item>, key: string): Option<Item> {
    if items == [] then None
    else
      var last := items[|items| - 1];
      if key != "" && Strip(last.itemId) == key then Some(last) else LastMatch(items[..|items| - 1], key)
  }

  predicate CompleteResource(r: Resource) {
    Strip(r.resourceId) != "" && Strip(r.relativePath) != "" && r.expectedSize.Some? && Strip(r.expectedChecksum) != ""
  }

  predicate ManifestUnsafe(r: Row, item: Item) {
    || item.identityAmbiguous
    || item.unsupportedReasons != []
    || item.resources == []
    || (exists k :: 0 <= k < |item.resources| && !CompleteResource(item.resources[k]))
    || (r.seen.isLivePhoto && |item.resources| < 2)
  }

  datatype Fate = Stale | Unsafe | Safe(item: Item)

  function FateOf(r: Row, items: seq<Item>): Fate {
    var match_ := LastMatch(items, Strip(r.identity));
    if match_.None? then Stale
    else if ManifestUnsafe(r, match_.value) then Unsafe
    else Safe(match_.value)
  }

  function MarkFailed(r: Row, code: string): Row {
    r.(acquisition := Some(AcquisitionFailedRetryable), resolution := Some(FailedRetryable), errorCode := Some(code))
  }

  function PrepareRow(r: Row, items: seq<Item>): Row {
    match FateOf(r, items)
    case Stale => r.(acquisition := Some(AcquisitionSkippedStale), resolution := Some(SkippedStale))
    case Unsafe => MarkFailed(r, "unsafe_manifest")
    case Safe(_) => r
  }

  /** The rows worth downloading, each with its listing item, and the counters of the pass that found them. */
  datatype Matching = Matching(
    rows: seq<nat>,
    items: seq<Item>,
    matched: nat,
    stale: nat,
    unsafe: nat)

  function AddRow(m: Matching, r: Row, fate: Fate): Matching {
    match fate
    case Stale => m.(stale := m.stale + 1)
    case Unsafe => m.(matched := m.matched + 1, unsafe := m.unsafe + 1)
    case Safe(item) => m.(rows := m.rows + [r.id], items := m.items + [item], matched := m.matched + 1)
  }

  function MatchRows(selected: Table, items: seq<Item>): Matching {
    if selected == [] then Matching([], [], 0, 0, 0)
    else
      var r := selected[|selected| - 1];
      AddRow(MatchRows(selected[..|selected| - 1], items), r, FateOf(r, items))
  }

  function ResourceCount(items: seq<Item>): nat {
    if items == [] then 0 else ResourceCount(items[..|items| - 1]) + |items[|items| - 1].resources|
  }

  function RowIds(t: Table): (ids: seq<nat>)
    ensures |ids| == |t| && forall k :: 0 <= k < |t| ==> ids[k] == t[k].id
  {
    seq(|t|, k requires 0 <= k < |t| => t[k].id)
  }

  // ---- the services' answers ----

  datatype IntakeStatus =
    | Processed
    | DuplicateLinked
    | SkippedKnown
    | IntakeFailed
    | Deferred
    | MissingBeforeIntake
    | ShaMismatch

  /** One item of a durable batch: its number, the remote item it was created for, its resources' intake statuses. */
  datatype BatchItem = BatchItem(index: int, itemId: string, statuses: seq<Option<IntakeStatus>>)

  datatype DurableAnswer =
    | DurableRaised(code: string)
    | DurableDone(runId: int, batchId: Option<int>, ready: bool, stopReason: Option<string>)

  datatype IntakeAnswer =
    | IntakeRaised(code: string)
    | IntakeDone(batchId: Option<int>, runId: Option<int>, intakeRunId: Option<int>, completed: bool,
                 stopReason: Option<string>)

  datatype ListingAnswer = ListingRaised(code: string) | ListingDone(items: seq<Item>)

  datatype Services = Services(
    sourceError: Option<string>,
    listing: ListingAnswer,
    guardrailBlocked: bool,
    profileError: Option<string>,
    requestError: Option<string>,
    durable: DurableAnswer,
    intake: IntakeAnswer,
    batches: map<int, seq<BatchItem>>,
    attemptAt: Time,
    resolvedAt: Time)

  datatype Request = Request(
    source: int,
    acquireLimit: int,
    maxListingCandidates: int,
    autoRunSourceIntake: bool,
    inventoryIds: Option<seq<nat>>)

  datatype Status = DryRunPreview | Completed | Blocked | Failed

  datatype StopReason =
    | PreviewReady
    | NoEligibleRows
    | NoSafeSelections
    | PreflightBlocked
    | AcquisitionError(code: string)
    | SourceIntakeRequired
    | SourceIntakeCompleted
    | SourceIntakeFailed
    | SourceIntakeBlocked

  datatype AcquireResult = AcquireResult(
    status: Status,
    selectedInventory: nat,
    matched: nat,
    selectedLogical: nat,
    selectedResources: nat,
    intakeAttempted: bool,
    intakeSucceeded: bool,
    completedCount: nat,
    stale: nat,
    tally: Tally,
    failedRetryable: nat,
    stopReason: StopReason)

  datatype Outcome = Raised(code: string) | Finished(result: AcquireResult)

  /** Every state a run commits, in order, and what it returns. */
  datatype Effect = Effect(commits: seq<Table>, outcome: Outcome)
  {
    function Final(t: Table): Table {
      if commits == [] then t else commits[|commits| - 1]
    }
  }

  // ---- the download request ----

  predicate DistinctItems(items: seq<Item>) {
    forall i, j :: 0 <= i < j < |items| ==> Strip(items[i].itemId) != Strip(items[j].itemId)
  }

  /** The refusal of the profile check or of the request validation, if any. */
  function RequestRefusal(items: seq<Item>, s: Services): Option<string> {
    if s.profileError.Some? then s.profileError
    else if s.requestError.Some? then s.requestError
    else if |items| > MAX_SELECTED_ITEMS || !DistinctItems(items) then Some("invalid_request")
    else None
  }

  // ---- the writes of the later phases ----

  function MarkStarted(r: Row, now: Time): Row {
    r.(acquisition := Some(Acquiring), attempts := r.attempts + 1, lastAttemptAt := Some(now), errorCode := None)
  }

  function MarkDurable(r: Row, d: DurableAnswer): Row
    requires d.DurableDone?
  {
    var named := r.(runId := Some(d.runId), batchId := d.batchId);
    if d.ready then named.(acquisition := Some(Staged), resolution := None, errorCode := None)
    else MarkFailed(named, OrText(d.stopReason, "acquisition_failed"))
  }

  function MarkIntakeRequired(r: Row): Row {
    r.(acquisition := Some(IntakeRequired))
  }

  predicate Succeeded(status: Option<IntakeStatus>) {
    status == Some(Processed) || status == Some(DuplicateLinked) || status == Some(SkippedKnown)
  }

  predicate AllSucceeded(statuses: seq<Option<IntakeStatus>>) {
    statuses != [] && forall k :: 0 <= k < |statuses| ==> Succeeded(statuses[k])
  }

  function ResolutionOf(statuses: seq<Option<IntakeStatus>>): Resolution {
    if statuses != [] && (forall k :: 0 <= k < |statuses| ==> statuses[k] == Some(SkippedKnown)) then AlreadyKnown
    else if Some(DuplicateLinked) in statuses then ExactDuplicateResolved
    else NewlyImported
  }

  function ResolveRow(r: Row, item: BatchItem, i: IntakeAnswer, now: Time): Row
    requires i.IntakeDone?
  {
    var named := r.(intakeRunId := i.intakeRunId, runId := i.runId, batchId := i.batchId);
    if AllSucceeded(item.statuses) then
      named.(completed := true, completedAt := Some(now), resolution := Some(ResolutionOf(item.statuses)),
             acquisition := Some(IntakeCompleted), errorCode := None)
    else
      named.(completed := false, resolution := Some(PartialFailed), acquisition := Some(IntakePartialFailed),
             errorCode := Some(OrText(i.stopReason, "source_intake_partial_failed")))
  }

  /** The batch items by ascending number. */
  function SortItems(items: seq<BatchItem>): seq<BatchItem> {
    Sort(items, (a: BatchItem, b: BatchItem) => a.index <= b.index)
  }

  function CountSucceeded(items: seq<BatchItem>, n: nat): nat
    requires n <= |items|
  {
    if n == 0 then 0 else CountSucceeded(items, n - 1) + if AllSucceeded(items[n - 1].statuses) then 1 else 0
  }

  /** The write of position `k` of the pairing. */
  function ResolveAt(items: seq<BatchItem>, i: IntakeAnswer, now: Time): (nat, Row) -> Row
    requires i.IntakeDone?
  {
    (k: nat, r: Row) => if k < |items| then ResolveRow(r, items[k], i, now) else r
  }

  function Preparing(items: seq<Item>): (nat, Row) -> Row {
    (k: nat, r: Row) => PrepareRow(r, items)
  }

  function Failing(code: string): (nat, Row) -> Row {
    (k: nat, r: Row) => MarkFailed(r, code)
  }

  function Starting(now: Time): (nat, Row) -> Row {
    (k: nat, r: Row) => MarkStarted(r, now)
  }

  function Downloading(d: DurableAnswer): (nat, Row) -> Row
    requires d.DurableDone?
  {
    (k: nat, r: Row) => MarkDurable(r, d)
  }

  function RequiringIntake(): (nat, Row) -> Row {
    (k: nat, r: Row) => MarkIntakeRequired(r)
  }

  /** The batch the intake answer names. */
  function BatchOf(s: Services): Option<seq<BatchItem>>
    requires s.intake.IntakeDone?
  {
    if s.intake.batchId.Some? && s.intake.batchId.value in s.batches then Some(SortItems(s.batches[s.intake.batchId.value]))
    else None
  }

  /** Rows and sorted batch items are paired by position; a row beyond the shorter list is not written. */
  function Paired(rows: seq<nat>, items: seq<BatchItem>): seq<nat> {
    rows[..Min(|rows|, |items|)]
  }

  // ---- the run ----

  function SelectionFor(t: Table, q: Request): Selected
    requires q.acquireLimit >= 0
  {
    if q.inventoryIds.Some? then SelectRequested(t, q.source, q.inventoryIds.value)
    else SelectRows(t, q.source, q.acquireLimit)
  }

  function LimitError(q: Request): Option<string> {
    if q.acquireLimit < 1 || q.acquireLimit > MAX_SELECTED_ITEMS then Some("invalid_acquire_limit")
    else if q.maxListingCandidates < 1 || q.maxListingCandidates > MAX_LISTING_CANDIDATES then
      Some("invalid_max_listing_candidates")
    else None
  }

  /** The result with the counters common to every return after the listing was matched. */
  function Report(sel: Selected, m: Matching, status: Status, stop: StopReason): AcquireResult {
    AcquireResult(status, |sel.rows|, m.matched, |m.rows|, ResourceCount(m.items), false, false, 0, m.stale, sel.tally, 0,
                  stop)
  }

  function AllRetryable(r: AcquireResult): AcquireResult {
    r.(failedRetryable := r.selectedLogical)
  }

  function Acquire(t: Table, q: Request, s: Services): (e: Effect)
    ensures forall c :: c in e.commits ==> |c| == |t|
  {
    if LimitError(q).Some? then Effect([], Raised(LimitError(q).value))
    else if s.sourceError.Some? then Effect([], Raised(s.sourceError.value))
    else
      var sel := SelectionFor(t, q);
      if sel.rows == [] then Effect([], Finished(Report(sel, Matching([], [], 0, 0, 0), Blocked, NoEligibleRows)))
      else if s.listing.ListingRaised? then Effect([], Raised(s.listing.code))
      else
        var items := s.listing.items;
        var m := MatchRows(sel.rows, items);
        var prepared := UpdateAll(t, RowIds(sel.rows), Preparing(items));
        var rest := Preflight(prepared, sel, m, q, s);
        Effect([prepared] + rest.commits, rest.outcome)
  }

  function Preflight(t: Table, sel: Selected, m: Matching, q: Request, s: Services): (e: Effect)
    ensures forall c :: c in e.commits ==> |c| == |t|
  {
    if m.rows == [] then
      Effect([], Finished(Report(sel, m, Blocked, NoSafeSelections).(failedRetryable := m.unsafe)))
    else if s.guardrailBlocked then Effect([], Finished(Report(sel, m, Blocked, PreflightBlocked)))
    else
      var refusal := RequestRefusal(m.items, s);
      if refusal.Some? then
        Effect([UpdateAll(t, m.rows, Failing(refusal.value))],
               Finished(AllRetryable(Report(sel, m, Blocked, PreflightBlocked))))
      else
        var started := UpdateAll(t, m.rows, Starting(s.attemptAt));
        var rest := Download(started, sel, m, q, s);
        Effect([started] + rest.commits, rest.outcome)
  }

  function Download(t: Table, sel: Selected, m: Matching, q: Request, s: Services): (e: Effect)
    ensures forall c :: c in e.commits ==> |c| == |t|
  {
    if s.durable.DurableRaised? then
      Effect([UpdateAll(t, m.rows, Failing(s.durable.code))],
             Finished(AllRetryable(Report(sel, m, Failed, AcquisitionError(s.durable.code)))))
    else
      var d := s.durable;
      var downloaded := UpdateAll(t, m.rows, Downloading(d));
      if !d.ready || d.batchId.None? then
        Effect([downloaded],
               Finished(AllRetryable(Report(sel, m, Failed, AcquisitionError(OrText(d.stopReason, "acquisition_failed"))))))
      else
        var rest := Intake(downloaded, sel, m, q, s);
        Effect([downloaded] + rest.commits, rest.outcome)
  }

  function Intake(t: Table, sel: Selected, m: Matching, q: Request, s: Services): (e: Effect)
    ensures forall c :: c in e.commits ==> |c| == |t|
  {
    if !q.autoRunSourceIntake then
      Effect([UpdateAll(t, m.rows, RequiringIntake())],
             Finished(Report(sel, m, Completed, SourceIntakeRequired)))
    else if s.intake.IntakeRaised? then Effect([], Raised(s.intake.code))
    else
      var batch := BatchOf(s);
      var items := batch.GetOr([]);
      var done := CountSucceeded(items, Min(|m.rows|, |items|));
      var ok := s.intake.completed && (s.intake.stopReason == None || s.intake.stopReason == Some("already_processed"));
      var result := Report(sel, m, if ok then Completed else Failed,
        if ok then SourceIntakeCompleted
        else if s.intake.stopReason.Some? && s.intake.stopReason.value != "" then SourceIntakeFailed
        else SourceIntakeBlocked);
      Effect(if batch.None? then [] else [UpdateAll(t, Paired(m.rows, items), ResolveAt(items, s.intake, s.resolvedAt))],
             Finished(result.(intakeAttempted := true, intakeSucceeded := ok, completedCount := done,
                              failedRetryable := if |m.rows| >= done then |m.rows| - done else 0)))
  }
}
