/** The durable inventory of remote iCloud assets, and the listing items the helper reports. */
module Inventory {
  import opened Text

  type Time = int

  const HELPER_ITEM_ID_BASIS := "helper_item_id_observed_stable"
  const ELIGIBLE := "eligible_metadata_only"
  const UNSUPPORTED := "unsupported_metadata_only"
  const AMBIGUOUS := "ambiguous_metadata_only"
  const PENDING_CHECK := "pending_known_state_check"
  const UNKNOWN := "unknown"

  datatype AcquisitionState =
    | Acquiring
    | Staged
    | IntakeRequired
    | IntakeCompleted
    | IntakePartialFailed
    | AcquisitionFailedRetryable
    | AcquisitionSkippedStale

  datatype Resolution =
    | NewlyImported
    | ExactDuplicateResolved
    | AlreadyKnown
    | FailedRetryable
    | PartialFailed
    | SkippedStale

  datatype Resource = Resource(
    resourceId: string,
    relativePath: string,
    expectedSize: Option<nat>,
    expectedChecksum: string,
    contentType: string)

  datatype Item = Item(
    itemId: string,
    grouping: string,
    identityAmbiguous: bool,
    unsupportedReasons: seq<string>,
    createdAt: string,
    addedAt: string,
    resources: seq<Resource>)

  /** The columns a scan rewrites from the listing. */
  datatype Observation = Observation(
    position: nat,
    observedAt: Time,
    lastObservedAt: Time,
    grouping: Option<string>,
    createdRemoteAt: Option<string>,
    addedRemoteAt: Option<string>,
    primaryPath: Option<string>,
    primaryContentType: Option<string>,
    primarySize: Option<nat>,
    resourceCount: nat,
    isLivePhoto: bool,
    identityAmbiguous: bool,
    unsupportedReasons: seq<string>,
    eligibility: string,
    known: string)

  /** One inventory row as the database stores it. */
  datatype Row = Row(
    id: nat,
    sourceId: int,
    basis: string,
    identity: string,
    firstObservedAt: Time,
    seen: Observation,
    completed: bool,
    completedAt: Option<Time>,
    resolution: Option<Resolution>,
    acquisition: Option<AcquisitionState>,
    runId: Option<int>,
    batchId: Option<int>,
    intakeRunId: Option<int>,
    errorCode: Option<string>,
    attempts: nat,
    lastAttemptAt: Option<Time>)

  type Table = seq<Row>

  predicate DistinctIds(t: Table) {
    forall i, j :: 0 <= i < j < |t| ==> t[i].id != t[j].id
  }

  predicate HasId(t: Table, id: nat) {
    exists i :: 0 <= i < |t| && t[i].id == id
  }

  /** The mapped object through which the services read and write one row. */
  class InventoryRow {
    var id: nat
    var sourceId: int
    var basis: string
    var identity: string
    var firstObservedAt: Time
    var seen: Observation
    var completed: bool
    var completedAt: Option<Time>
    var resolution: Option<Resolution>
    var acquisition: Option<AcquisitionState>
    var runId: Option<int>
    var batchId: Option<int>
    var intakeRunId: Option<int>
    var errorCode: Option<string>
    var attempts: nat
    var lastAttemptAt: Option<Time>

    function Value(): Row
      reads this
    {
      Row(id, sourceId, basis, identity, firstObservedAt, seen, completed, completedAt, resolution, acquisition,
          runId, batchId, intakeRunId, errorCode, attempts, lastAttemptAt)
    }

    constructor (r: Row)
      ensures Value() == r
    {
      id, sourceId, basis, identity := r.id, r.sourceId, r.basis, r.identity;
      firstObservedAt, seen := r.firstObservedAt, r.seen;
      completed, completedAt, resolution, acquisition := r.completed, r.completedAt, r.resolution, r.acquisition;
      runId, batchId, intakeRunId := r.runId, r.batchId, r.intakeRunId;
      errorCode, attempts, lastAttemptAt := r.errorCode, r.attempts, r.lastAttemptAt;
    }
  }
}
