/** Whole histories of the inventory: scans, previews and acquisitions in any order, each possibly cut short by a crash. */
module History {
  import opened Text
  import opened Inventory
  import opened Session
  import opened Selection
  import opened Acquisition
  import opened AcquisitionTheorems
  import opened Scan
  import opened ScanTheorems
  import opened Backlog
  import opened Drain

  // ---- what every reachable row satisfies ----

  /** The eligibility a scan derives from the two flags it stores beside it. */
  function EligibilityOf(o: Observation): string {
    if o.identityAmbiguous then AMBIGUOUS else if o.unsupportedReasons != [] then UNSUPPORTED else ELIGIBLE
  }

  predicate SoundRow(r: Row) {
    && r.basis == HELPER_ITEM_ID_BASIS && r.identity != "" && Stripped(r.identity)
    && r.seen.known == PENDING_CHECK && r.seen.eligibility == EligibilityOf(r.seen)
    && Evidenced(r)
  }

  ghost predicate Sound(t: Table) {
    DistinctIds(t) && UniqueIdentities(t) && forall i :: 0 <= i < |t| ==> SoundRow(t[i])
  }

  /** Rows are never removed or renamed, and a completed row changes only in its scan columns. */
  predicate Grows(t: Table, u: Table) {
    |t| <= |u| && forall i :: 0 <= i < |t| ==> Succeeds(t[i], u[i])
  }

  predicate Succeeds(a: Row, b: Row) {
    a.id == b.id && SameIdentity(a, b) && a.firstObservedAt == b.firstObservedAt
    && (a.completed ==> b == a.(seen := b.seen))
  }

  // ---- histories ----

  datatype Operation =
    | ScanInventory(call: ScanCall)
    | PreviewAcquisition(request: Request)
    | AcquireBatch(acquireRequest: Request, services: Services)

  /** An operation that reaches at most this many of its commits before it ends or crashes. */
  datatype Step = Step(operation: Operation, reached: nat)

  function AllCommits(t: Table, o: Operation): seq<Table> {
    match o
    case ScanInventory(call) => ScanRun(t, call).commits
    case PreviewAcquisition(_) => []
    case AcquireBatch(q, s) => Acquire(t, q, s).commits
  }

  function Commits(t: Table, step: Step): seq<Table> {
    var all := AllCommits(t, step.operation);
    all[..Min(step.reached, |all|)]
  }

  /** Every durable state, the first one included. */
  function States(t: Table, steps: seq<Step>): (h: seq<Table>)
    ensures h != [] && h[0] == t
    decreases |steps|
  {
    if steps == [] then [t]
    else
      var h := States(t, steps[..|steps| - 1]);
      h + Commits(h[|h| - 1], steps[|steps| - 1])
  }

  /** The database hands every scan identifiers that no stored row has. */
  ghost predicate FreshIdentifiers(t: Table, steps: seq<Step>)
    decreases |steps|
  {
    steps == [] ||
    (var h := States(t, steps[..|steps| - 1]);
     var last := steps[|steps| - 1].operation;
     && FreshIdentifiers(t, steps[..|steps| - 1])
     && (last.ScanInventory? ==> FreeFrom(h[|h| - 1], last.call.freeId)))
  }

  /** Each state is sound and grows out of the one before it. */
  ghost predicate SoundChain(h: seq<Table>) {
    && (forall k :: 0 <= k < |h| ==> Sound(h[k]))
    && (forall k :: 0 < k < |h| ==> Grows(h[k - 1], h[k]))
  }

  lemma RescannedRow(r: Row, items: seq<Item>, c: ScanCall)
    requires SoundRow(r)
    ensures SoundRow(Rescanned(r, items, c)) && Succeeds(r, Rescanned(r, items, c))
  {
    hide LivePhoto, PrimaryResource, Identities, FirstWith, Stripped;
  }

  lemma AddedRow(r: Row, t: Table, items: seq<Item>, c: ScanCall, id: nat)
    requires AddedFor(r, t, items, c, id) && "" !in Identities(items)
    ensures SoundRow(r)
  {
    hide LivePhoto, PrimaryResource, FirstWith, Lookup, Strip;
    var k :| 0 <= k < |items| && Strip(items[k].itemId) == r.identity;
    StripIsProjection(items[k].itemId);
  }

  lemma ScanKeepsSound(t: Table, c: ScanCall)
    requires Sound(t) && FreeFrom(t, c.freeId)
    ensures SoundChain([t] + ScanRun(t, c).commits)
  {
    hide SoundRow, Rescanned, AddedFor, Succeeds, ScanItems, UniqueIdentities, Identities, DistinctIds;
    ScanKeepsIdentitiesUnique(t, c);
    if ScanRun(t, c).outcome.Scanned? {
      var u := ScanRun(t, c).Final(t);
      assert ScanRun(t, c).commits == [u];
      forall i | 0 <= i < |u| ensures SoundRow(u[i]) && (i < |t| ==> Succeeds(t[i], u[i])) {
        ScanWrites(t, c, i);
        if i < |t| { RescannedRow(t[i], c.listing.items, c); }
        else { AddedRow(u[i], t, c.listing.items, c, c.freeId + (i - |t|)); }
      }
    }
  }

  lemma EvolvedSound(t: Table, u: Table, written: seq<nat>)
    requires Sound(t) && Evolved(t, u, written, Evidenced)
    ensures Sound(u)
  {
    hide Stripped;
    forall i, j | 0 <= i < j < |u| ensures u[i].id != u[j].id && !SameIdentity(u[i], u[j]) {
      assert t[i].id != t[j].id && !SameIdentity(t[i], t[j]);
    }
    forall i | 0 <= i < |u| ensures SoundRow(u[i]) { assert SoundRow(t[i]); }
  }

  /** Rows written in the earlier state are open there, so what is completed in it was already completed at the start. */
  lemma EvolvedGrows(t: Table, u: Table, v: Table, written: seq<nat>)
    requires Evolved(t, u, written, IsOpen) && Evolved(t, v, written, Evidenced)
    ensures Grows(u, v)
  {
  }

  lemma AcquireKeepsSound(t: Table, q: Request, s: Services)
    requires Sound(t)
    ensures SoundChain([t] + Acquire(t, q, s).commits)
  {
    hide SoundRow, Acquire, WrittenIds, Succeeds, DistinctIds, UniqueIdentities, Sound, Evolved, Grows;
    var written := WrittenIds(t, q);
    var commits := Acquire(t, q, s).commits;
    SoundIsDistinct(t);
    CommitsTouchOnlyOpenSelectedRows(t, q, s);
    EvolvedAtStart(t, written);
    forall k | 0 <= k < |commits| ensures Sound(commits[k]) && Grows(([t] + commits)[k], commits[k]) {
      EvolvedSound(t, commits[k], written);
      EvolvedGrows(t, ([t] + commits)[k], commits[k], written);
    }
  }

  lemma EvolvedAtStart(t: Table, written: seq<nat>)
    requires forall i :: 0 <= i < |t| && t[i].id in written ==> IsOpen(t[i])
    ensures Evolved(t, t, written, IsOpen)
  {
  }

  lemma SoundIsDistinct(t: Table)
    requires Sound(t)
    ensures DistinctIds(t) && UniqueIdentities(t)
  {
  }

  lemma ChainPrefix(h: seq<Table>, n: nat)
    requires SoundChain(h) && n <= |h|
    ensures SoundChain(h[..n])
  {
    hide Sound, Grows;
  }

  lemma ChainJoin(h: seq<Table>, more: seq<Table>)
    requires h != [] && SoundChain(h) && SoundChain([h[|h| - 1]] + more)
    ensures SoundChain(h + more)
  {
    hide Sound, Grows;
    var tail := [h[|h| - 1]] + more;
    forall k | 0 < k < |h + more| ensures Grows((h + more)[k - 1], (h + more)[k]) && Sound((h + more)[k]) {
      if k >= |h| {
        assert (h + more)[k] == tail[k - |h| + 1] && (h + more)[k - 1] == tail[k - |h|];
      }
    }
  }

  lemma StepKeepsSound(t: Table, step: Step)
    requires Sound(t)
    requires step.operation.ScanInventory? ==> FreeFrom(t, step.operation.call.freeId)
    ensures SoundChain([t] + Commits(t, step))
  {
    hide Sound, Grows, ScanRun, Acquire;
    var all := AllCommits(t, step.operation);
    match step.operation {
      case ScanInventory(call) => ScanKeepsSound(t, call);
      case PreviewAcquisition(_) => assert [t] + all == [t];
      case AcquireBatch(q, s) => AcquireKeepsSound(t, q, s);
    }
    ChainPrefix([t] + all, 1 + |Commits(t, step)|);
    assert ([t] + all)[..1 + |Commits(t, step)|] == [t] + Commits(t, step);
  }

  lemma NoSteps(t: Table)
    ensures States(t, []) == [t] && FreshIdentifiers(t, [])
  {
  }

  lemma StatesNext(t: Table, steps: seq<Step>, step: Step)
    ensures var h := States(t, steps);
      && States(t, steps + [step]) == h + Commits(h[|h| - 1], step)
      && (FreshIdentifiers(t, steps + [step]) <==>
            (FreshIdentifiers(t, steps) && (step.operation.ScanInventory? ==> FreeFrom(h[|h| - 1], step.operation.call.freeId))))
  {
    hide Commits, FreeFrom;
    var more := steps + [step];
    assert more[..|more| - 1] == steps && more[|more| - 1] == step;
  }

  /** From a sound table every history stays sound, state by state. */
  lemma {:induction false} HistoryIsSound(t: Table, steps: seq<Step>)
    requires Sound(t) && FreshIdentifiers(t, steps)
    ensures SoundChain(States(t, steps))
    decreases |steps|
  {
    hide Sound, Grows, Commits, FreeFrom;
    if steps != [] {
      var n := |steps| - 1;
      var h := States(t, steps[..n]);
      HistoryIsSound(t, steps[..n]);
      StepKeepsSound(h[|h| - 1], steps[n]);
      ChainJoin(h, Commits(h[|h| - 1], steps[n]));
    }
  }

  /** Reachable tables have the shape that the results on draining ask for. */
  lemma SoundIsScanShaped(t: Table)
    requires Sound(t)
    ensures ScanShaped(t)
  {
    forall r | r in t ensures r.basis == HELPER_ITEM_ID_BASIS && r.identity != "" && Stripped(r.identity) {
      var i :| 0 <= i < |t| && t[i] == r;
      assert SoundRow(t[i]);
    }
  }

  lemma GrowsAcross(t: Table, u: Table, v: Table)
    requires Grows(t, u) && Grows(u, v)
    ensures Grows(t, v)
  {
    forall i | 0 <= i < |t| ensures Succeeds(t[i], v[i]) {
      assert Succeeds(t[i], u[i]) && Succeeds(u[i], v[i]);
    }
  }

  lemma {:induction false} ChainGrows(h: seq<Table>, i: nat, j: nat)
    requires SoundChain(h) && i <= j < |h|
    ensures Grows(h[i], h[j])
    decreases j
  {
    hide Sound;
    if i < j {
      ChainGrows(h, i, j - 1);
      GrowsAcross(h[i], h[j - 1], h[j]);
    }
  }

  /**
   * Completion is permanent and evidenced: over every history, crashes included, a row that was once completed stays
   * completed in every later state, with the same completion time, resolution and run references, in the acquisition
   * state of a completed intake and without an error; uniqueness of identities holds throughout.
   */
  lemma CompletionIsPermanent(t: Table, steps: seq<Step>, i: nat, j: nat, p: nat)
    requires Sound(t) && FreshIdentifiers(t, steps)
    requires i <= j < |States(t, steps)| && p < |States(t, steps)[i]| && States(t, steps)[i][p].completed
    ensures var u := States(t, steps)[j];
      && UniqueIdentities(u)
      && p < |u| && u[p].completed && Evidenced(u[p])
      && u[p] == States(t, steps)[i][p].(seen := u[p].seen)
  {
    hide States, FreshIdentifiers, Evidenced;
    HistoryIsSound(t, steps);
    ChainGrows(States(t, steps), i, j);
    var u := States(t, steps)[j];
    assert Sound(u);
    assert Succeeds(States(t, steps)[i][p], u[p]);
    assert SoundRow(u[p]);
  }

  // ---- draining a reachable table ----

  /** From every state of every history, good runs drain the backlog in exactly the runs that it needs. */
  lemma ReachableTablesDrain(t: Table, steps: seq<Step>, k: nat, runs: seq<Run>, source: int, limit: nat)
    requires Sound(t) && FreshIdentifiers(t, steps) && k < |States(t, steps)| && limit > 0
    requires GoodRuns(States(t, steps)[k], runs, source, limit)
    ensures var u := States(t, steps)[k];
      SelectableIds(AfterRuns(u, runs), source) == [] <==> |runs| >= RunsNeeded(|SelectableIds(u, source)|, limit)
  {
    hide States, FreshIdentifiers, Sound, GoodRuns, AfterRuns, SelectableIds;
    HistoryIsSound(t, steps);
    var u := States(t, steps)[k];
    SoundIsScanShaped(u);
    DrainsInExactly(u, runs, source, limit);
  }

  function Latest(t: Table, steps: seq<Step>): Table {
    States(t, steps)[|States(t, steps)| - 1]
  }

  const MOST_COMMITS := 4

  lemma CommitsAreFew(t: Table, q: Request, s: Services)
    ensures |Acquire(t, q, s).commits| <= MOST_COMMITS
  {
    hide SelectionFor, MatchRows, UpdateAll, RequestRefusal, Report, BatchOf;
  }

  /** Acquisitions that no crash cuts short. */
  function StepsOf(runs: seq<Run>): (steps: seq<Step>)
    ensures |steps| == |runs|
  {
    seq(|runs|, k requires 0 <= k < |runs| => Step(AcquireBatch(runs[k].request, runs[k].services), MOST_COMMITS))
  }

  lemma LatestNext(t: Table, steps: seq<Step>, step: Step)
    ensures var commits := Commits(Latest(t, steps), step);
      Latest(t, steps + [step]) == if commits == [] then Latest(t, steps) else commits[|commits| - 1]
  {
    hide Commits, States;
    StatesNext(t, steps, step);
  }

  lemma LatestAfter(t: Table, steps: seq<Step>, r: Run)
    ensures Latest(t, steps + StepsOf([r])) == Acquire(Latest(t, steps), r.request, r.services).Final(Latest(t, steps))
  {
    hide Acquire, Latest;
    var u := Latest(t, steps);
    LatestNext(t, steps, StepsOf([r])[0]);
    assert StepsOf([r]) == [StepsOf([r])[0]];
    NoneIsCut(u, r);
    hide Commits, StepsOf;
  }

  lemma NoneIsCut(t: Table, r: Run)
    ensures Commits(t, StepsOf([r])[0]) == Acquire(t, r.request, r.services).commits
  {
    hide Acquire;
    CommitsAreFew(t, r.request, r.services);
  }

  /** Runs in a row are the latest part of a history. */
  lemma {:induction false} RunsAreHistory(t: Table, steps: seq<Step>, runs: seq<Run>)
    ensures Latest(t, steps + StepsOf(runs)) == AfterRuns(Latest(t, steps), runs)
    decreases |runs|
  {
    hide Acquire, Latest;
    if runs == [] {
      assert steps + StepsOf(runs) == steps;
    } else {
      var n := |runs| - 1;
      RunsAreHistory(t, steps, runs[..n]);
      assert steps + StepsOf(runs) == steps + StepsOf(runs[..n]) + StepsOf([runs[n]]);
      LatestAfter(t, steps + StepsOf(runs[..n]), runs[n]);
    }
  }

  /**
   * A history of scans, previews, acquisitions and crashes that goes on with good runs of one source ends with an empty
   * backlog of that source exactly when there are as many as the rows selectable before them need.
   */
  lemma HistoryDrains(t: Table, steps: seq<Step>, runs: seq<Run>, source: int, limit: nat)
    requires Sound(t) && FreshIdentifiers(t, steps) && limit > 0
    requires GoodRuns(Latest(t, steps), runs, source, limit)
    ensures SelectableIds(Latest(t, steps + StepsOf(runs)), source) == [] <==>
      |runs| >= RunsNeeded(|SelectableIds(Latest(t, steps), source)|, limit)
  {
    hide FreshIdentifiers, Sound, GoodRuns, AfterRuns, SelectableIds;
    RunsAreHistory(t, steps, runs);
    ReachableTablesDrain(t, steps, |States(t, steps)| - 1, runs, source, limit);
  }
}
