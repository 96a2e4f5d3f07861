/** What the selection's verdicts and the inventory counters count: sets of stored rows, by their plain columns. */
module CountsMeaning {
  import opened Text
  import opened Inventory
  import opened Sequences
  import opened Selection
  import opened PreviewIds
  import opened History
  import opened Counters

  // ---- verdicts ----

  /** Why a row may be passed over. */
  datatype Reason = Finished | Nameless | KnownElsewhere | Doubtful | Unsupportable | Unclassified

  predicate Holds(r: Row, why: Reason) {
    match why
    case Finished => r.completed
    case Nameless => Strip(r.basis) == "" || Strip(r.identity) == ""
    case KnownElsewhere => Strip(r.seen.known) !in {"pending_known_state_check", "unknown"}
    case Doubtful => r.seen.identityAmbiguous || Strip(r.seen.eligibility) == "ambiguous_metadata_only"
    case Unsupportable => Strip(r.seen.eligibility) == "unsupported_metadata_only"
    case Unclassified =>
      Strip(r.seen.eligibility) !in {"ambiguous_metadata_only", "unsupported_metadata_only", "eligible_metadata_only"}
  }

  /** Of several reasons the first one listed is counted. */
  predicate HoldsFirst(r: Row, why: Reason) {
    && Holds(r, why)
    && (why != Finished ==> !r.completed)
    && (why != Finished && why != Nameless ==> !Holds(r, Nameless))
    && (why.Doubtful? || why.Unsupportable? || why.Unclassified? ==> !Holds(r, KnownElsewhere))
    && (why.Unsupportable? || why.Unclassified? ==> !Holds(r, Doubtful))
  }

  predicate WithoutReason(r: Row) {
    forall why :: !Holds(r, why)
  }

  function CountedFor(why: Reason): Row -> bool {
    (r: Row) => HoldsFirst(r, why)
  }

  function VerdictIs(v: Verdict): Row -> bool {
    (r: Row) => VerdictOf(r) == v
  }

  lemma VerdictMeans(r: Row)
    ensures VerdictOf(r) == SkipCompleted <==> HoldsFirst(r, Finished)
    ensures VerdictOf(r) == SkipMissingIdentity <==> HoldsFirst(r, Nameless)
    ensures VerdictOf(r) == SkipKnown <==> HoldsFirst(r, KnownElsewhere)
    ensures VerdictOf(r) == SkipAmbiguous <==> HoldsFirst(r, Doubtful)
    ensures VerdictOf(r) == SkipUnsupported <==> HoldsFirst(r, Unsupportable)
    ensures VerdictOf(r) == SkipPendingClassification <==> HoldsFirst(r, Unclassified)
    ensures VerdictOf(r) == Selectable <==> WithoutReason(r)
  {
    hide Strip;
    assert UNSUPPORTED[0] == 'u' && ELIGIBLE[0] == 'e' && AMBIGUOUS[0] == 'a';
    if VerdictOf(r) == Selectable {
      forall why ensures !Holds(r, why) {
      }
    } else {
      assert Holds(r, Finished) || Holds(r, Nameless) || Holds(r, KnownElsewhere) || Holds(r, Doubtful)
        || Holds(r, Unsupportable) || Holds(r, Unclassified);
    }
  }

  // ---- counts as sets of rows ----

  /** The positions of the source's rows that meet a condition. */
  ghost function Where(t: Table, source: int, p: Row -> bool): set<nat> {
    set i: nat | i < |t| && t[i].sourceId == source && p(t[i])
  }

  lemma WhereNext(t: Table, source: int, p: Row -> bool)
    requires t != []
    ensures var n := |t| - 1;
      |Where(t, source, p)| == |Where(t[..n], source, p)| + if t[n].sourceId == source && p(t[n]) then 1 else 0
  {
    var n := |t| - 1;
    assert Where(t, source, p) == Where(t[..n], source, p) + if t[n].sourceId == source && p(t[n]) then {n} else {};
  }

  lemma {:induction false} OfSourceNext(t: Table, source: int)
    requires t != []
    ensures var n := |t| - 1; OfSource(t, source) == OfSource(t[..n], source) + if t[n].sourceId == source then [t[n]] else []
  {
    var n := |t| - 1;
    if n > 0 {
      OfSourceNext(t[1..], source);
      assert t[1..][..n - 1] == t[..n][1..];
    }
  }

  lemma {:induction false} KeepIsWhere(t: Table, source: int, v: Verdict)
    ensures |Keep(OfSource(t, source), v)| == |Where(t, source, VerdictIs(v))|
  {
    hide VerdictOf;
    if t == [] {
      assert Where(t, source, VerdictIs(v)) == {};
    } else {
      var n := |t| - 1;
      KeepIsWhere(t[..n], source, v);
      OfSourceNext(t, source);
      WhereNext(t, source, VerdictIs(v));
      var before := OfSource(t[..n], source);
      KeepNext(before, t[n]);
      assert before + [] == before;
    }
  }

  lemma {:induction false} CountAppended(t: Table, r: Row, filter: Row -> Truth)
    ensures Count(t + [r], filter) == Count(t, filter) + if filter(r) == True then 1 else 0
  {
    if t == [] {
      assert [] + [r] == [r] && [r][1..] == [];
    } else {
      CountAppended(t[1..], r, filter);
      assert (t + [r])[1..] == t[1..] + [r];
    }
  }

  lemma {:induction false} CountIsWhere(t: Table, source: int, filter: Row -> Truth, p: Row -> bool)
    requires forall r :: filter(r) == True <==> p(r)
    ensures Count(OfSource(t, source), filter) == |Where(t, source, p)|
  {
    if t == [] {
      assert Where(t, source, p) == {};
    } else {
      var n := |t| - 1;
      CountIsWhere(t[..n], source, filter, p);
      OfSourceNext(t, source);
      WhereNext(t, source, p);
      CountAppended(OfSource(t[..n], source), t[n], filter);
      assert OfSource(t[..n], source) + [] == OfSource(t[..n], source);
    }
  }

  lemma WhereAlike(t: Table, source: int, p: Row -> bool, q: Row -> bool)
    requires forall i :: 0 <= i < |t| && t[i].sourceId == source ==> p(t[i]) == q(t[i])
    ensures |Where(t, source, p)| == |Where(t, source, q)|
  {
    assert Where(t, source, p) == Where(t, source, q);
  }

  lemma TallyIsWhere(t: Table, source: int, limit: nat, v: Verdict)
    ensures CountOf(SelectRows(t, source, limit).tally, v) == |Where(t, source, VerdictIs(v))|
  {
    hide VerdictOf;
    var rows := OrderedRows(t, source);
    TallyCounts(rows, v);
    SortSorts(OfSource(t, source), RowLeq);
    KeepRearranged(rows, OfSource(t, source), v);
    KeepIsWhere(t, source, v);
  }

  lemma VerdictCounts(t: Table, source: int, limit: nat, v: Verdict, p: Row -> bool)
    requires forall r :: VerdictOf(r) == v <==> p(r)
    ensures CountOf(SelectRows(t, source, limit).tally, v) == |Where(t, source, p)|
  {
    hide VerdictOf;
    TallyIsWhere(t, source, limit, v);
    WhereAlike(t, source, VerdictIs(v), p);
  }

  /**
   * The selection's seven counters, on any table: six count the source's rows for which a reason holds before any other,
   * in the order completed, nameless, known, ambiguous, unsupported, unclassified, and the last those without a reason.
   */
  lemma TallyMeans(t: Table, source: int, limit: nat)
    ensures var c := SelectRows(t, source, limit).tally;
      && c.completed == |Where(t, source, CountedFor(Finished))|
      && c.missingIdentity == |Where(t, source, CountedFor(Nameless))|
      && c.known == |Where(t, source, CountedFor(KnownElsewhere))|
      && c.ambiguous == |Where(t, source, CountedFor(Doubtful))|
      && c.unsupported == |Where(t, source, CountedFor(Unsupportable))|
      && c.pendingClassification == |Where(t, source, CountedFor(Unclassified))|
      && c.selectable == |Where(t, source, WithoutReason)|
  {
    hide VerdictOf, HoldsFirst, Holds, SelectRows, Where;
    forall r ensures VerdictOf(r) == SkipCompleted <==> HoldsFirst(r, Finished) { VerdictMeans(r); }
    forall r ensures VerdictOf(r) == SkipMissingIdentity <==> HoldsFirst(r, Nameless) { VerdictMeans(r); }
    forall r ensures VerdictOf(r) == SkipKnown <==> HoldsFirst(r, KnownElsewhere) { VerdictMeans(r); }
    forall r ensures VerdictOf(r) == SkipAmbiguous <==> HoldsFirst(r, Doubtful) { VerdictMeans(r); }
    forall r ensures VerdictOf(r) == SkipUnsupported <==> HoldsFirst(r, Unsupportable) { VerdictMeans(r); }
    forall r ensures VerdictOf(r) == SkipPendingClassification <==> HoldsFirst(r, Unclassified) { VerdictMeans(r); }
    forall r ensures VerdictOf(r) == Selectable <==> WithoutReason(r) { VerdictMeans(r); }
    VerdictCounts(t, source, limit, SkipCompleted, CountedFor(Finished));
    VerdictCounts(t, source, limit, SkipMissingIdentity, CountedFor(Nameless));
    VerdictCounts(t, source, limit, SkipKnown, CountedFor(KnownElsewhere));
    VerdictCounts(t, source, limit, SkipAmbiguous, CountedFor(Doubtful));
    VerdictCounts(t, source, limit, SkipUnsupported, CountedFor(Unsupportable));
    VerdictCounts(t, source, limit, SkipPendingClassification, CountedFor(Unclassified));
    VerdictCounts(t, source, limit, Selectable, WithoutReason);
  }

  predicate IsDone(r: Row) {
    r.completed
  }

  predicate OpenAmbiguous(r: Row) {
    !r.completed && r.seen.identityAmbiguous
  }

  predicate OpenUnsupported(r: Row) {
    !r.completed && !r.seen.identityAmbiguous && r.seen.unsupportedReasons != []
  }

  predicate OpenEligible(r: Row) {
    !r.completed && !r.seen.identityAmbiguous && r.seen.unsupportedReasons == []
  }

  /**
   * On reachable tables the counters follow the two flags a scan stores: open rows flagged ambiguous, other open rows with
   * an unsupported reason, and the remaining open rows, which are selectable; the other three skip counters stay at zero.
   */
  lemma ReachableTally(t: Table, source: int, limit: nat)
    requires Sound(t)
    ensures var c := SelectRows(t, source, limit).tally;
      && c.completed == |Where(t, source, IsDone)|
      && c.ambiguous == |Where(t, source, OpenAmbiguous)|
      && c.unsupported ==
           |Where(t, source, OpenUnsupported)|
      && c.selectable ==
           |Where(t, source, OpenEligible)|
      && c.missingIdentity == 0 && c.known == 0 && c.pendingClassification == 0
  {
    hide VerdictOf, SelectRows, Where, SoundRow;
    forall i | 0 <= i < |t|
      ensures VerdictOf(t[i]) == if t[i].completed then SkipCompleted
                                 else if t[i].seen.identityAmbiguous then SkipAmbiguous
                                 else if t[i].seen.unsupportedReasons != [] then SkipUnsupported
                                 else Selectable
    {
      SoundVerdict(t[i]);
    }
    TallyIsWhere(t, source, limit, SkipCompleted);
    TallyIsWhere(t, source, limit, SkipAmbiguous);
    TallyIsWhere(t, source, limit, SkipUnsupported);
    TallyIsWhere(t, source, limit, Selectable);
    TallyIsWhere(t, source, limit, SkipMissingIdentity);
    TallyIsWhere(t, source, limit, SkipKnown);
    TallyIsWhere(t, source, limit, SkipPendingClassification);
    WhereAlike(t, source, VerdictIs(SkipCompleted), IsDone);
    WhereAlike(t, source, VerdictIs(SkipAmbiguous), OpenAmbiguous);
    WhereAlike(t, source, VerdictIs(SkipUnsupported),
      OpenUnsupported);
    WhereAlike(t, source, VerdictIs(Selectable),
      OpenEligible);
    WhereNone(t, source, VerdictIs(SkipMissingIdentity));
    WhereNone(t, source, VerdictIs(SkipKnown));
    WhereNone(t, source, VerdictIs(SkipPendingClassification));
  }

  lemma WhereNone(t: Table, source: int, p: Row -> bool)
    requires forall i :: 0 <= i < |t| ==> !p(t[i])
    ensures |Where(t, source, p)| == 0
  {
    assert Where(t, source, p) == {};
  }

  lemma SoundVerdict(r: Row)
    requires SoundRow(r)
    ensures VerdictOf(r) == if r.completed then SkipCompleted
                            else if r.seen.identityAmbiguous then SkipAmbiguous
                            else if r.seen.unsupportedReasons != [] then SkipUnsupported
                            else Selectable
  {
    hide Strip;
    ConstantsAreStripped();
    StripIsProjection(r.identity);
  }

  // ---- the inventory counters ----

  predicate Anything(r: Row) {
    true
  }

  predicate IsEligible(r: Row) {
    r.seen.eligibility == "eligible_metadata_only"
  }

  predicate IsIneligible(r: Row) {
    r.seen.eligibility != "eligible_metadata_only"
  }

  /** An open eligible row. */
  predicate Wanted(r: Row) {
    r.seen.eligibility == "eligible_metadata_only" && !r.completed
  }

  predicate MarkedRetryable(r: Row) {
    r.acquisition == Some(AcquisitionFailedRetryable) || r.resolution == Some(FailedRetryable)
  }

  predicate OpenRetryable(r: Row) {
    !r.completed && MarkedRetryable(r)
  }

  predicate Acquirable(r: Row) {
    && Wanted(r) && !MarkedRetryable(r) && r.seen.known in {"pending_known_state_check", "unknown"}
    && !r.seen.identityAmbiguous && r.identity != "" && r.basis != ""
  }

  /** The seven inventory counters, on any table, as sets of the source's rows; null columns are as good as other values. */
  lemma CountersMean(t: Table, source: int)
    ensures var c := CountInventory(t, source);
      && c.total == |Where(t, source, Anything)|
      && c.eligible == |Where(t, source, IsEligible)|
      && c.unsupportedOrAmbiguous == |Where(t, source, IsIneligible)|
      && c.completed == |Where(t, source, IsDone)|
      && c.unresolvedEligible == |Where(t, source, Wanted)|
      && c.acquirablePending ==
           |Where(t, source, Acquirable)|
      && c.retryableFailed == |Where(t, source, OpenRetryable)|
  {
    hide Where;
    CountIsWhere(t, source, EligibleFilter, IsEligible);
    CountIsWhere(t, source, NotEligibleFilter, IsIneligible);
    CountIsWhere(t, source, CompletedFilter, IsDone);
    CountIsWhere(t, source, UnresolvedEligibleFilter, Wanted);
    CountIsWhere(t, source, AcquirablePendingFilter, Acquirable);
    CountIsWhere(t, source, RetryableFailedFilter, OpenRetryable);
    TotalIsWhere(t, source);
  }

  lemma {:induction false} TotalIsWhere(t: Table, source: int)
    ensures |OfSource(t, source)| == |Where(t, source, Anything)|
  {
    if t == [] {
      assert Where(t, source, Anything) == {};
    } else {
      TotalIsWhere(t[..|t| - 1], source);
      OfSourceNext(t, source);
      WhereNext(t, source, Anything);
    }
  }

  // ---- explicit identifiers ----

  /** The identifier's row gets this verdict; an identifier without a row counts as one without identity. */
  predicate GetsVerdict(t: Table, source: int, id: nat, v: Verdict) {
    var row := FindRow(t, source, id);
    if row.Some? then VerdictOf(row.value) == v else v == SkipMissingIdentity
  }

  /** The positions of a request whose identifiers get this verdict. */
  ghost function Asked(t: Table, source: int, ids: seq<nat>, v: Verdict): set<nat> {
    set p: nat | p < |ids| && GetsVerdict(t, source, ids[p], v)
  }

  lemma BumpedBy(c: Tally, v: Verdict, w: Verdict)
    ensures CountOf(Bump(c, w), v) == CountOf(c, v) + if v == w then 1 else 0
  {
  }

  /** The counters of a request with explicit identifiers count its positions, repeated ones each time. */
  lemma {:induction false} RequestTallyMeans(t: Table, source: int, ids: seq<nat>, v: Verdict)
    ensures CountOf(SelectRequested(t, source, ids).tally, v) == |Asked(t, source, ids, v)|
  {
    hide VerdictOf, FindRow, Bump, CountOf, Asked;
    if ids == [] {
      NothingAsked(t, source, v);
    } else {
      var n := |ids| - 1;
      RequestTallyMeans(t, source, ids[..n], v);
      var row := FindRow(t, source, ids[n]);
      BumpedBy(RequestTally(t, source, ids[..n]), v, if row.Some? then VerdictOf(row.value) else SkipMissingIdentity);
      AskedNext(t, source, ids, v);
    }
  }

  lemma AskedNext(t: Table, source: int, ids: seq<nat>, v: Verdict)
    requires ids != []
    ensures var n := |ids| - 1;
      |Asked(t, source, ids, v)| == |Asked(t, source, ids[..n], v)| + if GetsVerdict(t, source, ids[n], v) then 1 else 0
  {
    hide GetsVerdict;
    var n := |ids| - 1;
    assert forall p: nat :: p < n ==> ids[..n][p] == ids[p];
    assert Asked(t, source, ids, v) == Asked(t, source, ids[..n], v) + if GetsVerdict(t, source, ids[n], v) then {n} else {};
  }

  lemma NothingAsked(t: Table, source: int, v: Verdict)
    ensures CountOf(NO_VERDICTS, v) == 0 && Asked(t, source, [], v) == {}
  {
  }
}
