/** Which inventory rows an acquisition selects, and in which order. */
module Selection {
  import opened Text
  import opened Inventory
  import opened Sequences

  // ---- the order of the query ----

  /** Two nullable columns, nulls last; `rest` decides between equal values. */
  predicate NullsLast(a: Option<string>, b: Option<string>, rest: bool) {
    if a.None? != b.None? then b.None?
    else if a != b then TextLeq(a.value, b.value)
    else rest
  }

  predicate RowLeq(a: Row, b: Row) {
    NullsLast(a.seen.createdRemoteAt, b.seen.createdRemoteAt,
      NullsLast(a.seen.addedRemoteAt, b.seen.addedRemoteAt,
        if a.firstObservedAt != b.firstObservedAt then a.firstObservedAt < b.firstObservedAt else a.id <= b.id))
  }

  lemma RowLeqTotal(a: Row, b: Row)
    ensures RowLeq(a, b) || RowLeq(b, a)
    ensures RowLeq(a, b) && RowLeq(b, a) ==> a.id == b.id
  {
    ColumnOrder(a.seen.createdRemoteAt, b.seen.createdRemoteAt);
    ColumnOrder(a.seen.addedRemoteAt, b.seen.addedRemoteAt);
  }

  lemma ColumnOrder(a: Option<string>, b: Option<string>)
    ensures a.Some? && b.Some? ==> TextLeq(a.value, b.value) || TextLeq(b.value, a.value)
    ensures a.Some? && b.Some? && TextLeq(a.value, b.value) && TextLeq(b.value, a.value) ==> a == b
  {
    if a.Some? && b.Some? {
      TextLeqTotal(a.value, b.value);
      if TextLeq(a.value, b.value) && TextLeq(b.value, a.value) { TextLeqAntisymmetric(a.value, b.value); }
    }
  }

  lemma ColumnTransitive(a: Option<string>, b: Option<string>, c: Option<string>, ab: bool, bc: bool, ac: bool)
    requires NullsLast(a, b, ab) && NullsLast(b, c, bc)
    requires ab && bc ==> ac
    ensures NullsLast(a, c, ac)
  {
    if a.Some? && b.Some? && c.Some? {
      ColumnOrder(a, b);
      ColumnOrder(b, c);
      if TextLeq(a.value, b.value) && TextLeq(b.value, c.value) { TextLeqTransitive(a.value, b.value, c.value); }
    }
  }

  lemma RowLeqTransitive(a: Row, b: Row, c: Row)
    requires RowLeq(a, b) && RowLeq(b, c)
    ensures RowLeq(a, c)
  {
    var time := (x: Row, y: Row) =>
      if x.firstObservedAt != y.firstObservedAt then x.firstObservedAt < y.firstObservedAt else x.id <= y.id;
    var added := (x: Row, y: Row) => NullsLast(x.seen.addedRemoteAt, y.seen.addedRemoteAt, time(x, y));
    if added(a, b) && added(b, c) {
      ColumnTransitive(a.seen.addedRemoteAt, b.seen.addedRemoteAt, c.seen.addedRemoteAt,
                       time(a, b), time(b, c), time(a, c));
    }
    ColumnTransitive(a.seen.createdRemoteAt, b.seen.createdRemoteAt, c.seen.createdRemoteAt,
                     added(a, b), added(b, c), added(a, c));
  }

  lemma RowOrderIsTotal()
    ensures TotalPreorder(RowLeq)
  {
    forall a, b ensures RowLeq(a, b) || RowLeq(b, a) { RowLeqTotal(a, b); }
    forall a, b, c | RowLeq(a, b) && RowLeq(b, c) ensures RowLeq(a, c) { RowLeqTransitive(a, b, c); }
  }

  predicate Ordered(t: Table) {
    OrderedBy(t, RowLeq)
  }

  function OfSource(t: Table, source: int): Table {
    if t == [] then []
    else (if t[0].sourceId == source then [t[0]] else []) + OfSource(t[1..], source)
  }

  /** The rows of one source, as the selection query returns them. */
  function OrderedRows(t: Table, source: int): Table {
    Sort(OfSource(t, source), RowLeq)
  }

  lemma FirstIsLeast(a: Table, x: Row)
    requires Ordered(a) && x in multiset(a)
    ensures a != [] && (a[0] == x || RowLeq(a[0], x))
  {
    var i :| 0 <= i < |a| && a[i] == x;
    if 0 < i { assert RowLeq(a[0], a[i]); }
  }

  lemma SameIdSameRow(t: Table, x: Row, y: Row)
    requires DistinctIds(t) && x in t && y in t
    ensures x.id == y.id ==> x == y
  {
    var i :| 0 <= i < |t| && t[i] == x;
    var j :| 0 <= j < |t| && t[j] == y;
    assert t[i].id == t[j].id ==> i == j;
  }

  lemma SameFirst(a: Table, b: Table)
    requires Ordered(a) && Ordered(b) && multiset(a) == multiset(b) && DistinctIds(a) && a != []
    ensures b != [] && a[0] == b[0]
  {
    hide RowLeq, Ordered, DistinctIds;
    assert a[0] in multiset(a);
    FirstIsLeast(b, a[0]);
    assert b[0] in multiset(b);
    FirstIsLeast(a, b[0]);
    RowLeqTotal(a[0], b[0]);
    assert b[0] in a;
    SameIdSameRow(a, a[0], b[0]);
  }

  lemma RestAfterFirst(a: Table)
    requires a != []
    ensures multiset(a[1..]) == multiset(a) - multiset{a[0]}
  {
    assert a == [a[0]] + a[1..];
  }

  /** Row identifiers break every tie, so the order by clause determines the result of the query. */
  lemma {:induction false} OrderDeterminesQuery(a: Table, b: Table)
    requires Ordered(a) && Ordered(b) && multiset(a) == multiset(b)
    requires DistinctIds(a)
    ensures a == b
  {
    if a == [] {
      assert |multiset(a)| == |a| && |multiset(b)| == |b|;
    } else {
      SameFirst(a, b);
      RestAfterFirst(a);
      RestAfterFirst(b);
      OrderDeterminesQuery(a[1..], b[1..]);
      assert a == [a[0]] + a[1..] && b == [b[0]] + b[1..];
    }
  }

  /** Values come in text order and before nulls; equal columns leave the decision to the next one. */
  predicate ColumnAscends(a: Option<string>, b: Option<string>) {
    (b.Some? ==> a.Some?) && (a.Some? && b.Some? ==> TextLeq(a.value, b.value))
  }

  /**
   * The query result: the created column ascends with its nulls last, among equal values the added column does, then the
   * first observation, then the identifier.
   */
  lemma QueryOrder(t: Table, source: int, i: nat, j: nat)
    requires DistinctIds(t) && i < j < |OrderedRows(t, source)|
    ensures var (a, b) := (OrderedRows(t, source)[i], OrderedRows(t, source)[j]);
      && ColumnAscends(a.seen.createdRemoteAt, b.seen.createdRemoteAt)
      && (a.seen.createdRemoteAt == b.seen.createdRemoteAt ==>
            && ColumnAscends(a.seen.addedRemoteAt, b.seen.addedRemoteAt)
            && (a.seen.addedRemoteAt == b.seen.addedRemoteAt ==>
                  a.firstObservedAt < b.firstObservedAt || (a.firstObservedAt == b.firstObservedAt && a.id < b.id)))
  {
    hide OrderedRows;
    OrderedRowsMembers(t, source);
    var ordered := OrderedRows(t, source);
    assert RowLeq(ordered[i], ordered[j]) && ordered[i].id != ordered[j].id;
    ColumnOrder(ordered[i].seen.createdRemoteAt, ordered[i].seen.createdRemoteAt);
    ColumnOrder(ordered[i].seen.addedRemoteAt, ordered[i].seen.addedRemoteAt);
  }

  // ---- the verdict on one row ----

  datatype Verdict =
    | Selectable
    | SkipCompleted
    | SkipMissingIdentity
    | SkipKnown
    | SkipAmbiguous
    | SkipUnsupported
    | SkipPendingClassification

  predicate HasRequiredIdentity(r: Row) {
    Strip(r.basis) != "" && Strip(r.identity) != ""
  }

  predicate SelectableKnownState(known: string) {
    Strip(known) == PENDING_CHECK || Strip(known) == UNKNOWN
  }

  function VerdictOf(r: Row): Verdict {
    if r.completed then SkipCompleted
    else if !HasRequiredIdentity(r) then SkipMissingIdentity
    else if !SelectableKnownState(r.seen.known) then SkipKnown
    else if r.seen.identityAmbiguous || Strip(r.seen.eligibility) == AMBIGUOUS then SkipAmbiguous
    else if Strip(r.seen.eligibility) == UNSUPPORTED then SkipUnsupported
    else if Strip(r.seen.eligibility) != ELIGIBLE then SkipPendingClassification
    else Selectable
  }

  /** The rows with verdict `v`, in order. */
  function Keep(t: Table, v: Verdict): (kept: Table)
    ensures |kept| <= |t|
  {
    if t == [] then []
    else
      var r := t[|t| - 1];
      Keep(t[..|t| - 1], v) + (if VerdictOf(r) == v then [r] else [])
  }

  function Min(a: nat, b: nat): nat {
    if a <= b then a else b
  }

  function First(t: Table, limit: nat): Table {
    t[..Min(limit, |t|)]
  }

  datatype Tally = Tally(
    selectable: nat,
    known: nat,
    unsupported: nat,
    ambiguous: nat,
    missingIdentity: nat,
    pendingClassification: nat,
    completed: nat)
  {
    function Total(): nat {
      selectable + known + unsupported + ambiguous + missingIdentity + pendingClassification + completed
    }
  }

  const NO_VERDICTS := Tally(0, 0, 0, 0, 0, 0, 0)

  function Bump(c: Tally, v: Verdict): Tally {
    match v
    case Selectable => c.(selectable := c.selectable + 1)
    case SkipCompleted => c.(completed := c.completed + 1)
    case SkipMissingIdentity => c.(missingIdentity := c.missingIdentity + 1)
    case SkipKnown => c.(known := c.known + 1)
    case SkipAmbiguous => c.(ambiguous := c.ambiguous + 1)
    case SkipUnsupported => c.(unsupported := c.unsupported + 1)
    case SkipPendingClassification => c.(pendingClassification := c.pendingClassification + 1)
  }

  function TallyOf(t: Table): Tally {
    if t == [] then NO_VERDICTS else Bump(TallyOf(t[..|t| - 1]), VerdictOf(t[|t| - 1]))
  }

  function CountOf(c: Tally, v: Verdict): nat {
    match v
    case Selectable => c.selectable
    case SkipCompleted => c.completed
    case SkipMissingIdentity => c.missingIdentity
    case SkipKnown => c.known
    case SkipAmbiguous => c.ambiguous
    case SkipUnsupported => c.unsupported
    case SkipPendingClassification => c.pendingClassification
  }

  /** Every row considered is counted exactly once. */
  lemma {:induction false} TallyIsPartition(t: Table)
    ensures TallyOf(t).Total() == |t|
  {
    hide VerdictOf;
    if t != [] { TallyIsPartition(t[..|t| - 1]); }
  }

  /** Each counter holds the number of rows with its verdict. */
  lemma {:induction false} TallyCounts(t: Table, v: Verdict)
    ensures CountOf(TallyOf(t), v) == |Keep(t, v)|
  {
    hide VerdictOf;
    if t != [] { TallyCounts(t[..|t| - 1], v); }
  }

  lemma {:induction false} KeepDistributes(a: Table, b: Table, v: Verdict)
    ensures Keep(a + b, v) == Keep(a, v) + Keep(b, v)
  {
    if b == [] {
      assert a + b == a;
    } else {
      KeepDistributes(a, b[..|b| - 1], v);
      assert (a + b)[..|a + b| - 1] == a + b[..|b| - 1];
    }
  }

  lemma {:induction false} KeepMembers(t: Table, v: Verdict)
    ensures forall r :: r in Keep(t, v) <==> r in t && VerdictOf(r) == v
  {
    if t != [] {
      KeepMembers(t[..|t| - 1], v);
      assert t == t[..|t| - 1] + [t[|t| - 1]];
    }
  }

  lemma {:induction false} KeepDistinct(t: Table, v: Verdict)
    requires DistinctIds(t)
    ensures DistinctIds(Keep(t, v))
  {
    if t != [] {
      var u := t[..|t| - 1];
      KeepDistinct(u, v);
      KeepMembers(u, v);
      forall i | 0 <= i < |Keep(u, v)| ensures Keep(u, v)[i].id != t[|t| - 1].id {
        assert Keep(u, v)[i] in u;
      }
    }
  }

  // ---- selection ----

  /** A selection: the rows taken and the verdicts of every row considered. */
  datatype Selected = Selected(rows: Table, tally: Tally)

  /** The first `limit` selectable rows of the query. */
  function SelectRows(t: Table, source: int, limit: nat): Selected {
    var ordered := OrderedRows(t, source);
    Selected(First(Keep(ordered, Selectable), limit), TallyOf(ordered))
  }

  function FindRow(t: Table, source: int, id: nat): Option<Row> {
    if t == [] then None
    else if t[0].sourceId == source && t[0].id == id then Some(t[0])
    else FindRow(t[1..], source, id)
  }

  /** The rows found for the requested identifiers, in request order. */
  function RequestedRows(t: Table, source: int, ids: seq<nat>): (found: Table)
    ensures |found| <= |ids|
  {
    if ids == [] then []
    else
      var n := |ids| - 1;
      var row := FindRow(t, source, ids[n]);
      RequestedRows(t, source, ids[..n]) + (if row.Some? then [row.value] else [])
  }

  /** The verdicts on the requested identifiers; an identifier without a row counts as missing identity. */
  function RequestTally(t: Table, source: int, ids: seq<nat>): Tally {
    if ids == [] then NO_VERDICTS
    else
      var n := |ids| - 1;
      var row := FindRow(t, source, ids[n]);
      Bump(RequestTally(t, source, ids[..n]), if row.Some? then VerdictOf(row.value) else SkipMissingIdentity)
  }

  /** Explicit identifiers: every selectable row is taken. */
  function SelectRequested(t: Table, source: int, ids: seq<nat>): Selected {
    Selected(Keep(RequestedRows(t, source, ids), Selectable), RequestTally(t, source, ids))
  }

  lemma {:induction false} FindRowFinds(t: Table, source: int, id: nat)
    requires DistinctIds(t)
    ensures FindRow(t, source, id).Some? ==> FindRow(t, source, id).value in t
    ensures forall r :: r in t && r.sourceId == source && r.id == id ==> FindRow(t, source, id) == Some(r)
    ensures forall r :: FindRow(t, source, id) == Some(r) ==> r.sourceId == source && r.id == id
  {
    if t != [] {
      assert t == [t[0]] + t[1..];
      assert forall i :: 0 < i < |t| ==> t[i].id != t[0].id;
      FindRowFinds(t[1..], source, id);
    }
  }

  lemma {:induction false} RequestedRowsExist(t: Table, source: int, ids: seq<nat>)
    requires DistinctIds(t)
    ensures forall r :: r in RequestedRows(t, source, ids) ==> r in t && r.sourceId == source && r.id in ids
  {
    if ids != [] {
      RequestedRowsExist(t, source, ids[..|ids| - 1]);
      FindRowFinds(t, source, ids[|ids| - 1]);
    }
  }

  lemma {:induction false} OfSourceMembers(t: Table, source: int)
    ensures forall r :: r in OfSource(t, source) <==> r in t && r.sourceId == source
    ensures DistinctIds(t) ==> DistinctIds(OfSource(t, source))
  {
    if t != [] {
      assert t == [t[0]] + t[1..];
      OfSourceMembers(t[1..], source);
      if DistinctIds(t) {
        var rest := OfSource(t[1..], source);
        forall i | 0 <= i < |rest| ensures rest[i].id != t[0].id {
          assert rest[i] in t[1..];
        }
      }
    }
  }

  lemma DistinctInMultiset(a: Table, b: Table)
    requires DistinctIds(a) && multiset(a) == multiset(b)
    ensures DistinctIds(b)
  {
    RearrangedDifferent(a, b);
    forall i, j | 0 <= i < j < |b| ensures b[i].id != b[j].id {
      assert b[i] in multiset(a) && b[j] in multiset(a);
      SameIdSameRow(a, b[i], b[j]);
    }
  }

  lemma OrderedRowsStored(t: Table, source: int)
    ensures forall r :: r in OrderedRows(t, source) ==> r in t
  {
    OfSourceMembers(t, source);
    SortSorts(OfSource(t, source), RowLeq);
  }

  lemma OrderedRowsMembers(t: Table, source: int)
    requires DistinctIds(t)
    ensures forall r :: r in OrderedRows(t, source) <==> r in t && r.sourceId == source
    ensures DistinctIds(OrderedRows(t, source)) && Ordered(OrderedRows(t, source))
  {
    OfSourceMembers(t, source);
    RowOrderIsTotal();
    SortSorts(OfSource(t, source), RowLeq);
    DistinctInMultiset(OfSource(t, source), OrderedRows(t, source));
  }

  /** A larger limit extends the selection of a smaller one. */
  lemma SelectionIsPrefix(t: Table, source: int, small: nat, large: nat)
    requires small <= large
    ensures SelectRows(t, source, small).rows <= SelectRows(t, source, large).rows
    ensures |SelectRows(t, source, small).rows| == Min(small, SelectRows(t, source, large).tally.selectable)
    ensures SelectRows(t, source, small).tally == SelectRows(t, source, large).tally
  {
    TallyCounts(OrderedRows(t, source), Selectable);
  }

  /** Whether a row is selectable does not depend on the order of the checks. */
  lemma SelectableIff(r: Row)
    ensures VerdictOf(r) == Selectable <==>
      && !r.completed
      && HasRequiredIdentity(r)
      && SelectableKnownState(r.seen.known)
      && !r.seen.identityAmbiguous
      && Strip(r.seen.eligibility) == ELIGIBLE
  {
  }

  lemma FirstTakesLeast(kept: Table, limit: nat)
    requires Ordered(kept) && DistinctIds(kept)
    ensures var rows := First(kept, limit);
      && Ordered(rows) && DistinctIds(rows)
      && (forall r :: r in rows ==> r in kept)
      && (forall q, r :: q in kept && q !in rows && r in rows ==> RowLeq(r, q))
      && (|rows| < limit ==> rows == kept)
  {
    var rows := First(kept, limit);
    assert kept == rows + kept[|rows|..];
    forall q, r | q in kept && q !in rows && r in rows ensures RowLeq(r, q) {
      var i :| 0 <= i < |rows| && rows[i] == r;
      var j :| 0 <= j < |kept| && kept[j] == q;
      assert i < j;
    }
  }

  lemma SelectableRowsOfSource(t: Table, source: int)
    requires DistinctIds(t)
    ensures var kept := Keep(OrderedRows(t, source), Selectable);
      && Ordered(kept) && DistinctIds(kept)
      && (forall r :: r in kept <==> r in t && r.sourceId == source && VerdictOf(r) == Selectable)
  {
    OrderedRowsMembers(t, source);
    KeepMembers(OrderedRows(t, source), Selectable);
    KeepDistinct(OrderedRows(t, source), Selectable);
    KeepOrdered(OrderedRows(t, source), Selectable);
  }

  /**
   * The selected rows are selectable rows of the source, taken in query order, and the selectable rows left out all
   * come after them; the selectable count and the six skip counts add up to the rows of the source.
   */
  lemma SelectionIsBestPrefix(t: Table, source: int, limit: nat)
    requires DistinctIds(t)
    ensures var s := SelectRows(t, source, limit);
      && s.tally.Total() == |OfSource(t, source)|
      && Ordered(s.rows) && DistinctIds(s.rows)
      && (forall r :: r in s.rows ==> r in t && r.sourceId == source && VerdictOf(r) == Selectable)
      && (forall q, r :: q in t && q.sourceId == source && VerdictOf(q) == Selectable && q !in s.rows && r in s.rows
            ==> RowLeq(r, q))
      && (|s.rows| < limit ==> forall q :: q in t && q.sourceId == source && VerdictOf(q) == Selectable ==> q in s.rows)
  {
    SortSorts(OfSource(t, source), RowLeq);
    TallyIsPartition(OrderedRows(t, source));
    SelectableRowsOfSource(t, source);
    FirstTakesLeast(Keep(OrderedRows(t, source), Selectable), limit);
  }

  lemma {:induction false} KeepOrdered(t: Table, v: Verdict)
    requires Ordered(t)
    ensures Ordered(Keep(t, v))
  {
    if t != [] {
      var u := t[..|t| - 1];
      KeepOrdered(u, v);
      KeepMembers(u, v);
      forall i | 0 <= i < |Keep(u, v)| ensures RowLeq(Keep(u, v)[i], t[|t| - 1]) {
        assert Keep(u, v)[i] in u;
      }
    }
  }

  /** The positions of the request whose rows are selectable, in increasing order, and the rows found there. */
  ghost predicate Picks(t: Table, source: int, ids: seq<nat>, rows: Table, at: seq<nat>) {
    && |at| == |rows|
    && (forall i, j :: 0 <= i < j < |at| ==> at[i] < at[j])
    && (forall k :: 0 <= k < |at| ==> at[k] < |ids| && FindRow(t, source, ids[at[k]]) == Some(rows[k]))
    && (forall p: nat :: p < |ids| ==> (p in at <==> NamesSelectable(t, source, ids[p])))
  }

  predicate NamesSelectable(t: Table, source: int, id: nat) {
    FindRow(t, source, id).Some? && VerdictOf(FindRow(t, source, id).value) == Selectable
  }

  lemma PickMore(t: Table, source: int, ids: seq<nat>, rows: Table, at: seq<nat>)
    requires ids != [] && Picks(t, source, ids[..|ids| - 1], rows, at) && NamesSelectable(t, source, ids[|ids| - 1])
    ensures Picks(t, source, ids, rows + [FindRow(t, source, ids[|ids| - 1]).value], at + [|ids| - 1])
  {
    hide VerdictOf, FindRow;
    var n := |ids| - 1;
    assert forall p: nat :: p < n ==> ids[..n][p] == ids[p];
    assert forall p :: p in at + [n] <==> p in at || p == n;
  }

  lemma PickSame(t: Table, source: int, ids: seq<nat>, rows: Table, at: seq<nat>)
    requires ids != [] && Picks(t, source, ids[..|ids| - 1], rows, at) && !NamesSelectable(t, source, ids[|ids| - 1])
    ensures Picks(t, source, ids, rows, at)
  {
    hide VerdictOf, FindRow;
    var n := |ids| - 1;
    assert forall p: nat :: p < n ==> ids[..n][p] == ids[p];
  }

  lemma {:induction false} RequestOrder(t: Table, source: int, ids: seq<nat>) returns (at: seq<nat>)
    ensures Picks(t, source, ids, Keep(RequestedRows(t, source, ids), Selectable), at)
  {
    hide VerdictOf, FindRow, Picks;
    if ids == [] {
      at := [];
      NothingPicked(t, source);
    } else {
      var n := |ids| - 1;
      at := RequestOrder(t, source, ids[..n]);
      var row := FindRow(t, source, ids[n]);
      var before := RequestedRows(t, source, ids[..n]);
      if row.Some? { KeepNext(before, row.value); } else { assert before + [] == before; }
      if NamesSelectable(t, source, ids[n]) {
        PickMore(t, source, ids, Keep(before, Selectable), at);
        at := at + [n];
      } else {
        assert Keep(before, Selectable) + [] == Keep(before, Selectable);
        PickSame(t, source, ids, Keep(before, Selectable), at);
      }
    }
  }

  lemma NothingPicked(t: Table, source: int)
    ensures Picks(t, source, [], Keep(RequestedRows(t, source, []), Selectable), [])
  {
    NothingToKeep();
  }

  /**
   * Explicit identifiers are never truncated: the selection is every selectable row found, in request order, once for each
   * position of the request that names it, and the counts add up to the identifiers requested.
   */
  lemma RequestedSelectionIsComplete(t: Table, source: int, ids: seq<nat>)
    requires DistinctIds(t)
    ensures var s := SelectRequested(t, source, ids);
      && s.tally.Total() == |ids|
      && |s.rows| == s.tally.selectable
      && (forall r :: r in s.rows <==>
            r in t && r.sourceId == source && r.id in ids && VerdictOf(r) == Selectable)
      && exists at :: Picks(t, source, ids, s.rows, at)
  {
    hide Picks;
    var at := RequestOrder(t, source, ids);
    RequestTallyIsPartition(t, source, ids);
    KeepMembers(RequestedRows(t, source, ids), Selectable);
    RequestedRowsExist(t, source, ids);
    RequestedRowsFound(t, source, ids);
  }

  lemma {:induction false} RequestTallyIsPartition(t: Table, source: int, ids: seq<nat>)
    ensures RequestTally(t, source, ids).Total() == |ids|
    ensures RequestTally(t, source, ids).selectable == |Keep(RequestedRows(t, source, ids), Selectable)|
  {
    hide VerdictOf, FindRow, Bump, Keep;
    if ids != [] {
      var n := |ids| - 1;
      RequestTallyIsPartition(t, source, ids[..n]);
      var before := RequestedRows(t, source, ids[..n]);
      var row := FindRow(t, source, ids[n]);
      BumpCounts(RequestTally(t, source, ids[..n]), if row.Some? then VerdictOf(row.value) else SkipMissingIdentity);
      if row.Some? { KeepNext(before, row.value); }
      else { assert before + [] == before; }
    } else {
      assert Keep([], Selectable) == [] by { NothingToKeep(); }
    }
  }

  lemma BumpCounts(c: Tally, v: Verdict)
    ensures Bump(c, v).Total() == c.Total() + 1
    ensures Bump(c, v).selectable == c.selectable + if v == Selectable then 1 else 0
  {
  }

  lemma NothingToKeep()
    ensures Keep([], Selectable) == []
  {
  }

  lemma KeepNext(t: Table, r: Row)
    ensures forall v :: Keep(t + [r], v) == Keep(t, v) + if VerdictOf(r) == v then [r] else []
    ensures TallyOf(t + [r]) == Bump(TallyOf(t), VerdictOf(r))
  {
    hide VerdictOf, Bump;
    assert (t + [r])[..|t|] == t;
  }

  lemma {:induction false} RequestedRowsFound(t: Table, source: int, ids: seq<nat>)
    requires DistinctIds(t)
    ensures forall r :: r in t && r.sourceId == source && r.id in ids ==> r in RequestedRows(t, source, ids)
  {
    if ids != [] {
      RequestedRowsFound(t, source, ids[..|ids| - 1]);
      FindRowFinds(t, source, ids[|ids| - 1]);
    }
  }
}
