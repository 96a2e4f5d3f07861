/** The selectable rows of a source over repeated runs: what is left after a run, how a backlog drains, how it starves. */
module Backlog {
  import opened Inventory
  import opened Sequences
  import opened Selection
  import opened Acquisition
  import opened AcquisitionTheorems

  // ---- the order of the query depends only on scan columns ----

  ghost predicate Similar(a: Table, b: Table) {
    |a| == |b| && forall i :: 0 <= i < |a| ==> SameScan(a[i], b[i])
  }

  lemma SameOrder(x: Row, y: Row, u: Row, v: Row)
    requires SameScan(x, u) && SameScan(y, v)
    ensures RowLeq(x, y) == RowLeq(u, v)
  {
  }

  lemma {:induction false} InsertSimilar(x: Row, a: Table, y: Row, b: Table)
    requires SameScan(x, y) && Similar(a, b)
    ensures Similar(Insert(x, a, RowLeq), Insert(y, b, RowLeq))
  {
    hide SameScan, RowLeq;
    if a != [] {
      SameOrder(x, a[0], y, b[0]);
      InsertSimilar(x, a[1..], y, b[1..]);
    }
  }

  lemma {:induction false} SortSimilar(a: Table, b: Table)
    requires Similar(a, b)
    ensures Similar(Sort(a, RowLeq), Sort(b, RowLeq))
  {
    hide SameScan, RowLeq;
    if a != [] {
      SortSimilar(a[1..], b[1..]);
      InsertSimilar(a[0], Sort(a[1..], RowLeq), b[0], Sort(b[1..], RowLeq));
    }
  }

  lemma {:induction false} OfSourceSimilar(a: Table, b: Table, source: int)
    requires Similar(a, b)
    ensures Similar(OfSource(a, source), OfSource(b, source))
  {
    if a != [] { OfSourceSimilar(a[1..], b[1..], source); }
  }

  lemma OrderedSimilar(a: Table, b: Table, source: int)
    requires Similar(a, b)
    ensures Similar(OrderedRows(a, source), OrderedRows(b, source))
  {
    OfSourceSimilar(a, b, source);
    SortSimilar(OfSource(a, source), OfSource(b, source));
  }

  // ---- the backlog ----

  /** The identifiers of the selectable rows of a source, in selection order. */
  function SelectableIds(t: Table, source: int): seq<nat> {
    RowIds(Keep(OrderedRows(t, source), Selectable))
  }

  function Without(ids: seq<nat>, gone: set<nat>): seq<nat> {
    if ids == [] then []
    else
      var n := |ids| - 1;
      Without(ids[..n], gone) + (if ids[n] in gone then [] else [ids[n]])
  }

  function NewlyCompleted(t: Table, u: Table): set<nat>
    requires |t| == |u|
  {
    set i | 0 <= i < |t| && u[i].completed && !t[i].completed :: t[i].id
  }

  /** Only run columns differ, and no completed row is open again. */
  ghost predicate Advances(t: Table, u: Table) {
    Similar(t, u) && forall i :: 0 <= i < |t| ==> (t[i].completed ==> u[i].completed)
  }

  lemma OpenVerdict(x: Row, y: Row)
    requires SameScan(x, y) && (x.completed ==> y.completed)
    ensures VerdictOf(y) == Selectable <==> VerdictOf(x) == Selectable && !y.completed
    ensures VerdictOf(x) == Selectable ==> !x.completed
  {
  }

  lemma KeepIds(a: Table, r: Row)
    ensures RowIds(Keep(a + [r], Selectable)) ==
      if VerdictOf(r) == Selectable then RowIds(Keep(a, Selectable)) + [r.id] else RowIds(Keep(a, Selectable))
  {
    hide VerdictOf;
    assert (a + [r])[..|a|] == a;
  }

  lemma WithoutNext(ids: seq<nat>, id: nat, gone: set<nat>)
    ensures Without(ids + [id], gone) == if id in gone then Without(ids, gone) else Without(ids, gone) + [id]
  {
    assert (ids + [id])[..|ids|] == ids;
  }

  lemma {:induction false} KeepOpen(a: Table, b: Table, gone: set<nat>)
    requires Advances(a, b)
    requires forall k :: 0 <= k < |a| ==> (a[k].id in gone <==> b[k].completed && !a[k].completed)
    ensures RowIds(Keep(b, Selectable)) == Without(RowIds(Keep(a, Selectable)), gone)
  {
    hide VerdictOf, Keep, RowIds;
    if a == [] {
      NothingKept();
    } else {
      var n := |a| - 1;
      KeepOpen(a[..n], b[..n], gone);
      OpenVerdict(a[n], b[n]);
      KeepIds(a[..n], a[n]);
      KeepIds(b[..n], b[n]);
      assert a == a[..n] + [a[n]] && b == b[..n] + [b[n]];
      WithoutNext(RowIds(Keep(a[..n], Selectable)), a[n].id, gone);
    }
  }

  lemma NothingKept()
    ensures RowIds(Keep([], Selectable)) == []
  {
  }

  lemma OrderedAdvances(t: Table, u: Table, source: int)
    requires DistinctIds(t) && Advances(t, u)
    ensures var a := OrderedRows(t, source);
      var b := OrderedRows(u, source);
      && Advances(a, b)
      && forall k :: 0 <= k < |a| ==> (a[k].id in NewlyCompleted(t, u) <==> b[k].completed && !a[k].completed)
  {
    hide RowLeq, OrderedRows;
    OrderedSimilar(t, u, source);
    OrderedRowsStored(t, source);
    OrderedRowsStored(u, source);
    var a := OrderedRows(t, source);
    var b := OrderedRows(u, source);
    forall k | 0 <= k < |a|
      ensures exists i :: 0 <= i < |t| && t[i] == a[k] && u[i] == b[k]
    {
      assert a[k] in t && b[k] in u;
      var i :| 0 <= i < |t| && t[i] == a[k];
      var j :| 0 <= j < |u| && u[j] == b[k];
      assert t[i].id == t[j].id;
      assert i == j;
    }
  }

  /**
   * Whatever a run does, the rows still selectable are the earlier ones without those newly completed, in unchanged
   * order: no open row is lost, gained or moved.
   */
  lemma BacklogShrinks(t: Table, u: Table, source: int)
    requires DistinctIds(t) && Advances(t, u)
    ensures SelectableIds(u, source) == Without(SelectableIds(t, source), NewlyCompleted(t, u))
  {
    hide OrderedRows, Keep, VerdictOf, Without, RowIds;
    OrderedAdvances(t, u, source);
    KeepOpen(OrderedRows(t, source), OrderedRows(u, source), NewlyCompleted(t, u));
  }

  lemma EvolvedAdvances(t: Table, u: Table, written: seq<nat>)
    requires Evolved(t, u, written, Evidenced)
    requires forall i :: 0 <= i < |t| && t[i].id in written ==> IsOpen(t[i])
    ensures Advances(t, u)
  {
  }

  /** Every state an acquisition commits advances the table it started from. */
  lemma AcquireAdvances(t: Table, q: Request, s: Services)
    requires DistinctIds(t)
    ensures forall c :: c in Acquire(t, q, s).commits ==> Advances(t, c)
    ensures Advances(t, Acquire(t, q, s).Final(t))
  {
    hide Acquire, WrittenIds, Evolved, Advances;
    CommitsTouchOnlyOpenSelectedRows(t, q, s);
    var commits := Acquire(t, q, s).commits;
    forall k | 0 <= k < |commits| ensures Advances(t, commits[k]) { EvolvedAdvances(t, commits[k], WrittenIds(t, q)); }
    AdvancesItself(t);
  }

  lemma AdvancesItself(t: Table)
    ensures Advances(t, t)
  {
  }

  /** A selection without explicit identifiers is the front of the backlog. */
  lemma SelectionIsFront(t: Table, source: int, limit: nat)
    ensures RowIds(SelectRows(t, source, limit).rows) ==
      SelectableIds(t, source)[..Min(limit, |SelectableIds(t, source)|)]
  {
    hide OrderedRows, Keep;
  }
}
