/** The selector as the preview service runs it: counters and a row list filled in one pass over the query. */
module SelectionService {
  import opened Text
  import opened Inventory
  import opened Session
  import opened Selection

  class SelectionAccumulator {
    var selectedRows: seq<InventoryRow>
    var selectableTotal: nat
    var skippedKnown: nat
    var skippedUnsupported: nat
    var skippedAmbiguous: nat
    var skippedMissingIdentity: nat
    var skippedPendingClassification: nat
    var skippedCompleted: nat

    constructor ()
      ensures selectedRows == [] && Counts() == NO_VERDICTS
    {
      selectedRows := [];
      selectableTotal, skippedKnown, skippedUnsupported, skippedAmbiguous := 0, 0, 0, 0;
      skippedMissingIdentity, skippedPendingClassification, skippedCompleted := 0, 0, 0;
    }

    function Counts(): Tally
      reads this
    {
      Tally(selectableTotal, skippedKnown, skippedUnsupported, skippedAmbiguous, skippedMissingIdentity,
            skippedPendingClassification, skippedCompleted)
    }

    method Consider(row: InventoryRow, acquireLimit: nat)
      modifies this
      ensures Counts() == Bump(old(Counts()), VerdictOf(row.Value()))
      ensures selectedRows == old(selectedRows) +
        if VerdictOf(row.Value()) == Selectable && |old(selectedRows)| < acquireLimit then [row] else []
    {
      hide Strip;
      var eligibility := Strip(row.seen.eligibility);
      var known := Strip(row.seen.known);
      if row.completed {
        skippedCompleted := skippedCompleted + 1;
        return;
      }
      if !HasRequiredIdentity(row.Value()) {
        skippedMissingIdentity := skippedMissingIdentity + 1;
        return;
      }
      if known != PENDING_CHECK && known != UNKNOWN {
        skippedKnown := skippedKnown + 1;
        return;
      }
      if row.seen.identityAmbiguous || eligibility == AMBIGUOUS {
        skippedAmbiguous := skippedAmbiguous + 1;
        return;
      }
      if eligibility == UNSUPPORTED {
        skippedUnsupported := skippedUnsupported + 1;
        return;
      }
      if eligibility != ELIGIBLE {
        skippedPendingClassification := skippedPendingClassification + 1;
        return;
      }
      selectableTotal := selectableTotal + 1;
      if |selectedRows| < acquireLimit {
        selectedRows := selectedRows + [row];
      }
    }
  }

  /** The accumulator has considered exactly the rows `t`. */
  ghost predicate Considered(acc: SelectionAccumulator, t: Table, limit: nat)
    reads acc, acc.selectedRows
  {
    acc.Counts() == TallyOf(t) && Values(acc.selectedRows) == First(Keep(t, Selectable), limit)
  }

  method ConsiderNext(acc: SelectionAccumulator, row: InventoryRow, acquireLimit: nat, ghost t: Table)
    requires Considered(acc, t, acquireLimit)
    modifies acc
    ensures Considered(acc, t + [row.Value()], acquireLimit)
    ensures acc.selectedRows == old(acc.selectedRows) || acc.selectedRows == old(acc.selectedRows) + [row]
  {
    hide VerdictOf, Bump, InventoryRow.Value;
    KeepNext(t, row.Value());
    acc.Consider(row, acquireLimit);
  }

  /** Feed found rows to the accumulator in order. */
  method ConsiderAll(acc: SelectionAccumulator, rows: seq<InventoryRow>, acquireLimit: nat)
    requires acc.selectedRows == [] && acc.Counts() == NO_VERDICTS
    modifies acc
    ensures Considered(acc, Values(rows), acquireLimit)
    ensures forall o :: o in acc.selectedRows ==> o in rows
  {
    hide VerdictOf, Bump, InventoryRow.Value;
    ghost var t := Values(rows);
    for k := 0 to |rows|
      invariant Considered(acc, t[..k], acquireLimit)
      invariant forall o :: o in acc.selectedRows ==> o in rows
    {
      assert t[..k + 1] == t[..k] + [rows[k].Value()];
      ConsiderNext(acc, rows[k], acquireLimit, t[..k]);
    }
    assert t[..|rows|] == t;
  }

  method SelectInventoryRows(session: InventorySession, source: int, acquireLimit: nat)
    returns (acc: SelectionAccumulator)
    requires session.Valid() && session.Clean()
    ensures fresh(acc)
    ensures Selected(Values(acc.selectedRows), acc.Counts()) == SelectRows(session.stored, source, acquireLimit)
    ensures forall o :: o in acc.selectedRows ==> o in session.objects
  {
    hide VerdictOf, Bump, InventoryRow.Value;
    var found := OrderedRows(session.stored, source);
    OrderedRowsStored(session.stored, source);
    var rows := session.Resolve(found);
    acc := new SelectionAccumulator();
    ConsiderAll(acc, rows, acquireLimit);
  }

  /** The accumulator has looked up and considered exactly the requested identifiers `ids`. */
  ghost predicate ConsideredIds(acc: SelectionAccumulator, stored: Table, source: int, ids: seq<nat>)
    reads acc, acc.selectedRows
  {
    Selected(Values(acc.selectedRows), acc.Counts()) == SelectRequested(stored, source, ids)
  }

  method ConsiderRequested(acc: SelectionAccumulator, session: InventorySession, source: int, ids: seq<nat>, k: nat)
    requires session.Valid() && session.Clean() && k < |ids|
    requires ConsideredIds(acc, session.stored, source, ids[..k])
    modifies acc
    ensures ConsideredIds(acc, session.stored, source, ids[..k + 1])
    ensures forall o :: o in acc.selectedRows ==> o in old(acc.selectedRows) || o in session.objects
  {
    hide VerdictOf, InventoryRow.Value, InventorySession.Valid, InventorySession.Clean;
    session.StoredIdsDistinct();
    ghost var found := RequestedRows(session.stored, source, ids[..k]);
    assert ids[..k + 1][..k] == ids[..k];
    var row := FindRow(session.stored, source, ids[k]);
    if row.None? {
      acc.skippedMissingIdentity := acc.skippedMissingIdentity + 1;
      assert RequestedRows(session.stored, source, ids[..k + 1]) == found;
    } else {
      FindRowFinds(session.stored, source, ids[k]);
      var objects := session.Resolve([row.value]);
      assert objects[0].Value() == Values(objects)[0] == row.value;
      KeepNext(found, row.value);
      acc.Consider(objects[0], |ids|);
    }
  }

  method SelectInventoryRowsByIds(session: InventorySession, source: int, inventoryIds: seq<nat>)
    returns (acc: SelectionAccumulator)
    requires session.Valid() && session.Clean()
    ensures fresh(acc)
    ensures Selected(Values(acc.selectedRows), acc.Counts()) == SelectRequested(session.stored, source, inventoryIds)
    ensures forall o :: o in acc.selectedRows ==> o in session.objects
  {
    hide VerdictOf, Bump, InventoryRow.Value, InventorySession.Valid, InventorySession.Clean;
    acc := new SelectionAccumulator();
    for k := 0 to |inventoryIds|
      invariant ConsideredIds(acc, session.stored, source, inventoryIds[..k])
      invariant forall o :: o in acc.selectedRows ==> o in session.objects
    {
      ConsiderRequested(acc, session, source, inventoryIds, k);
    }
    assert inventoryIds[..|inventoryIds|] == inventoryIds;
  }
}
