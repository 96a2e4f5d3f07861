/** What a preview tells a reader: its stop reason and its items, in terms of the rows and the listing. */
module PreviewMeaning {
  import opened Text
  import opened Inventory
  import opened Selection
  import opened Acquisition
  import opened AcquisitionTheorems
  import opened Preview

  /** The stop reason of a preview that reached the listing. */
  ghost predicate StopFits(p: PreviewResult, selected: Table, items: seq<Item>, limit: int) {
    && (p.stop == NoEligibleInventoryRows <==> selected == [])
    && (p.stop == ListingRequeryEmpty <==> selected != [] && items == [])
    && (p.stop == AllSelectedRowsStale <==>
          selected != [] && items != [] && (forall r :: r in selected ==> !FateOf(r, items).Safe?)
          && exists r :: r in selected && FateOf(r, items).Stale?)
    && (p.stop == LimitReached <==>
          (exists r :: r in selected && FateOf(r, items).Safe?) && p.tally.selectable > limit)
  }

  lemma {:induction false} MatchedRows(selected: Table, items: seq<Item>)
    ensures var m := MatchRows(selected, items);
      && (m.rows != [] <==> exists r :: r in selected && FateOf(r, items).Safe?)
      && (m.stale > 0 <==> exists r :: r in selected && FateOf(r, items).Stale?)
  {
    hide FateOf;
    if selected != [] {
      var n := |selected| - 1;
      MatchedRows(selected[..n], items);
      assert selected == selected[..n] + [selected[n]];
      assert selected[n] in selected;
    }
  }

  lemma NothingListed(selected: Table)
    ensures forall r :: r in selected ==> FateOf(r, []).Stale?
  {
    forall r | r in selected ensures FateOf(r, []).Stale? {
      assert LastMatch([], Strip(r.identity)) == None;
    }
  }

  /**
   * The stop reason of a preview: nothing selected; nothing listed; every selected row gone stale or unsafe, at least one
   * stale; more selectable rows than the limit, at least one of the selected safe; and otherwise ready for review.
   */
  lemma StopMeans(t: Table, q: Request, sourceError: Option<string>, items: seq<Item>, includeItems: bool)
    requires LimitError(q).None? && sourceError.None?
    ensures var p := PreviewOf(t, q, sourceError, ListingDone(items), includeItems);
      p.Previewed? && StopFits(p.result, SelectRows(t, q.source, q.acquireLimit).rows, items, q.acquireLimit)
  {
    hide SelectRows, FateOf, MatchRows, ResourceCount, PreviewItems;
    var selected := SelectRows(t, q.source, q.acquireLimit).rows;
    MatchedRows(selected, items);
    if items == [] { NothingListed(selected); }
  }

  /** The entry of a safe row shows its identifier, how many resources its listing item has, and two of its columns. */
  predicate EntryShows(e: PreviewItem, r: Row, item: Item) {
    && e.inventoryId == r.id && e.resources == |item.resources|
    && e.isLivePhoto == r.seen.isLivePhoto && e.primaryPath == r.seen.primaryPath
  }

  /** The items of a preview: one for each safe row, in the order of selection, about its last listing entry. */
  lemma {:induction false} ItemsMean(selected: Table, items: seq<Item>, k: nat)
    requires k < |MatchRows(selected, items).rows|
    ensures |PreviewItems(selected, items)| == |MatchRows(selected, items).rows| == |MatchRows(selected, items).items|
    ensures exists r ::
      && r in selected && r.id == MatchRows(selected, items).rows[k]
      && EntryShows(PreviewItems(selected, items)[k], r, MatchRows(selected, items).items[k])
  {
    hide FateOf;
    var n := |selected| - 1;
    var before := selected[..n];
    assert selected == before + [selected[n]];
    MatchingConserves(before, items);
    ItemsAsMany(before, items);
    if k < |MatchRows(before, items).rows| { ItemsMean(before, items, k); }
  }

  lemma {:induction false} ItemsAsMany(selected: Table, items: seq<Item>)
    ensures |PreviewItems(selected, items)| == |MatchRows(selected, items).rows|
  {
    hide FateOf;
    if selected != [] { ItemsAsMany(selected[..|selected| - 1], items); }
  }
}
