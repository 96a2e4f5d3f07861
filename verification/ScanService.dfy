/** The scan as the inventory service runs it: a loop of upserts on mapped objects, one flush, one commit. */
module ScanService {
  import opened Text
  import opened Inventory
  import opened Session
  import opened Scan
  import opened ScanTheorems

  /** The session holds the state of the scan loop. */
  ghost predicate Holds(s: InventorySession, st: Scanning)
    reads s, s.objects, s.pending
  {
    s.Valid() && Values(s.objects) == st.rows && Values(s.pending) == st.added
  }

  /** Live photo by its grouping or by one of its resources. */
  method IsLivePhoto(item: Item, casefold: string -> string) returns (live: bool)
    ensures live == LivePhoto(item, casefold)
  {
    if Contains(casefold(item.grouping), "live_photo") { return true; }
    for k := 0 to |item.resources|
      invariant forall j :: 0 <= j < k ==> item.resources[j].resourceId != "live_photo_original"
    {
      if item.resources[k].resourceId == "live_photo_original" { return true; }
    }
    live := false;
  }

  method FindPrimaryResource(rs: seq<Resource>) returns (primary: Option<Resource>)
    ensures primary == PrimaryResource(rs)
  {
    for k := 0 to |rs|
      invariant FirstNamed(rs, "primary_original") == FirstNamed(rs[k..], "primary_original")
    {
      if rs[k].resourceId == "primary_original" { return Some(rs[k]); }
    }
    primary := if rs != [] then Some(rs[0]) else None;
  }

  method ObserveItem(item: Item, position: nat, c: ScanCall) returns (seen: Observation)
    ensures seen == Observe(item, position, c)
  {
    var primary := FindPrimaryResource(item.resources);
    var live := IsLivePhoto(item, c.casefold);
    seen := Observation(position, c.now, c.now, Some(item.grouping), Some(item.createdAt), Some(item.addedAt),
      if primary.Some? then Some(primary.value.relativePath) else None,
      if primary.Some? then Some(primary.value.contentType) else None,
      if primary.Some? then primary.value.expectedSize else None,
      |item.resources|, live, item.identityAmbiguous, item.unsupportedReasons, EligibilityState(item), PENDING_CHECK);
  }

  method WriteSeen(session: InventorySession, row: InventoryRow, seen: Observation, ghost st: Scanning)
    requires Holds(session, st) && row in session.objects
    modifies row
    ensures Holds(session, st.(rows := UpdateRow(st.rows, row.Value().id, Seen(seen))))
  {
    StoredIsNotPending(session, row);
    row.seen := seen;
    ObjectWritten(session, row, Seen(seen), st.rows);
  }

  method AddNew(session: InventorySession, identity: string, seen: Observation, c: ScanCall, ghost st: Scanning)
    requires Holds(session, st) && c.freeId == session.nextId
    modifies session`pending
    ensures Holds(session, st.(added := st.added + [NewRow(c.freeId + |st.added|, identity, seen, c)]))
  {
    hide InventoryRow.Value;
    var row := new InventoryRow(NewRow(session.nextId + |session.pending|, identity, seen, c));
    session.Add(row);
  }

  method UpsertInventoryRow(session: InventorySession, item: Item, position: nat, c: ScanCall, ghost st: Scanning)
    returns (created: bool)
    requires Holds(session, st) && c.freeId == session.nextId
    modifies session`pending, session.objects
    ensures Holds(session, Upsert(st, item, position, c))
    ensures created == (Upsert(st, item, position, c).created > st.created)
  {
    hide Observe, Strip, InventoryRow.Value, Values, UpdateRow, NewRow;
    var identity := Strip(item.itemId);
    var seen := ObserveItem(item, position, c);
    var found := Lookup(session.stored, c.source, identity);
    StoredLookup(session, st, c.source, identity);
    created := found.None?;
    if created {
      AddNew(session, identity, seen, c, st);
    } else {
      var rows := session.Resolve([found.value]);
      WriteSeen(session, rows[0], seen, st);
    }
  }

  /** Looking up the stored rows is looking up the objects: the identity columns are never written. */
  lemma StoredLookup(s: InventorySession, st: Scanning, source: int, identity: string)
    requires Holds(s, st)
    ensures Lookup(s.stored, source, identity).Some? == Lookup(st.rows, source, identity).Some?
    ensures Lookup(s.stored, source, identity).Some? ==>
      && Lookup(s.stored, source, identity).value in s.stored
      && Lookup(s.stored, source, identity).value.id == Lookup(st.rows, source, identity).value.id
  {
    LookupFinds(s.stored, source, identity);
    SameLookup(s.stored, st.rows, source, identity);
  }

  /** After an item without an identity the loop writes nothing more. */
  lemma {:induction false} BlankStops(t: Table, c: ScanCall, items: seq<Item>, k: nat)
    requires k <= |items| && ScanItems(t, c, items[..k]).blank
    ensures ScanItems(t, c, items).blank
    decreases |items| - k
  {
    hide Upsert, Strip;
    if k < |items| {
      assert items[..k + 1][..k] == items[..k];
      BlankStops(t, c, items, k + 1);
    } else {
      assert items[..k] == items;
    }
  }

  lemma UpsertCountsOnce(st: Scanning, item: Item, position: nat, c: ScanCall)
    ensures var u := Upsert(st, item, position, c);
      && u.seen == st.seen && u.blank == st.blank
      && if u.created > st.created then u.created == st.created + 1 && u.updated == st.updated
         else u.created == st.created && u.updated == st.updated + 1
  {
  }

  /** The loop over the listing; it stops at an item without an identity. */
  method UpsertListing(session: InventorySession, c: ScanCall, items: seq<Item>)
    returns (blank: bool, created: nat, updated: nat)
    requires session.Valid() && session.Clean() && c.freeId == session.nextId
    modifies session`pending, session.objects
    ensures var st := ScanItems(old(session.stored), c, items);
      blank == st.blank && (!blank ==> Holds(session, st) && created == st.created && updated == st.updated)
  {
    hide Upsert, Strip, InventoryRow.Value;
    created, updated := 0, 0;
    var identities: set<string> := {};
    ghost var t := session.stored;
    ghost var st := ScanItems(t, c, []);
    for k := 0 to |items|
      invariant st == ScanItems(t, c, items[..k]) && Holds(session, st) && !st.blank
      invariant identities == st.seen && "" !in identities && created == st.created && updated == st.updated
      invariant session.stored == t && session.objects == old(session.objects)
    {
      assert items[..k + 1][..k] == items[..k];
      var identity := Strip(items[k].itemId);
      ghost var before := st;
      st := ScanNext(st, items[k], k + 1, c);
      if identity in identities { continue; }
      if identity == "" {
        BlankStops(t, c, items, k + 1);
        return true, created, updated;
      }
      identities := identities + {identity};
      before := before.(seen := identities);
      UpsertCountsOnce(before, items[k], k + 1, c);
      var isNew := UpsertInventoryRow(session, items[k], k + 1, c, before);
      if isNew { created := created + 1; } else { updated := updated + 1; }
    }
    assert items[..|items|] == items;
    blank := false;
  }

  lemma FlushedValues(s: InventorySession, st: Scanning)
    requires Holds(s, st)
    ensures Values(s.objects + s.pending) == st.rows + st.added
  {
    hide InventoryRow.Value;
    var v := Values(s.objects + s.pending);
    forall i | 0 <= i < |v| ensures v[i] == (st.rows + st.added)[i] {
      assert i < |s.objects| ==> Values(s.objects)[i] == v[i];
      assert i >= |s.objects| ==> Values(s.pending)[i - |s.objects|] == v[i];
    }
  }

  /**
   * One scan. It commits the table that `ScanRun` describes, or nothing when it raises; what it commits is all that
   * later sessions see.
   */
  method RunInventoryScan(session: InventorySession, c: ScanCall) returns (outcome: ScanOutcome)
    requires session.Valid() && session.Clean() && c.freeId == session.nextId
    modifies session, session.objects
    ensures outcome == ScanRun(old(session.stored), c).outcome
    ensures session.durable == old(session.durable) + ScanRun(old(session.stored), c).commits
    ensures outcome.Scanned? ==>
      && session.Valid() && session.Clean()
      && session.stored == ScanRun(old(session.stored), c).Final(old(session.stored))
  {
    hide ScanItems, Strip, InventoryRow.Value, UniqueIdentities, Values;
    if c.maxCandidates < 1 || c.maxCandidates > MAX_SCAN_CANDIDATES { return ScanRaised("invalid_max_candidates"); }
    if c.sourceError.Some? { return ScanRaised(c.sourceError.value); }
    if c.listing.ListingRaised? { return ScanRaised(c.listing.code); }
    var blank, created, updated := UpsertListing(session, c, c.listing.items);
    if blank { return ScanRaised("remote_identity_missing"); }
    FlushedValues(session, ScanItems(old(session.stored), c, c.listing.items));
    var violated := session.Flush();
    if violated { return ScanRaised("integrity_error"); }
    session.Commit();
    outcome := Scanned(|c.listing.items|, created, updated);
  }
}
