/** Every scan: identities stay unique although lookups miss unflushed rows, the counts are exact, run columns survive. */
module ScanTheorems {
  import opened Text
  import opened Inventory
  import opened Session
  import opened Scan

  lemma {:induction false} LookupFinds(t: Table, source: int, identity: string)
    ensures var found := Lookup(t, source, identity);
      && (found.Some? ==> found.value in t && Matches(found.value, source, identity))
      && (found.None? ==> forall r :: r in t ==> !Matches(r, source, identity))
  {
    if t != [] {
      LookupFinds(t[1..], source, identity);
      assert t == [t[0]] + t[1..];
    }
  }

  /** The remote identities of a listing. */
  function Identities(items: seq<Item>): set<string> {
    set k | 0 <= k < |items| :: Strip(items[k].itemId)
  }

  /** The position of the first item with this identity. */
  function FirstWith(items: seq<Item>, identity: string): nat
    requires identity in Identities(items)
    ensures FirstWith(items, identity) < |items|
  {
    var n := |items| - 1;
    if identity in Identities(items[..n]) then FirstWith(items[..n], identity) else n
  }

  /** What a scan has made of the stored row `r` after the items listed. */
  function Rescanned(r: Row, items: seq<Item>, c: ScanCall): Row {
    if r.sourceId == c.source && r.basis == HELPER_ITEM_ID_BASIS && r.identity in Identities(items) then
      var k := FirstWith(items, r.identity);
      r.(seen := Observe(items[k], k + 1, c))
    else r
  }

  lemma IdentitiesNext(items: seq<Item>)
    requires items != []
    ensures Identities(items) == Identities(items[..|items| - 1]) + {Strip(items[|items| - 1].itemId)}
  {
    hide Strip;
    var n := |items| - 1;
    forall x | x in Identities(items) ensures x in Identities(items[..n]) + {Strip(items[n].itemId)} {
      var k :| 0 <= k < |items| && Strip(items[k].itemId) == x;
      if k < n { assert items[..n][k] == items[k]; }
    }
    forall x | x in Identities(items[..n]) ensures x in Identities(items) {
      var k :| 0 <= k < n && Strip(items[..n][k].itemId) == x;
      assert items[..n][k] == items[k];
    }
  }

  lemma RescannedNext(r: Row, items: seq<Item>, c: ScanCall)
    requires items != []
    ensures var n := |items| - 1;
      var key := Strip(items[n].itemId);
      Rescanned(r, items, c) ==
        if Matches(r, c.source, key) && key !in Identities(items[..n]) then r.(seen := Observe(items[n], n + 1, c))
        else Rescanned(r, items[..n], c)
  {
    hide Strip, Observe;
    IdentitiesNext(items);
  }

  /** `row` is what the scan adds for a remote identity that the table does not hold. */
  predicate AddedFor(row: Row, t: Table, items: seq<Item>, c: ScanCall, id: nat) {
    && row.identity in Identities(items)
    && Lookup(t, c.source, row.identity).None?
    && var k := FirstWith(items, row.identity);
       row == NewRow(id, row.identity, Observe(items[k], k + 1, c), c)
  }

  ghost predicate RowsScanned(t: Table, c: ScanCall, items: seq<Item>, rows: Table) {
    |rows| == |t| && forall i :: 0 <= i < |t| ==> rows[i] == Rescanned(t[i], items, c)
  }

  /** One row for each identity that the table does not hold, numbered in order. */
  ghost predicate RowsAdded(t: Table, c: ScanCall, items: seq<Item>, added: Table) {
    && (forall k :: 0 <= k < |added| ==> AddedFor(added[k], t, items, c, c.freeId + k))
    && (forall j, k :: 0 <= j < k < |added| ==> added[j].identity != added[k].identity)
    && (forall x :: x in Identities(items) && Lookup(t, c.source, x).None?
          ==> exists k :: 0 <= k < |added| && added[k].identity == x)
  }

  /** The state of the scan loop after the items, in closed form. */
  ghost predicate Progress(t: Table, c: ScanCall, items: seq<Item>, st: Scanning) {
    && RowsScanned(t, c, items, st.rows)
    && RowsAdded(t, c, items, st.added)
    && st.seen == Identities(items)
    && st.created == |st.added|
    && st.created + st.updated == |Identities(items)|
  }

  /** The identity columns decide lookups. */
  lemma {:induction false} SameLookup(t: Table, u: Table, source: int, identity: string)
    requires |t| == |u| && forall i :: 0 <= i < |t| ==> t[i].id == u[i].id && SameIdentity(t[i], u[i])
    ensures Lookup(t, source, identity).Some? == Lookup(u, source, identity).Some?
    ensures Lookup(t, source, identity).Some? ==>
      Lookup(t, source, identity).value.id == Lookup(u, source, identity).value.id
  {
    if t != [] { SameLookup(t[1..], u[1..], source, identity); }
  }

  lemma AddedForNext(row: Row, t: Table, items: seq<Item>, c: ScanCall, id: nat)
    requires items != [] && AddedFor(row, t, items[..|items| - 1], c, id)
    ensures AddedFor(row, t, items, c, id)
  {
    hide Strip, Observe, Lookup;
    IdentitiesNext(items);
  }

  /** An item whose identity is listed before or already stored adds no row. */
  lemma NothingAdded(t: Table, c: ScanCall, items: seq<Item>, added: Table)
    requires items != [] && RowsAdded(t, c, items[..|items| - 1], added)
    requires var key := Strip(items[|items| - 1].itemId);
      key in Identities(items[..|items| - 1]) || Lookup(t, c.source, key).Some?
    ensures RowsAdded(t, c, items, added)
  {
    hide Strip, Observe, Lookup, AddedFor;
    IdentitiesNext(items);
    forall k | 0 <= k < |added| ensures AddedFor(added[k], t, items, c, c.freeId + k) {
      AddedForNext(added[k], t, items, c, c.freeId + k);
    }
  }

  /** An identity seen before: nothing is written, whether or not its row has been flushed. */
  lemma RepeatedItem(t: Table, c: ScanCall, items: seq<Item>, st: Scanning)
    requires items != [] && Progress(t, c, items[..|items| - 1], st)
    requires Strip(items[|items| - 1].itemId) in st.seen
    ensures Progress(t, c, items, st)
  {
    hide Strip, Rescanned, Lookup, RowsAdded;
    IdentitiesNext(items);
    assert Identities(items) == Identities(items[..|items| - 1]);
    forall i | 0 <= i < |t| ensures st.rows[i] == Rescanned(t[i], items, c) { RescannedNext(t[i], items, c); }
    NothingAdded(t, c, items, st.added);
  }

  lemma OneMatch(t: Table, i: nat, j: nat, source: int, identity: string)
    requires UniqueIdentities(t) && i < |t| && j < |t|
    requires Matches(t[i], source, identity) && Matches(t[j], source, identity)
    ensures i == j
  {
    assert SameIdentity(t[i], t[j]) && SameIdentity(t[j], t[i]);
  }

  /** Writing the row that the lookup found is rescanning the table. */
  lemma StoredRowScanned(t: Table, c: ScanCall, items: seq<Item>, rows: Table)
    requires DistinctIds(t) && UniqueIdentities(t)
    requires items != [] && RowsScanned(t, c, items[..|items| - 1], rows)
    requires Strip(items[|items| - 1].itemId) !in Identities(items[..|items| - 1])
    requires Lookup(rows, c.source, Strip(items[|items| - 1].itemId)).Some?
    ensures var n := |items| - 1;
      var found := Lookup(rows, c.source, Strip(items[n].itemId)).value;
      RowsScanned(t, c, items, UpdateRow(rows, found.id, Seen(Observe(items[n], n + 1, c))))
  {
    hide Strip, Observe, Lookup;
    var n := |items| - 1;
    var key := Strip(items[n].itemId);
    LookupFinds(rows, c.source, key);
    var found := Lookup(rows, c.source, key).value;
    var p :| 0 <= p < |t| && rows[p] == found;
    var u := UpdateRow(rows, found.id, Seen(Observe(items[n], n + 1, c)));
    forall i | 0 <= i < |t| ensures u[i] == Rescanned(t[i], items, c) {
      RescannedNext(t[i], items, c);
      if Matches(t[i], c.source, key) {
        OneMatch(t, i, p, c.source, key);
      } else {
        assert i < p ==> t[i].id != t[p].id;
        assert p < i ==> t[p].id != t[i].id;
      }
    }
  }

  /** A new identity with a stored row: exactly that row takes the columns of the item. */
  lemma StoredItem(t: Table, c: ScanCall, items: seq<Item>, st: Scanning)
    requires DistinctIds(t) && UniqueIdentities(t)
    requires items != [] && Progress(t, c, items[..|items| - 1], st)
    requires Strip(items[|items| - 1].itemId) !in st.seen
    requires Lookup(st.rows, c.source, Strip(items[|items| - 1].itemId)).Some?
    ensures var n := |items| - 1;
      Progress(t, c, items, Upsert(st.(seen := st.seen + {Strip(items[n].itemId)}), items[n], n + 1, c))
  {
    hide Strip, Observe, RowsAdded, Lookup, Rescanned;
    IdentitiesNext(items);
    ScannedLookup(t, c, items[..|items| - 1], st.rows, Strip(items[|items| - 1].itemId));
    StoredRowScanned(t, c, items, st.rows);
    NothingAdded(t, c, items, st.added);
  }

  lemma ScannedLookup(t: Table, c: ScanCall, items: seq<Item>, rows: Table, identity: string)
    requires RowsScanned(t, c, items, rows)
    ensures Lookup(t, c.source, identity).Some? == Lookup(rows, c.source, identity).Some?
  {
    hide Observe, Strip, Lookup;
    SameLookup(t, rows, c.source, identity);
  }

  /** A new identity without a stored row: one row is added, and no row added before has the identity. */
  lemma NewRowAdded(t: Table, c: ScanCall, items: seq<Item>, added: Table)
    requires items != [] && RowsAdded(t, c, items[..|items| - 1], added)
    requires var key := Strip(items[|items| - 1].itemId);
      key !in Identities(items[..|items| - 1]) && Lookup(t, c.source, key).None?
    ensures var n := |items| - 1;
      RowsAdded(t, c, items, added + [NewRow(c.freeId + |added|, Strip(items[n].itemId), Observe(items[n], n + 1, c), c)])
  {
    hide Strip, Observe, Lookup;
    var n := |items| - 1;
    var key := Strip(items[n].itemId);
    var row := NewRow(c.freeId + |added|, key, Observe(items[n], n + 1, c), c);
    var u := added + [row];
    IdentitiesNext(items);
    assert AddedFor(row, t, items, c, c.freeId + |added|);
    hide AddedFor;
    forall k | 0 <= k < |u| ensures AddedFor(u[k], t, items, c, c.freeId + k) {
      if k < |added| { AddedForNext(added[k], t, items, c, c.freeId + k); }
    }
    forall k | 0 <= k < |added| ensures added[k].identity != key {
      AddedIsListed(added[k], t, items[..n], c, c.freeId + k);
    }
    forall x | x in Identities(items) && Lookup(t, c.source, x).None?
      ensures exists k :: 0 <= k < |u| && u[k].identity == x
    {
      if x == key {
        assert u[|added|].identity == x;
      } else {
        var k :| 0 <= k < |added| && added[k].identity == x;
        assert u[k].identity == x;
      }
    }
  }

  lemma AddedIsListed(row: Row, t: Table, items: seq<Item>, c: ScanCall, id: nat)
    requires AddedFor(row, t, items, c, id)
    ensures row.identity in Identities(items)
  {
  }

  lemma NewItem(t: Table, c: ScanCall, items: seq<Item>, st: Scanning)
    requires items != [] && Progress(t, c, items[..|items| - 1], st)
    requires Strip(items[|items| - 1].itemId) !in st.seen
    requires Lookup(st.rows, c.source, Strip(items[|items| - 1].itemId)).None?
    ensures var n := |items| - 1;
      Progress(t, c, items, Upsert(st.(seen := st.seen + {Strip(items[n].itemId)}), items[n], n + 1, c))
  {
    hide Strip, Observe, Lookup, RowsAdded, Rescanned;
    var key := Strip(items[|items| - 1].itemId);
    IdentitiesNext(items);
    ScannedLookup(t, c, items[..|items| - 1], st.rows, key);
    NewRowAdded(t, c, items, st.added);
    NothingMatches(t, c, key);
    forall i | 0 <= i < |t| ensures st.rows[i] == Rescanned(t[i], items, c) { RescannedNext(t[i], items, c); }
  }

  lemma NothingMatches(t: Table, c: ScanCall, identity: string)
    ensures Lookup(t, c.source, identity).None? ==> forall i :: 0 <= i < |t| ==> !Matches(t[i], c.source, identity)
  {
    LookupFinds(t, c.source, identity);
  }

  /** The loop reaches the closed form for every listing, and stops exactly at a missing identity. */
  lemma {:induction false} ScanItemsProgress(t: Table, c: ScanCall, items: seq<Item>)
    requires DistinctIds(t) && UniqueIdentities(t)
    ensures ScanItems(t, c, items).blank <==> "" in Identities(items)
    ensures "" !in Identities(items) ==> Progress(t, c, items, ScanItems(t, c, items))
  {
    hide Strip, Observe, Lookup, RowsScanned, RowsAdded, Upsert, DistinctIds, UniqueIdentities;
    if items != [] {
      var n := |items| - 1;
      var st := ScanItems(t, c, items[..n]);
      ScanItemsProgress(t, c, items[..n]);
      IdentitiesNext(items);
      if "" !in Identities(items) { ScanItemsNext(t, c, items, st); }
    } else {
      NothingScanned(t, c);
    }
  }

  lemma NothingScanned(t: Table, c: ScanCall)
    ensures Progress(t, c, [], Scanning(t, [], {}, 0, 0, false))
  {
    assert Identities([]) == {};
  }

  lemma ScanItemsNext(t: Table, c: ScanCall, items: seq<Item>, st: Scanning)
    requires DistinctIds(t) && UniqueIdentities(t)
    requires items != [] && Progress(t, c, items[..|items| - 1], st) && !st.blank && "" !in Identities(items)
    ensures var u := ScanNext(st, items[|items| - 1], |items|, c); Progress(t, c, items, u) && !u.blank
  {
    hide Strip, Observe, Lookup, RowsScanned, RowsAdded;
    var key := Strip(items[|items| - 1].itemId);
    IdentitiesNext(items);
    if key in st.seen {
      RepeatedItem(t, c, items, st);
    } else if Lookup(st.rows, c.source, key).Some? {
      StoredItem(t, c, items, st);
    } else {
      NewItem(t, c, items, st);
    }
  }

  // ---- every scan ----

  predicate FreeFrom(t: Table, id: nat) {
    forall i :: 0 <= i < |t| ==> t[i].id < id
  }

  /** Nothing but the listing itself can fail the scan. */
  predicate Listed(c: ScanCall) {
    1 <= c.maxCandidates <= MAX_SCAN_CANDIDATES && c.sourceError.None? && c.listing.ListingDone?
  }

  lemma ScannedIdentitiesUnique(t: Table, c: ScanCall, items: seq<Item>, st: Scanning)
    requires UniqueIdentities(t) && Progress(t, c, items, st)
    ensures UniqueIdentities(st.rows + st.added)
  {
    hide Strip, Observe, Lookup, FirstWith;
    var u := st.rows + st.added;
    forall i, j | 0 <= i < j < |u| ensures !SameIdentity(u[i], u[j]) {
      if j < |t| {
        assert !SameIdentity(t[i], t[j]);
      } else {
        assert AddedFor(st.added[j - |t|], t, items, c, c.freeId + (j - |t|));
        LookupFinds(t, c.source, u[j].identity);
        if i < |t| { assert t[i] in t; }
        else { assert AddedFor(st.added[i - |t|], t, items, c, c.freeId + (i - |t|)); }
      }
    }
  }

  lemma ScannedIdsDistinct(t: Table, c: ScanCall, items: seq<Item>, st: Scanning)
    requires DistinctIds(t) && FreeFrom(t, c.freeId) && Progress(t, c, items, st)
    ensures DistinctIds(st.rows + st.added) && FreeFrom(st.rows + st.added, c.freeId + |st.added|)
  {
    hide Strip, Observe, Lookup, FirstWith;
    var u := st.rows + st.added;
    forall i | 0 <= i < |u| ensures u[i].id == if i < |t| then t[i].id else c.freeId + (i - |t|) {
      if i >= |t| { assert AddedFor(st.added[i - |t|], t, items, c, c.freeId + (i - |t|)); }
    }
  }

  /**
   * Lookups miss the rows a scan has added and not flushed, yet for any listing, duplicates included, the flush meets the
   * uniqueness constraint: a scan fails exactly on a missing identity, and otherwise creates and updates one row for each
   * distinct remote identity.
   */
  lemma ScanKeepsIdentitiesUnique(t: Table, c: ScanCall)
    requires DistinctIds(t) && UniqueIdentities(t) && FreeFrom(t, c.freeId)
    ensures var e := ScanRun(t, c);
      && UniqueIdentities(e.Final(t)) && DistinctIds(e.Final(t))
      && (e.outcome.Scanned? <==> Listed(c) && "" !in Identities(c.listing.items))
      && (e.outcome.ScanRaised? ==> e.commits == [])
      && (e.outcome.Scanned? ==>
            && e.outcome.created + e.outcome.updated == |Identities(c.listing.items)|
            && |e.Final(t)| == |t| + e.outcome.created
            && FreeFrom(e.Final(t), c.freeId + e.outcome.created))
  {
    hide Strip, Observe, Lookup, FirstWith, RowsScanned, RowsAdded, UniqueIdentities, DistinctIds, FreeFrom;
    if Listed(c) {
      var items := c.listing.items;
      var st := ScanItems(t, c, items);
      ScanItemsProgress(t, c, items);
      if !st.blank {
        ScannedIdentitiesUnique(t, c, items, st);
        ScannedIdsDistinct(t, c, items, st);
        ScannedLength(t, c, items, st);
      }
    }
  }

  lemma ScannedLength(t: Table, c: ScanCall, items: seq<Item>, st: Scanning)
    requires Progress(t, c, items, st)
    ensures |st.rows + st.added| == |t| + st.created
  {
  }

  /** Stored rows take the columns of their first listing item and keep everything else; new rows start unresolved. */
  lemma ScanWrites(t: Table, c: ScanCall, i: nat)
    requires DistinctIds(t) && UniqueIdentities(t) && FreeFrom(t, c.freeId)
    requires ScanRun(t, c).outcome.Scanned? && i < |ScanRun(t, c).Final(t)|
    ensures var u := ScanRun(t, c).Final(t);
      && c.listing.ListingDone?
      && (i < |t| ==> u[i] == Rescanned(t[i], c.listing.items, c))
      && (i >= |t| ==> AddedFor(u[i], t, c.listing.items, c, c.freeId + (i - |t|)))
  {
    hide Strip, Observe, Lookup, FirstWith, AddedFor, Rescanned, Identities;
    ScanItemsProgress(t, c, c.listing.items);
  }

  predicate OnlyTimes(a: Row, b: Row) {
    b == a.(seen := a.seen.(observedAt := b.seen.observedAt, lastObservedAt := b.seen.lastObservedAt))
  }

  /** The same scan at another time. */
  ghost predicate SameListing(c: ScanCall, d: ScanCall) {
    d == c.(now := d.now, freeId := d.freeId)
  }

  lemma RescannedTwice(r: Row, items: seq<Item>, c: ScanCall, d: ScanCall)
    requires SameListing(c, d)
    ensures OnlyTimes(Rescanned(r, items, c), Rescanned(Rescanned(r, items, c), items, d))
  {
    hide Strip, LivePhoto, PrimaryResource, FirstWith, Identities;
  }

  lemma AddedThenRescanned(r: Row, t: Table, items: seq<Item>, c: ScanCall, d: ScanCall, id: nat)
    requires SameListing(c, d) && AddedFor(r, t, items, c, id)
    ensures OnlyTimes(r, Rescanned(r, items, d))
  {
    hide Strip, LivePhoto, PrimaryResource, FirstWith, Identities;
  }

  lemma MemberIsFound(t: Table, i: nat, source: int, identity: string)
    requires i < |t| && Matches(t[i], source, identity)
    ensures Lookup(t, source, identity).Some?
  {
    LookupFinds(t, source, identity);
    assert t[i] in t;
  }

  lemma ListedIsStored(t: Table, c: ScanCall, items: seq<Item>, st: Scanning, identity: string)
    requires Progress(t, c, items, st) && identity in Identities(items)
    ensures Lookup(st.rows + st.added, c.source, identity).Some?
  {
    hide Strip, Observe, Lookup, Identities, FirstWith, Rescanned;
    var u := st.rows + st.added;
    ScannedLookup(t, c, items, st.rows, identity);
    if Lookup(t, c.source, identity).None? {
      var k :| 0 <= k < |st.added| && st.added[k].identity == identity;
      assert AddedFor(st.added[k], t, items, c, c.freeId + k);
      MemberIsFound(u, |t| + k, c.source, identity);
    } else {
      LookupFinds(st.rows, c.source, identity);
      var i :| 0 <= i < |t| && Matches(st.rows[i], c.source, identity);
      MemberIsFound(u, i, c.source, identity);
    }
  }

  /** Every listed identity is stored after the scan. */
  lemma ScannedIsStored(t: Table, c: ScanCall, identity: string)
    requires DistinctIds(t) && UniqueIdentities(t) && FreeFrom(t, c.freeId)
    requires ScanRun(t, c).outcome.Scanned? && identity in Identities(c.listing.items)
    ensures Lookup(ScanRun(t, c).Final(t), c.source, identity).Some?
  {
    hide Strip, Observe, Lookup, FirstWith, Identities, Progress;
    ScanItemsProgress(t, c, c.listing.items);
    ListedIsStored(t, c, c.listing.items, ScanItems(t, c, c.listing.items), identity);
  }

  /** Scanning the same listing again creates nothing and changes nothing but observation times. */
  lemma RescanChangesOnlyTimes(t: Table, c: ScanCall, d: ScanCall)
    requires DistinctIds(t) && UniqueIdentities(t) && FreeFrom(t, c.freeId)
    requires ScanRun(t, c).outcome.Scanned? && SameListing(c, d) && FreeFrom(ScanRun(t, c).Final(t), d.freeId)
    ensures var u := ScanRun(t, c).Final(t);
      var e := ScanRun(u, d);
      && e.outcome == Scanned(|c.listing.items|, 0, |Identities(c.listing.items)|)
      && |e.Final(u)| == |u|
      && forall i :: 0 <= i < |u| ==> OnlyTimes(u[i], e.Final(u)[i])
  {
    hide Strip, Observe, Lookup, FirstWith, Rescanned, AddedFor, Identities, ScanItems;
    hide UniqueIdentities, DistinctIds, FreeFrom, OnlyTimes;
    ScanKeepsIdentitiesUnique(t, c);
    var u := ScanRun(t, c).Final(t);
    ScanKeepsIdentitiesUnique(u, d);
    NothingNewListed(t, c, d);
    forall i | 0 <= i < |u| ensures OnlyTimes(u[i], ScanRun(u, d).Final(u)[i]) {
      ScanWrites(t, c, i);
      ScanWrites(u, d, i);
      if i < |t| { RescannedTwice(t[i], c.listing.items, c, d); }
      else { AddedThenRescanned(u[i], t, c.listing.items, c, d, c.freeId + (i - |t|)); }
    }
  }

  lemma NothingNewListed(t: Table, c: ScanCall, d: ScanCall)
    requires DistinctIds(t) && UniqueIdentities(t) && FreeFrom(t, c.freeId)
    requires ScanRun(t, c).outcome.Scanned? && SameListing(c, d) && FreeFrom(ScanRun(t, c).Final(t), d.freeId)
    ensures var u := ScanRun(t, c).Final(t);
      ScanRun(u, d).outcome == Scanned(|c.listing.items|, 0, |Identities(c.listing.items)|)
  {
    hide Strip, Observe, Lookup, FirstWith, Rescanned, Identities, UniqueIdentities, DistinctIds, FreeFrom, ScanItems;
    ScanKeepsIdentitiesUnique(t, c);
    var u := ScanRun(t, c).Final(t);
    ScanKeepsIdentitiesUnique(u, d);
    var st := ScanItems(u, d, d.listing.items);
    ScanItemsProgress(u, d, d.listing.items);
    if st.added != [] {
      assert AddedFor(st.added[0], u, d.listing.items, d, d.freeId + 0);
      ScannedIsStored(t, c, st.added[0].identity);
    }
  }

  /** Why the scan keeps its own set of identities: two unflushed upserts of one unknown identity break the constraint. */
  lemma UpsertTwiceBreaksUniqueness(st: Scanning, a: Item, b: Item, p: nat, q: nat, c: ScanCall)
    requires Strip(a.itemId) == Strip(b.itemId) && Lookup(st.rows, c.source, Strip(a.itemId)).None?
    ensures var u := Upsert(Upsert(st, a, p, c), b, q, c);
      u.created == st.created + 2 && !UniqueIdentities(u.rows + u.added)
  {
    hide Strip, Observe;
    var u := Upsert(Upsert(st, a, p, c), b, q, c);
    var n := |u.rows + u.added|;
    assert SameIdentity((u.rows + u.added)[n - 2], (u.rows + u.added)[n - 1]);
  }
}
