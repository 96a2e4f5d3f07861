/** What a scan stores of each listing item, column by column, and the order in which selections then take the rows. */
module ScanColumns {
  import opened Text
  import opened Inventory
  import opened Session
  import opened Selection
  import opened Scan
  import opened ScanTheorems

  // ---- the columns ----

  /** The first item with this identity. */
  predicate FirstListed(items: seq<Item>, identity: string, k: nat) {
    k < |items| && Strip(items[k].itemId) == identity && forall j :: 0 <= j < k ==> Strip(items[j].itemId) != identity
  }

  /** The first resource named as the primary original; without one, the first resource. */
  predicate Primary(rs: seq<Resource>, n: nat) {
    && n < |rs|
    && if rs[n].resourceId == "primary_original" then forall m :: 0 <= m < n ==> rs[m].resourceId != "primary_original"
       else n == 0 && forall m :: 0 <= m < |rs| ==> rs[m].resourceId != "primary_original"
  }

  predicate OccursAt(part: string, text: string, j: nat) {
    j + |part| <= |text| && text[j..j + |part|] == part
  }

  ghost predicate OccursIn(part: string, text: string) {
    exists j: nat :: OccursAt(part, text, j)
  }

  /** The observation holds exactly what the item says. */
  ghost predicate Shows(o: Observation, item: Item, position: nat, c: ScanCall) {
    && o.position == position && o.observedAt == c.now && o.lastObservedAt == c.now
    && o.grouping == Some(item.grouping)
    && o.createdRemoteAt == Some(item.createdAt) && o.addedRemoteAt == Some(item.addedAt)
    && o.resourceCount == |item.resources|
    && o.identityAmbiguous == item.identityAmbiguous && o.unsupportedReasons == item.unsupportedReasons
    && o.known == "pending_known_state_check"
    && (o.eligibility == "ambiguous_metadata_only" <==> item.identityAmbiguous)
    && (o.eligibility == "unsupported_metadata_only" <==> !item.identityAmbiguous && item.unsupportedReasons != [])
    && (o.eligibility == "eligible_metadata_only" <==> !item.identityAmbiguous && item.unsupportedReasons == [])
    && (o.isLivePhoto <==>
          || OccursIn("live_photo", c.casefold(item.grouping))
          || exists x :: x in item.resources && x.resourceId == "live_photo_original")
    && (item.resources == [] ==> o.primaryPath.None? && o.primaryContentType.None? && o.primarySize.None?)
    && (forall n: nat :: Primary(item.resources, n) ==>
          && o.primaryPath == Some(item.resources[n].relativePath)
          && o.primaryContentType == Some(item.resources[n].contentType)
          && o.primarySize == item.resources[n].expectedSize)
  }

  lemma {:induction false} ContainsMeans(text: string, part: string)
    ensures Contains(text, part) <==> OccursIn(part, text)
  {
    if part <= text {
      assert OccursAt(part, text, 0);
    } else if text != [] {
      ContainsMeans(text[1..], part);
      forall j: nat ensures OccursAt(part, text[1..], j) <==> OccursAt(part, text, j + 1) { OccursLater(part, text, j); }
      if j: nat :| OccursAt(part, text, j) {
        assert j != 0;
        assert OccursAt(part, text[1..], j - 1);
      }
    }
  }

  lemma OccursLater(part: string, text: string, j: nat)
    requires text != []
    ensures OccursAt(part, text[1..], j) <==> OccursAt(part, text, j + 1)
  {
    if j + 1 + |part| <= |text| { assert text[1..][j..j + |part|] == text[j + 1..j + 1 + |part|]; }
  }

  lemma {:induction false} FirstNamedIsPrimary(rs: seq<Resource>, n: nat)
    requires n < |rs| && rs[n].resourceId == "primary_original"
    requires forall m :: 0 <= m < n ==> rs[m].resourceId != "primary_original"
    ensures FirstNamed(rs, "primary_original") == Some(rs[n])
  {
    if n > 0 { FirstNamedIsPrimary(rs[1..], n - 1); }
  }

  lemma {:induction false} NobodyNamed(rs: seq<Resource>)
    requires forall m :: 0 <= m < |rs| ==> rs[m].resourceId != "primary_original"
    ensures FirstNamed(rs, "primary_original") == None
  {
    if rs != [] { NobodyNamed(rs[1..]); }
  }

  lemma PrimaryMeans(rs: seq<Resource>, n: nat)
    requires Primary(rs, n)
    ensures PrimaryResource(rs) == Some(rs[n])
  {
    if rs[n].resourceId == "primary_original" { FirstNamedIsPrimary(rs, n); } else { NobodyNamed(rs); }
  }

  lemma LivePhotoMeans(item: Item, c: ScanCall)
    ensures LivePhoto(item, c.casefold) <==>
      (OccursIn("live_photo", c.casefold(item.grouping)) ||
       exists x :: x in item.resources && x.resourceId == "live_photo_original")
  {
    ContainsMeans(c.casefold(item.grouping), "live_photo");
    hide OccursIn, Contains;
    if HasResource(item.resources, "live_photo_original") {
      var k :| 0 <= k < |item.resources| && item.resources[k].resourceId == "live_photo_original";
      assert item.resources[k] in item.resources;
    }
    if x :| x in item.resources && x.resourceId == "live_photo_original" {
      var k :| 0 <= k < |item.resources| && item.resources[k] == x;
    }
  }

  lemma EligibilityMeans(item: Item)
    ensures var e := EligibilityState(item);
      && (e == "ambiguous_metadata_only" <==> item.identityAmbiguous)
      && (e == "unsupported_metadata_only" <==> !item.identityAmbiguous && item.unsupportedReasons != [])
      && (e == "eligible_metadata_only" <==> !item.identityAmbiguous && item.unsupportedReasons == [])
  {
    assert AMBIGUOUS[0] == 'a' && UNSUPPORTED[0] == 'u' && ELIGIBLE[0] == 'e';
  }

  lemma ObservationShows(item: Item, position: nat, c: ScanCall)
    ensures Shows(Observe(item, position, c), item, position, c)
  {
    LivePhotoMeans(item, c);
    EligibilityMeans(item);
    forall n: nat | Primary(item.resources, n) ensures PrimaryResource(item.resources) == Some(item.resources[n]) {
      PrimaryMeans(item.resources, n);
    }
    assert item.resources == [] ==> PrimaryResource(item.resources) == None;
    hide LivePhoto, EligibilityState, PrimaryResource, Primary, OccursIn;
  }

  // ---- the rows ----

  lemma {:induction false} FirstWithIsFirst(items: seq<Item>, identity: string, k: nat)
    requires FirstListed(items, identity, k)
    ensures identity in Identities(items) && FirstWith(items, identity) == k
    decreases |items|
  {
    hide Strip;
    var n := |items| - 1;
    assert identity in Identities(items);
    IdentitiesNext(items);
    if k < n {
      FirstWithIsFirst(items[..n], identity, k);
    } else {
      assert forall j :: 0 <= j < n ==> items[..n][j] == items[j];
    }
  }

  lemma ListedMeans(items: seq<Item>, identity: string)
    ensures identity in Identities(items) <==> exists k: nat :: k < |items| && Strip(items[k].itemId) == identity
  {
    hide Strip;
  }

  /** A row as a scan creates it: nothing has been tried with it yet. */
  predicate Untried(u: Row, id: nat, c: ScanCall) {
    && u.id == id && u.sourceId == c.source && u.basis == "helper_item_id_observed_stable" && u.firstObservedAt == c.now
    && !u.completed && u.completedAt.None? && u.resolution.None? && u.acquisition.None?
    && u.runId.None? && u.batchId.None? && u.intakeRunId.None? && u.errorCode.None?
    && u.attempts == 0 && u.lastAttemptAt.None?
  }

  /**
   * After a scan every row of its source whose identity is listed shows the first item with that identity, at its position
   * counted from one. A row that was stored keeps all other columns, a new one is untried, and rows of other sources and
   * rows not listed are as they were.
   */
  lemma ScannedRowShows(t: Table, c: ScanCall, i: nat, k: nat)
    requires DistinctIds(t) && UniqueIdentities(t) && FreeFrom(t, c.freeId)
    requires ScanRun(t, c).outcome.Scanned? && i < |ScanRun(t, c).Final(t)|
    ensures c.listing.ListingDone?
    ensures var (u, items) := (ScanRun(t, c).Final(t)[i], c.listing.items);
      && (u.sourceId == c.source && u.basis == "helper_item_id_observed_stable" && FirstListed(items, u.identity, k) ==>
            Shows(u.seen, items[k], k + 1, c))
      && (i < |t| ==> u == t[i].(seen := u.seen))
      && (i < |t| && (u.sourceId != c.source || forall j :: 0 <= j < |items| ==> Strip(items[j].itemId) != u.identity) ==>
            u == t[i])
      && (i >= |t| ==>
            && Untried(u, c.freeId + (i - |t|), c)
            && exists j :: 0 <= j < |items| && Strip(items[j].itemId) == u.identity)
  {
    hide Strip, Observe, Lookup, FirstWith, Identities, ScanRun, Shows, FirstListed;
    ScanWrites(t, c, i);
    var (u, items) := (ScanRun(t, c).Final(t)[i], c.listing.items);
    ListedMeans(items, u.identity);
    if FirstListed(items, u.identity, k) {
      FirstWithIsFirst(items, u.identity, k);
      ListedAt(items, u.identity, k);
      ObservationShows(items[k], k + 1, c);
    }
  }

  lemma ListedAt(items: seq<Item>, identity: string, k: nat)
    requires FirstListed(items, identity, k)
    ensures k < |items|
  {
  }

  // ---- the order of selection ----

  /** One text comes strictly before another. */
  predicate Before(a: string, b: string) {
    TextLeq(a, b) && a != b
  }

  /** The item comes before the other one: created earlier, or at the same time and added earlier. */
  predicate ItemBefore(a: Item, b: Item) {
    Before(a.createdAt, b.createdAt) || (a.createdAt == b.createdAt && Before(a.addedAt, b.addedAt))
  }

  lemma OneBefore(a: string, b: string)
    ensures Before(a, b) ==> !TextLeq(b, a)
  {
    if TextLeq(a, b) && TextLeq(b, a) { TextLeqAntisymmetric(a, b); }
  }

  lemma ColumnsOrder(t: Table, source: int, p: nat, r: nat, x: Item, y: Item)
    requires DistinctIds(t) && p < |OrderedRows(t, source)| && r < |OrderedRows(t, source)| && ItemBefore(x, y)
    requires var o := OrderedRows(t, source)[p].seen; o.createdRemoteAt == Some(x.createdAt) && o.addedRemoteAt == Some(x.addedAt)
    requires var o := OrderedRows(t, source)[r].seen; o.createdRemoteAt == Some(y.createdAt) && o.addedRemoteAt == Some(y.addedAt)
    ensures p < r
  {
    hide OrderedRows, DistinctIds;
    if r < p {
      QueryOrder(t, source, r, p);
      OneBefore(x.createdAt, y.createdAt);
      OneBefore(x.addedAt, y.addedAt);
    }
  }

  /**
   * Selections after a scan follow the listing's dates: of two listed rows of the source, the one whose item was created
   * earlier, or added earlier on a tie, comes first in the query, and both are in it.
   */
  lemma ScanOrdersSelection(t: Table, c: ScanCall, i: nat, j: nat, k: nat, m: nat)
    requires DistinctIds(t) && UniqueIdentities(t) && FreeFrom(t, c.freeId)
    requires ScanRun(t, c).outcome.Scanned? && c.listing.ListingDone?
    requires i < |ScanRun(t, c).Final(t)| && j < |ScanRun(t, c).Final(t)|
    requires var (u, items) := (ScanRun(t, c).Final(t), c.listing.items);
      && u[i].sourceId == c.source && u[i].basis == HELPER_ITEM_ID_BASIS && FirstListed(items, u[i].identity, k)
      && u[j].sourceId == c.source && u[j].basis == HELPER_ITEM_ID_BASIS && FirstListed(items, u[j].identity, m)
      && ItemBefore(items[k], items[m])
    ensures var u := ScanRun(t, c).Final(t);
      var rows := OrderedRows(u, c.source);
      && (forall p, r :: 0 <= p < |rows| && 0 <= r < |rows| && rows[p] == u[i] && rows[r] == u[j] ==> p < r)
      && u[i] in rows && u[j] in rows
  {
    hide ScanRun, OrderedRows, ItemBefore, FirstListed, Shows, DistinctIds;
    var u := ScanRun(t, c).Final(t);
    var items := c.listing.items;
    ScanKeepsIdentitiesUnique(t, c);
    ScannedRowShows(t, c, i, k);
    ScannedRowShows(t, c, j, m);
    ListedAt(items, u[i].identity, k);
    ListedAt(items, u[j].identity, m);
    ShownDates(u[i].seen, items[k], k + 1, c);
    ShownDates(u[j].seen, items[m], m + 1, c);
    OrderedRowsMembers(u, c.source);
    assert u[i] in u && u[j] in u;
    var rows := OrderedRows(u, c.source);
    forall p, r | 0 <= p < |rows| && 0 <= r < |rows| && rows[p] == u[i] && rows[r] == u[j] ensures p < r {
      ColumnsOrder(u, c.source, p, r, items[k], items[m]);
    }
  }

  lemma ShownDates(o: Observation, item: Item, position: nat, c: ScanCall)
    requires Shows(o, item, position, c)
    ensures o.createdRemoteAt == Some(item.createdAt) && o.addedRemoteAt == Some(item.addedAt)
  {
  }
}
