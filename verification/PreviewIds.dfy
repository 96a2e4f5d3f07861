/** Dry runs of requests with explicit identifiers, which the preview ignores: exactly when it still predicts the run. */
module PreviewIds {
  import opened Text
  import opened Inventory
  import opened Sequences
  import opened Session
  import opened Selection
  import opened Acquisition
  import opened AcquisitionTheorems
  import opened Preview
  import opened History

  // ---- what the preview and the run select ----

  /** The preview of this request and listing reports the counters of the run. */
  predicate PredictsRun(t: Table, q: Request, s: Services) {
    var p := PreviewOf(t, q, s.sourceError, s.listing, false);
    var o := Acquire(t, q, s).outcome;
    o.Finished? ==> p.Previewed? && Predicts(p.result, o.result)
  }

  /** What the matching pass looks at in a row. */
  function KeyOf(r: Row): (string, bool) {
    (Strip(r.identity), r.seen.isLivePhoto)
  }

  function KeysOf(rows: Table): (keys: seq<(string, bool)>)
    ensures |keys| == |rows| && forall k :: 0 <= k < |rows| ==> keys[k] == KeyOf(rows[k])
  {
    seq(|rows|, k requires 0 <= k < |rows| => KeyOf(rows[k]))
  }

  // ---- counters do not depend on the order of the rows ----

  /** The counters that one row adds: matched, safe, resources. */
  datatype Counted = Counted(matched: nat, safe: nat, resources: nat)

  function Plus(a: Counted, b: Counted): Counted {
    Counted(a.matched + b.matched, a.safe + b.safe, a.resources + b.resources)
  }

  const NOTHING_COUNTED := Counted(0, 0, 0)

  function CountKey(key: (string, bool), items: seq<Item>): Counted {
    var found := LastMatch(items, key.0);
    if found.None? then NOTHING_COUNTED
    else if UnsafeFor(key.1, found.value) then Counted(1, 0, 0)
    else Counted(1, 1, |found.value.resources|)
  }

  predicate UnsafeFor(live: bool, item: Item) {
    || item.identityAmbiguous
    || item.unsupportedReasons != []
    || item.resources == []
    || (exists k :: 0 <= k < |item.resources| && !CompleteResource(item.resources[k]))
    || (live && |item.resources| < 2)
  }

  function CountKeys(keys: seq<(string, bool)>, items: seq<Item>): Counted {
    if keys == [] then NOTHING_COUNTED
    else Plus(CountKeys(keys[..|keys| - 1], items), CountKey(keys[|keys| - 1], items))
  }

  lemma ResourcesMore(items: seq<Item>, item: Item)
    ensures ResourceCount(items + [item]) == ResourceCount(items) + |item.resources|
  {
    assert (items + [item])[..|items|] == items;
  }

  /** The counters of the matching pass are those of the keys. */
  lemma {:induction false} MatchingCounts(rows: Table, items: seq<Item>)
    ensures CountsIn(MatchRows(rows, items)) == CountKeys(KeysOf(rows), items)
  {
    hide FateOf, CountKey, KeyOf, AddRow, CountsIn;
    if rows != [] {
      var n := |rows| - 1;
      MatchingCounts(rows[..n], items);
      assert KeysOf(rows)[..n] == KeysOf(rows[..n]) && KeysOf(rows)[n] == KeyOf(rows[n]);
      RowCounts(rows[n], items);
      AddedCounts(MatchRows(rows[..n], items), rows[n], FateOf(rows[n], items));
    } else {
      NothingMatched();
    }
  }

  function CountsIn(m: Matching): Counted {
    Counted(m.matched, |m.rows|, ResourceCount(m.items))
  }

  function CountFate(fate: Fate): Counted {
    match fate
    case Stale => NOTHING_COUNTED
    case Unsafe => Counted(1, 0, 0)
    case Safe(item) => Counted(1, 1, |item.resources|)
  }

  lemma RowCounts(r: Row, items: seq<Item>)
    ensures CountKey(KeyOf(r), items) == CountFate(FateOf(r, items))
  {
    hide Strip, CompleteResource, LastMatch;
  }

  lemma AddedCounts(m: Matching, r: Row, fate: Fate)
    ensures CountsIn(AddRow(m, r, fate)) == Plus(CountsIn(m), CountFate(fate))
  {
    if fate.Safe? { ResourcesMore(m.items, fate.item); }
  }

  lemma NothingMatched()
    ensures CountsIn(Matching([], [], 0, 0, 0)) == NOTHING_COUNTED
  {
    NoResources();
  }

  lemma {:induction false} CountWithout(keys: seq<(string, bool)>, items: seq<Item>, k: nat)
    requires k < |keys|
    ensures CountKeys(keys, items) == Plus(CountKeys(keys[..k] + keys[k + 1..], items), CountKey(keys[k], items))
  {
    hide CountKey;
    var n := |keys| - 1;
    if k == n {
      assert keys[..k] + keys[k + 1..] == keys[..n];
    } else {
      var before := keys[..n];
      CountWithout(before, items, k);
      var without := keys[..k] + keys[k + 1..];
      assert without[..|without| - 1] == before[..k] + before[k + 1..] && without[|without| - 1] == keys[n];
    }
  }

  lemma {:induction false} CountRearranged(a: seq<(string, bool)>, b: seq<(string, bool)>, items: seq<Item>)
    requires multiset(a) == multiset(b)
    ensures CountKeys(a, items) == CountKeys(b, items)
  {
    hide CountKey, CountKeys;
    if a == [] {
      assert |multiset(b)| == |b|;
    } else {
      var i := FirstElsewhere(a, b);
      CountWithout(a, items, 0);
      CountWithout(b, items, i);
      assert a[..0] + a[1..] == a[1..];
      CountRearranged(a[1..], b[..i] + b[i + 1..], items);
    }
  }

  // ---- a listing that tells two selections apart ----

  const WHOLE := Resource("r", "p", Some(1), "c", "t")

  /** A listing of one item with one complete resource. */
  function OnlyItem(key: string): seq<Item> {
    [Item(key, "", false, [], "", "", [WHOLE])]
  }

  lemma OnlyItemCounts(key: (string, bool), x: string)
    requires Stripped(x) && x != ""
    ensures CountKey(key, OnlyItem(x)) ==
      if key == (x, false) then Counted(1, 1, 1) else if key == (x, true) then Counted(1, 0, 0) else NOTHING_COUNTED
  {
    var items := OnlyItem(x);
    StripIsProjection(x);
    assert items[..|items| - 1] == [];
    assert LastMatch([], key.0) == None;
    assert LastMatch(items, key.0) == if key.0 == x then Some(items[0]) else None;
    assert Stripped("r") && Stripped("p") && Stripped("c");
    StripIsProjection("r");
    StripIsProjection("p");
    StripIsProjection("c");
    hide Strip;
    assert CompleteResource(WHOLE);
  }

  lemma {:induction false} OnlyItemCountsAll(keys: seq<(string, bool)>, x: string)
    requires Stripped(x) && x != ""
    ensures var c := CountKeys(keys, OnlyItem(x));
      c.safe == multiset(keys)[(x, false)] && c.matched == multiset(keys)[(x, false)] + multiset(keys)[(x, true)]
  {
    hide CountKey, OnlyItem, Stripped;
    if keys != [] {
      var n := |keys| - 1;
      OnlyItemCountsAll(keys[..n], x);
      OnlyItemCounts(keys[n], x);
      assert keys == keys[..n] + [keys[n]];
    }
  }

  /** Services under which a run ends after its matching pass at the latest. */
  function Discerning(x: string): Services {
    Services(None, ListingDone(OnlyItem(x)), true, None, None, DurableRaised(""), IntakeRaised(""), map[], 0, 0)
  }

  lemma DiscerningFinishes(t: Table, q: Request, x: string)
    requires LimitError(q).None?
    ensures Acquire(t, q, Discerning(x)).outcome.Finished?
  {
    hide SelectionFor, MatchRows, UpdateAll, RequestRefusal, ResourceCount;
  }

  // ---- what both report ----

  function CountsOf(sel: Selected, items: seq<Item>): Counted {
    CountKeys(KeysOf(sel.rows), items)
  }

  function ListedItems(s: Services): seq<Item> {
    if s.listing.ListingDone? then s.listing.items else []
  }

  lemma RunReports(t: Table, q: Request, s: Services)
    requires Acquire(t, q, s).outcome.Finished?
    ensures var (r, sel) := (Acquire(t, q, s).outcome.result, SelectionFor(t, q));
      && s.sourceError.None? && (sel.rows != [] ==> s.listing.ListingDone?)
      && r.selectedInventory == |sel.rows| && r.tally == sel.tally && r.stale == |sel.rows| - r.matched
      && Counted(r.matched, r.selectedLogical, r.selectedResources) == CountsOf(sel, ListedItems(s))
  {
    hide UpdateAll, ResourceCount, MatchRows, Preflight, SelectionFor;
    var sel := SelectionFor(t, q);
    if sel.rows != [] {
      var items := s.listing.items;
      MatchingConserves(sel.rows, items);
      MatchingCounts(sel.rows, items);
      ReportedMatching(UpdateAll(t, RowIds(sel.rows), Preparing(items)), sel, MatchRows(sel.rows, items), q, s);
    } else {
      NoResources();
    }
  }

  lemma PreviewReports(t: Table, q: Request, s: Services)
    requires LimitError(q).None? && s.sourceError.None?
    ensures var (p, sel) := (PreviewOf(t, q, s.sourceError, s.listing, false), SelectRows(t, q.source, q.acquireLimit));
      && (sel.rows == [] || s.listing.ListingDone? ==> p.Previewed?)
      && (p.Previewed? ==>
            && p.result.selectedInventory == |sel.rows| && p.result.tally == sel.tally
            && p.result.stale == |sel.rows| - p.result.matched && p.result.unsafe == p.result.matched - p.result.selectedLogical
            && Counted(p.result.matched, p.result.selectedLogical, p.result.selectedResources) == CountsOf(sel, ListedItems(s)))
  {
    hide ResourceCount, MatchRows, SelectRows, PreviewItems;
    var sel := SelectRows(t, q.source, q.acquireLimit);
    if sel.rows != [] && s.listing.ListingDone? {
      MatchingConserves(sel.rows, s.listing.items);
      MatchingCounts(sel.rows, s.listing.items);
      EmptyListing(sel.rows);
      NoResources();
    }
  }

  /** A dry run of this request predicts a run that finishes exactly when both selections count alike on its listing. */
  lemma PredictsThisRun(t: Table, q: Request, s: Services)
    requires LimitError(q).None? && Acquire(t, q, s).outcome.Finished?
    ensures var (d, r) := (SelectRows(t, q.source, q.acquireLimit), SelectionFor(t, q));
      PredictsRun(t, q, s) <==>
        d.tally == r.tally && |d.rows| == |r.rows| && CountsOf(d, ListedItems(s)) == CountsOf(r, ListedItems(s))
  {
    hide PreviewOf, Acquire, SelectRows, SelectionFor, CountsOf;
    RunReports(t, q, s);
    PreviewReports(t, q, s);
  }

  // ---- prediction for every listing ----

  lemma {:induction false} KeysOfSelectable(rows: Table)
    requires forall r :: r in rows ==> VerdictOf(r) == Selectable
    ensures forall key :: key in KeysOf(rows) ==> Stripped(key.0) && key.0 != ""
  {
    if rows != [] {
      var n := |rows| - 1;
      assert rows == rows[..n] + [rows[n]];
      KeysOfSelectable(rows[..n]);
      StripIsProjection(rows[n].identity);
      assert VerdictOf(rows[n]) == Selectable;
      hide Strip, Stripped;
    }
  }

  lemma SelectionsAreSelectable(t: Table, q: Request)
    requires q.acquireLimit >= 0
    ensures forall r :: r in SelectRows(t, q.source, q.acquireLimit).rows ==> VerdictOf(r) == Selectable
    ensures forall r :: r in SelectionFor(t, q).rows ==> VerdictOf(r) == Selectable
  {
    hide VerdictOf, OrderedRows;
    KeepMembers(OrderedRows(t, q.source), Selectable);
    if q.inventoryIds.Some? { KeepMembers(RequestedRows(t, q.source, q.inventoryIds.value), Selectable); }
  }

  /**
   * A dry run predicts every run of its request, on every listing, exactly when the preview's selection and the run's
   * have the same verdict counts and, up to order, the same stripped identities and live-photo flags.
   */
  lemma PredictsEveryRunIff(t: Table, q: Request)
    requires LimitError(q).None?
    ensures var (d, r) := (SelectRows(t, q.source, q.acquireLimit), SelectionFor(t, q));
      (forall s :: PredictsRun(t, q, s)) <==> d.tally == r.tally && multiset(KeysOf(d.rows)) == multiset(KeysOf(r.rows))
  {
    hide PredictsRun, SelectRows, SelectionFor;
    if forall s :: PredictsRun(t, q, s) { PredictionAgrees(t, q); }
    var (d, r) := (SelectRows(t, q.source, q.acquireLimit), SelectionFor(t, q));
    if d.tally == r.tally && multiset(KeysOf(d.rows)) == multiset(KeysOf(r.rows)) {
      forall s ensures PredictsRun(t, q, s) { AgreementPredicts(t, q, s); }
    }
  }

  lemma PredictionAgrees(t: Table, q: Request)
    requires LimitError(q).None? && forall s :: PredictsRun(t, q, s)
    ensures var (d, r) := (SelectRows(t, q.source, q.acquireLimit), SelectionFor(t, q));
      d.tally == r.tally && multiset(KeysOf(d.rows)) == multiset(KeysOf(r.rows))
  {
    hide PredictsRun, SelectRows, SelectionFor, VerdictOf, Stripped, Discerning, CountsOf;
    var (d, r) := (SelectRows(t, q.source, q.acquireLimit), SelectionFor(t, q));
    assert PredictsRun(t, q, Discerning("x"));
    DiscerningFinishes(t, q, "x");
    PredictsThisRun(t, q, Discerning("x"));
    SelectionsAreSelectable(t, q);
    KeysOfSelectable(d.rows);
    KeysOfSelectable(r.rows);
    forall key ensures multiset(KeysOf(d.rows))[key] == multiset(KeysOf(r.rows))[key] {
      if key in KeysOf(d.rows) || key in KeysOf(r.rows) { SameCount(t, q, key); }
    }
  }

  lemma AgreementPredicts(t: Table, q: Request, s: Services)
    requires LimitError(q).None?
    requires var (d, r) := (SelectRows(t, q.source, q.acquireLimit), SelectionFor(t, q));
      d.tally == r.tally && multiset(KeysOf(d.rows)) == multiset(KeysOf(r.rows))
    ensures PredictsRun(t, q, s)
  {
    hide PredictsRun, SelectRows, SelectionFor, Acquire;
    var (dk, rk) := (KeysOf(SelectRows(t, q.source, q.acquireLimit).rows), KeysOf(SelectionFor(t, q).rows));
    if Acquire(t, q, s).outcome.Finished? {
      assert |multiset(dk)| == |dk| && |multiset(rk)| == |rk|;
      CountRearranged(dk, rk, ListedItems(s));
      PredictsThisRun(t, q, s);
    } else {
      UnfinishedIsPredicted(t, q, s);
    }
  }

  lemma UnfinishedIsPredicted(t: Table, q: Request, s: Services)
    requires !Acquire(t, q, s).outcome.Finished?
    ensures PredictsRun(t, q, s)
  {
    hide Acquire, PreviewOf;
  }

  lemma FlagIsEither(key: (string, bool))
    ensures key == (key.0, true) || key == (key.0, false)
  {
    var (x, live) := key;
    assert key == (x, live);
  }

  lemma SameCount(t: Table, q: Request, key: (string, bool))
    requires LimitError(q).None? && Stripped(key.0) && key.0 != "" && forall s :: PredictsRun(t, q, s)
    ensures var (d, r) := (SelectRows(t, q.source, q.acquireLimit), SelectionFor(t, q));
      multiset(KeysOf(d.rows))[key] == multiset(KeysOf(r.rows))[key]
  {
    hide PredictsRun, SelectRows, SelectionFor, CountKeys, Stripped, OnlyItem;
    var (d, r) := (SelectRows(t, q.source, q.acquireLimit), SelectionFor(t, q));
    var x := key.0;
    assert PredictsRun(t, q, Discerning(x));
    DiscerningFinishes(t, q, x);
    PredictsThisRun(t, q, Discerning(x));
    assert ListedItems(Discerning(x)) == OnlyItem(x);
    hide Discerning, KeysOf;
    OnlyItemCountsAll(KeysOf(d.rows), x);
    OnlyItemCountsAll(KeysOf(r.rows), x);
    assert key == (x, true) || key == (x, false) by { FlagIsEither(key); }
  }

  // ---- rearranged rows ----

  lemma {:induction false} KeepCounts(t: Table, v: Verdict, r: Row)
    ensures multiset(Keep(t, v))[r] == if VerdictOf(r) == v then multiset(t)[r] else 0
  {
    hide VerdictOf;
    if t != [] {
      KeepCounts(t[..|t| - 1], v, r);
      assert t == t[..|t| - 1] + [t[|t| - 1]];
    }
  }

  lemma KeepRearranged(a: Table, b: Table, v: Verdict)
    requires multiset(a) == multiset(b)
    ensures multiset(Keep(a, v)) == multiset(Keep(b, v)) && |Keep(a, v)| == |Keep(b, v)|
  {
    forall r ensures multiset(Keep(a, v))[r] == multiset(Keep(b, v))[r] {
      KeepCounts(a, v, r);
      KeepCounts(b, v, r);
    }
    assert |multiset(Keep(a, v))| == |Keep(a, v)| && |multiset(Keep(b, v))| == |Keep(b, v)|;
  }

  /** The verdict counts do not depend on the order of the rows. */
  lemma TallyRearranged(a: Table, b: Table)
    requires multiset(a) == multiset(b)
    ensures TallyOf(a) == TallyOf(b)
  {
    hide TallyOf, Keep;
    forall v ensures CountOf(TallyOf(a), v) == CountOf(TallyOf(b), v) {
      KeepRearranged(a, b, v);
      TallyCounts(a, v);
      TallyCounts(b, v);
    }
    SameCounters(TallyOf(a), TallyOf(b));
  }

  lemma SameCounters(c: Tally, d: Tally)
    requires forall v :: CountOf(c, v) == CountOf(d, v)
    ensures c == d
  {
    assert CountOf(c, Selectable) == CountOf(d, Selectable) && CountOf(c, SkipCompleted) == CountOf(d, SkipCompleted);
    assert CountOf(c, SkipMissingIdentity) == CountOf(d, SkipMissingIdentity) && CountOf(c, SkipKnown) == CountOf(d, SkipKnown);
    assert CountOf(c, SkipAmbiguous) == CountOf(d, SkipAmbiguous) && CountOf(c, SkipUnsupported) == CountOf(d, SkipUnsupported);
    assert CountOf(c, SkipPendingClassification) == CountOf(d, SkipPendingClassification);
  }

  lemma {:induction false} KeysRearranged(a: Table, b: Table)
    requires multiset(a) == multiset(b)
    ensures multiset(KeysOf(a)) == multiset(KeysOf(b))
    decreases |a|
  {
    hide KeyOf;
    if a == [] {
      assert |multiset(b)| == |b|;
    } else {
      var i := FirstElsewhere(a, b);
      KeysRearranged(a[1..], b[..i] + b[i + 1..]);
      assert KeysOf(a) == [KeyOf(a[0])] + KeysOf(a[1..]);
      assert KeysOf(b) == KeysOf(b[..i]) + [KeyOf(b[i])] + KeysOf(b[i + 1..]);
      assert KeysOf(b[..i] + b[i + 1..]) == KeysOf(b[..i]) + KeysOf(b[i + 1..]);
    }
  }

  lemma DistinctRowsRearranged(a: Table, b: Table)
    requires DistinctIds(a) && DistinctIds(b) && forall r :: r in a <==> r in b
    ensures multiset(a) == multiset(b)
  {
    forall r ensures multiset(a)[r] == multiset(b)[r] {
      CountedOnce(a, r);
      CountedOnce(b, r);
      assert (r in multiset(a) <==> r in a) && (r in multiset(b) <==> r in b);
    }
  }

  // ---- requests that name each row once ----

  /** The identifiers are those of the source's rows, all of them. */
  predicate NamesAll(t: Table, source: int, ids: seq<nat>) {
    && (forall id :: id in ids ==> HasId(OfSource(t, source), id))
    && (forall r :: r in OfSource(t, source) ==> r.id in ids)
  }

  lemma {:induction false} RequestedDistinct(t: Table, source: int, ids: seq<nat>)
    requires DistinctIds(t) && AllDifferent(ids)
    ensures DistinctIds(RequestedRows(t, source, ids))
  {
    if ids != [] {
      var n := |ids| - 1;
      RequestedDistinct(t, source, ids[..n]);
      RequestedRowsExist(t, source, ids[..n]);
      FindRowFinds(t, source, ids[n]);
      var before := RequestedRows(t, source, ids[..n]);
      forall k | 0 <= k < |before| ensures before[k].id != ids[n] {
        assert before[k] in before;
      }
    }
  }

  lemma {:induction false} RequestTallyFound(t: Table, source: int, ids: seq<nat>)
    requires forall id :: id in ids ==> FindRow(t, source, id).Some?
    ensures RequestTally(t, source, ids) == TallyOf(RequestedRows(t, source, ids))
  {
    hide VerdictOf, Bump;
    if ids != [] {
      var n := |ids| - 1;
      assert ids == ids[..n] + [ids[n]];
      RequestTallyFound(t, source, ids[..n]);
      KeepNext(RequestedRows(t, source, ids[..n]), FindRow(t, source, ids[n]).value);
    }
  }

  lemma {:induction false} UnknownIdIsCounted(t: Table, source: int, ids: seq<nat>, id: nat)
    requires id in ids && FindRow(t, source, id).None?
    ensures RequestTally(t, source, ids).missingIdentity > 0
  {
    hide VerdictOf;
    var n := |ids| - 1;
    assert ids == ids[..n] + [ids[n]];
    if id in ids[..n] { UnknownIdIsCounted(t, source, ids[..n], id); }
  }

  lemma FoundIffNamed(t: Table, source: int, id: nat)
    requires DistinctIds(t)
    ensures FindRow(t, source, id).Some? <==> HasId(OfSource(t, source), id)
  {
    FindRowFinds(t, source, id);
    OfSourceMembers(t, source);
    if HasId(OfSource(t, source), id) {
      var i :| 0 <= i < |OfSource(t, source)| && OfSource(t, source)[i].id == id;
      assert OfSource(t, source)[i] in OfSource(t, source);
    }
    if FindRow(t, source, id).Some? {
      var r := FindRow(t, source, id).value;
      assert r in OfSource(t, source);
      var i :| 0 <= i < |OfSource(t, source)| && OfSource(t, source)[i] == r;
    }
  }

  /** Rows that scans create always have an identity. */
  lemma NoneIsMissing(t: Table, source: int)
    requires Sound(t)
    ensures TallyOf(OrderedRows(t, source)).missingIdentity == 0
  {
    hide VerdictOf, OrderedRows, Strip;
    var rows := OrderedRows(t, source);
    TallyCounts(rows, SkipMissingIdentity);
    KeepMembers(rows, SkipMissingIdentity);
    OrderedRowsStored(t, source);
    if Keep(rows, SkipMissingIdentity) != [] {
      var r := Keep(rows, SkipMissingIdentity)[0];
      assert r in Keep(rows, SkipMissingIdentity);
      SoundIsIdentified(t, r);
    }
  }

  lemma SoundIsIdentified(t: Table, r: Row)
    requires Sound(t) && r in t
    ensures VerdictOf(r) != SkipMissingIdentity
  {
    var i :| 0 <= i < |t| && t[i] == r;
    assert SoundRow(t[i]);
    StripIsProjection(r.identity);
    assert Stripped(HELPER_ITEM_ID_BASIS);
    StripIsProjection(HELPER_ITEM_ID_BASIS);
    hide Strip;
  }

  function Elements(s: seq<nat>): set<nat> {
    set x | x in s
  }

  lemma {:induction false} ElementsOfDifferent(s: seq<nat>)
    requires AllDifferent(s)
    ensures |Elements(s)| == |s|
  {
    if s != [] {
      var n := |s| - 1;
      ElementsOfDifferent(s[..n]);
      assert Elements(s) == Elements(s[..n]) + {s[n]};
    }
  }

  lemma EqualSizeCovers<T>(a: set<T>, b: set<T>)
    requires a <= b && |a| == |b|
    ensures a == b
  {
    assert |b - a| == |b| - |a|;
  }

  /** As many different identifiers as there are rows, each of a row: then they are the identifiers of all rows. */
  lemma AsManyNamesAll(t: Table, source: int, ids: seq<nat>)
    requires DistinctIds(t) && AllDifferent(ids) && |ids| == |OfSource(t, source)|
    requires forall id :: id in ids ==> HasId(OfSource(t, source), id)
    ensures NamesAll(t, source, ids)
  {
    OfSourceMembers(t, source);
    var named := RowIds(OfSource(t, source));
    assert AllDifferent(named);
    ElementsOfDifferent(ids);
    ElementsOfDifferent(named);
    forall id | id in ids ensures id in named {
      var i :| 0 <= i < |OfSource(t, source)| && OfSource(t, source)[i].id == id;
      assert named[i] == id;
    }
    EqualSizeCovers(Elements(ids), Elements(named));
    forall r | r in OfSource(t, source) ensures r.id in ids {
      var i :| 0 <= i < |OfSource(t, source)| && OfSource(t, source)[i] == r;
      assert named[i] in named;
      assert r.id in Elements(named);
    }
  }

  /** A request for all rows finds them in another order. */
  lemma NamingAllRearranges(t: Table, source: int, ids: seq<nat>)
    requires DistinctIds(t) && AllDifferent(ids) && NamesAll(t, source, ids)
    ensures multiset(RequestedRows(t, source, ids)) == multiset(OrderedRows(t, source))
    ensures RequestTally(t, source, ids) == TallyOf(OrderedRows(t, source))
  {
    hide RequestedRows, OrderedRows, FindRow, DistinctIds, VerdictOf;
    var (a, b) := (RequestedRows(t, source, ids), OrderedRows(t, source));
    RequestedDistinct(t, source, ids);
    RequestedRowsExist(t, source, ids);
    RequestedRowsFound(t, source, ids);
    OrderedRowsMembers(t, source);
    OfSourceMembers(t, source);
    DistinctRowsRearranged(a, b);
    forall id | id in ids ensures FindRow(t, source, id).Some? { FoundIffNamed(t, source, id); }
    RequestTallyFound(t, source, ids);
    TallyRearranged(a, b);
  }

  /** The counts of the two selections agree only when the request names all rows and the limit takes all selectable ones. */
  lemma AgreementNamesAll(t: Table, source: int, limit: nat, ids: seq<nat>)
    requires Sound(t) && AllDifferent(ids)
    requires SelectRows(t, source, limit).tally == RequestTally(t, source, ids)
    requires |SelectRows(t, source, limit).rows| == |SelectRequested(t, source, ids).rows|
    ensures NamesAll(t, source, ids) && SelectRows(t, source, limit).tally.selectable <= limit
  {
    hide RequestedRows, OrderedRows, FindRow, VerdictOf, SoundRow, UniqueIdentities, Keep, TallyOf, RequestTally;
    SelectionIsPrefix(t, source, limit, limit);
    RequestTallyIsPartition(t, source, ids);
    TallyIsPartition(OrderedRows(t, source));
    SortSorts(OfSource(t, source), RowLeq);
    assert |OrderedRows(t, source)| == |OfSource(t, source)| by { OrderedRowsCount(t, source); }
    NoneIsMissing(t, source);
    forall id | id in ids ensures HasId(OfSource(t, source), id) {
      FoundIffNamed(t, source, id);
      if FindRow(t, source, id).None? { UnknownIdIsCounted(t, source, ids, id); }
    }
    AsManyNamesAll(t, source, ids);
  }

  lemma OrderedRowsCount(t: Table, source: int)
    ensures |OrderedRows(t, source)| == |OfSource(t, source)|
  {
    SortSorts(OfSource(t, source), RowLeq);
  }

  lemma NamingAllAgrees(t: Table, source: int, limit: nat, ids: seq<nat>)
    requires DistinctIds(t) && AllDifferent(ids) && NamesAll(t, source, ids)
    requires SelectRows(t, source, limit).tally.selectable <= limit
    ensures var (d, r) := (SelectRows(t, source, limit), SelectRequested(t, source, ids));
      d.tally == r.tally && multiset(d.rows) == multiset(r.rows)
  {
    hide RequestedRows, OrderedRows, FindRow, VerdictOf, Keep, TallyOf, RequestTally, NamesAll;
    NamingAllRearranges(t, source, ids);
    KeepRearranged(OrderedRows(t, source), RequestedRows(t, source, ids), Selectable);
    TallyCounts(OrderedRows(t, source), Selectable);
    assert SelectRows(t, source, limit).rows == Keep(OrderedRows(t, source), Selectable);
  }

  /**
   * On every reachable table, the dry run of a request for different identifiers predicts a run that finishes, whatever
   * the services answer, exactly when the identifiers are those of all rows of the source and the limit is no smaller than
   * the number of selectable ones.
   */
  lemma DryRunOfIdsPredictsIff(t: Table, q: Request, s: Services, ids: seq<nat>)
    requires Sound(t) && q.inventoryIds == Some(ids) && AllDifferent(ids) && Acquire(t, q, s).outcome.Finished?
    ensures PredictsRun(t, q, s) <==>
      NamesAll(t, q.source, ids) && SelectRows(t, q.source, q.acquireLimit).tally.selectable <= q.acquireLimit
  {
    hide PredictsRun, SelectRows, SelectRequested, NamesAll, SoundRow, UniqueIdentities;
    FinishedIsLimited(t, q, s);
    var (d, r) := (SelectRows(t, q.source, q.acquireLimit), SelectRequested(t, q.source, ids));
    PredictsThisRun(t, q, s);
    if PredictsRun(t, q, s) {
      assert r.tally == RequestTally(t, q.source, ids) by { RequestedTally(t, q.source, ids); }
      AgreementNamesAll(t, q.source, q.acquireLimit, ids);
    }
    if NamesAll(t, q.source, ids) && d.tally.selectable <= q.acquireLimit {
      NamingAllAgrees(t, q.source, q.acquireLimit, ids);
      KeysRearranged(d.rows, r.rows);
      CountRearranged(KeysOf(d.rows), KeysOf(r.rows), ListedItems(s));
      assert |multiset(d.rows)| == |d.rows| && |multiset(r.rows)| == |r.rows|;
    }
  }

  lemma RequestedTally(t: Table, source: int, ids: seq<nat>)
    ensures SelectRequested(t, source, ids).tally == RequestTally(t, source, ids)
  {
  }

  lemma FinishedIsLimited(t: Table, q: Request, s: Services)
    requires Acquire(t, q, s).outcome.Finished?
    ensures LimitError(q).None?
  {
  }

  // ---- a dry run that misleads ----

  function EligibleRow(id: nat, identity: string): Row {
    Row(id, 7, HELPER_ITEM_ID_BASIS, identity, 0,
        Observation(1, 5, 5, None, Some("2020"), Some("2020"), None, None, None, 1, false, false, [], ELIGIBLE, PENDING_CHECK),
        false, None, None, None, None, None, None, None, 0, None)
  }

  const TWO_ROWS := [EligibleRow(1, "a"), EligibleRow(2, "b")]
  const SECOND_ONLY := Request(7, 10, 100, false, Some([2]))

  lemma EligibleRowIsSelectable(id: nat, identity: string)
    requires Stripped(identity) && identity != ""
    ensures VerdictOf(EligibleRow(id, identity)) == Selectable
  {
    StripIsProjection(identity);
    assert Stripped(HELPER_ITEM_ID_BASIS) && Stripped(PENDING_CHECK) && Stripped(ELIGIBLE);
    StripIsProjection(HELPER_ITEM_ID_BASIS);
    StripIsProjection(PENDING_CHECK);
    StripIsProjection(ELIGIBLE);
    hide Strip;
  }

  lemma {:induction false} AllKept(t: Table)
    requires forall r :: r in t ==> VerdictOf(r) == Selectable
    ensures Keep(t, Selectable) == t
  {
    hide VerdictOf;
    if t != [] {
      assert t == t[..|t| - 1] + [t[|t| - 1]];
      AllKept(t[..|t| - 1]);
    }
  }

  lemma BothAreOfSource()
    ensures OfSource(TWO_ROWS, 7) == TWO_ROWS
  {
    assert TWO_ROWS[1..] == [EligibleRow(2, "b")] && TWO_ROWS[1..][1..] == [];
  }

  lemma BothAreSelectable()
    ensures |SelectRows(TWO_ROWS, 7, 10).rows| == 2
  {
    assert Stripped("a") && Stripped("b");
    hide VerdictOf, RowLeq, OfSource, EligibleRow, Keep, Stripped;
    EligibleRowIsSelectable(1, "a");
    EligibleRowIsSelectable(2, "b");
    BothAreOfSource();
    SortSorts(TWO_ROWS, RowLeq);
    AllKept(OrderedRows(TWO_ROWS, 7));
  }

  lemma SecondIsFound()
    ensures SelectRequested(TWO_ROWS, 7, [2]).rows == [EligibleRow(2, "b")]
  {
    EligibleRowIsSelectable(2, "b");
    hide VerdictOf;
    var (r, nobody) := (EligibleRow(2, "b"), []);
    assert TWO_ROWS[1..][0] == r;
    assert FindRow(TWO_ROWS, 7, 2) == Some(r);
    assert [2][..0] == nobody;
    assert RequestedRows(TWO_ROWS, 7, [2]) == [] + [r] == [r];
    AllKept([r]);
  }

  /**
   * A dry run can mislead: asked for the second of two rows it reports both as selected, and the run, on the same table
   * and the same answers, takes one.
   */
  lemma DryRunCanMislead(s: Services)
    requires Acquire(TWO_ROWS, SECOND_ONLY, s).outcome.Finished?
    ensures var p := PreviewOf(TWO_ROWS, SECOND_ONLY, s.sourceError, s.listing, false);
      var o := Acquire(TWO_ROWS, SECOND_ONLY, s).outcome;
      p.Previewed? && p.result.selectedInventory == 2 && o.result.selectedInventory == 1
    ensures !PredictsRun(TWO_ROWS, SECOND_ONLY, s)
  {
    hide PreviewOf, Acquire, SelectRows, SelectRequested, CountsOf;
    BothAreSelectable();
    SecondIsFound();
    FinishedIsLimited(TWO_ROWS, SECOND_ONLY, s);
    RunReports(TWO_ROWS, SECOND_ONLY, s);
    PreviewReports(TWO_ROWS, SECOND_ONLY, s);
  }
}
