/** What a metadata scan does to the inventory, as a function of the table and the listing. */
module Scan {
  import opened Text
  import opened Inventory
  import opened Session
  import opened Acquisition

  const MAX_SCAN_CANDIDATES := 100_000

  /** One scan: the listing the helper answered, the clock, the first free row identifier, Python's `casefold`. */
  datatype ScanCall = ScanCall(
    source: int,
    maxCandidates: int,
    sourceError: Option<string>,
    listing: ListingAnswer,
    now: Time,
    freeId: nat,
    casefold: string -> string)

  // ---- the columns taken from a listing item ----

  predicate Contains(text: string, part: string) {
    part <= text || (text != "" && Contains(text[1..], part))
  }

  predicate HasResource(rs: seq<Resource>, id: string) {
    exists k :: 0 <= k < |rs| && rs[k].resourceId == id
  }

  predicate LivePhoto(item: Item, casefold: string -> string) {
    Contains(casefold(item.grouping), "live_photo") || HasResource(item.resources, "live_photo_original")
  }

  /** The first resource called the primary original, or else the first resource. */
  function PrimaryResource(rs: seq<Resource>): Option<Resource> {
    if rs == [] then None
    else
      var named := FirstNamed(rs, "primary_original");
      if named.Some? then named else Some(rs[0])
  }

  function FirstNamed(rs: seq<Resource>, id: string): Option<Resource> {
    if rs == [] then None else if rs[0].resourceId == id then Some(rs[0]) else FirstNamed(rs[1..], id)
  }

  function EligibilityState(item: Item): string {
    if item.identityAmbiguous then AMBIGUOUS
    else if item.unsupportedReasons != [] then UNSUPPORTED
    else ELIGIBLE
  }

  function Observe(item: Item, position: nat, c: ScanCall): Observation {
    var primary := PrimaryResource(item.resources);
    Observation(position, c.now, c.now, Some(item.grouping), Some(item.createdAt), Some(item.addedAt),
      if primary.Some? then Some(primary.value.relativePath) else None,
      if primary.Some? then Some(primary.value.contentType) else None,
      if primary.Some? then primary.value.expectedSize else None,
      |item.resources|, LivePhoto(item, c.casefold), item.identityAmbiguous, item.unsupportedReasons,
      EligibilityState(item), PENDING_CHECK)
  }

  function NewRow(id: nat, identity: string, seen: Observation, c: ScanCall): Row {
    Row(id, c.source, HELPER_ITEM_ID_BASIS, identity, c.now, seen, false, None, None, None, None, None, None, None, 0, None)
  }

  // ---- the upserts ----

  predicate Matches(r: Row, source: int, identity: string) {
    r.sourceId == source && r.basis == HELPER_ITEM_ID_BASIS && r.identity == identity
  }

  /** The lookup query: it reads flushed rows only. */
  function Lookup(t: Table, source: int, identity: string): Option<Row> {
    if t == [] then None
    else if Matches(t[0], source, identity) then Some(t[0])
    else Lookup(t[1..], source, identity)
  }

  /** The session in the middle of a scan: the stored rows, the rows added and not yet flushed, the counters. */
  datatype Scanning = Scanning(rows: Table, added: Table, seen: set<string>, created: nat, updated: nat, blank: bool)

  function Seen(seen: Observation): Row -> Row {
    (r: Row) => r.(seen := seen)
  }

  function Upsert(st: Scanning, item: Item, position: nat, c: ScanCall): Scanning {
    var identity := Strip(item.itemId);
    var found := Lookup(st.rows, c.source, identity);
    var seen := Observe(item, position, c);
    if found.Some? then st.(rows := UpdateRow(st.rows, found.value.id, Seen(seen)), updated := st.updated + 1)
    else st.(added := st.added + [NewRow(c.freeId + |st.added|, identity, seen, c)], created := st.created + 1)
  }

  /** The scan loop over a listing; an item without an identity stops it. */
  function ScanItems(t: Table, c: ScanCall, items: seq<Item>): Scanning {
    if items == [] then Scanning(t, [], {}, 0, 0, false)
    else
      var n := |items| - 1;
      ScanNext(ScanItems(t, c, items[..n]), items[n], n + 1, c)
  }

  function ScanNext(st: Scanning, item: Item, position: nat, c: ScanCall): Scanning {
    var identity := Strip(item.itemId);
    if st.blank || identity in st.seen then st
    else if identity == "" then st.(blank := true)
    else Upsert(st.(seen := st.seen + {identity}), item, position, c)
  }

  // ---- the scan ----

  datatype ScanOutcome = ScanRaised(code: string) | Scanned(scanned: nat, created: nat, updated: nat)

  datatype ScanEffect = ScanEffect(commits: seq<Table>, outcome: ScanOutcome)
  {
    function Final(t: Table): Table {
      if commits == [] then t else commits[|commits| - 1]
    }
  }

  /** A scan commits once, at the end, or not at all; the flush fails if the uniqueness constraint does not hold. */
  function ScanRun(t: Table, c: ScanCall): ScanEffect {
    if c.maxCandidates < 1 || c.maxCandidates > MAX_SCAN_CANDIDATES then ScanEffect([], ScanRaised("invalid_max_candidates"))
    else if c.sourceError.Some? then ScanEffect([], ScanRaised(c.sourceError.value))
    else if c.listing.ListingRaised? then ScanEffect([], ScanRaised(c.listing.code))
    else
      var st := ScanItems(t, c, c.listing.items);
      if st.blank then ScanEffect([], ScanRaised("remote_identity_missing"))
      else if !UniqueIdentities(st.rows + st.added) then ScanEffect([], ScanRaised("integrity_error"))
      else ScanEffect([st.rows + st.added], Scanned(|c.listing.items|, st.created, st.updated))
  }
}
