/** The controlled fixture set: what one generation run does to its directory, file operation by file operation. */
module FixtureWriter {
  import opened Text

  type Bytes = seq<bv8>

  // ---- deterministic media bytes ----

  /** The stream of hash blocks, `block(counter)` being the digest of the seed and the counter. */
  method DeterministicBytes(block: nat -> Bytes, length: nat) returns (output: Bytes)
    requires forall c :: |block(c)| == 32
    ensures |output| == length
    ensures forall k :: 0 <= k < length ==> output[k] == block(k / 32)[k % 32]
  {
    output := [];
    var counter := 0;
    while |output| < length
      invariant |output| == 32 * counter
      invariant forall k :: 0 <= k < |output| ==> output[k] == block(k / 32)[k % 32]
      decreases length - |output|
    {
      var more := block(counter);
      forall k | |output| <= k < |output| + 32 ensures k / 32 == counter && k % 32 == k - |output| {
      }
      output := output + more;
      counter := counter + 1;
    }
    output := output[..length];
  }

  // ---- the directory ----

  datatype Entry = File(content: Bytes) | Directory | Symlink | Special

  datatype Root = Missing | Folder | NotAFolder

  /** The fixture root: its own kind, the entries directly in it, and the entries of its `source` directory. */
  datatype Tree = Tree(root: Root, top: map<string, Entry>, source: map<string, Entry>)

  datatype Place = Place(inSource: bool, name: string)

  const SOURCE := "source"
  const MANIFEST := "fixture_manifest.json"
  const BOUNDARY := "compose.fixture.override.yml"

  const MANAGED: seq<Place> :=
    [Place(true, "unique_a.jpg"), Place(true, "unique_a_duplicate.jpg"), Place(true, "unique_b.jpg"),
     Place(true, "preview_source.tiff"), Place(false, MANIFEST)]

  /** Where a file is written before it is moved into place. */
  function Temporary(p: Place): Place {
    Place(p.inSource, "." + p.name + ".m005-tmp")
  }

  function Get(t: Tree, p: Place): Option<Entry> {
    var entries := if p.inSource then t.source else t.top;
    if p.name in entries then Some(entries[p.name]) else None
  }

  function Put(t: Tree, p: Place, e: Entry): Tree {
    if p.inSource then t.(source := t.source[p.name := e]) else t.(top := t.top[p.name := e])
  }

  function Remove(t: Tree, p: Place): Tree {
    if p.inSource then t.(source := t.source - {p.name}) else t.(top := t.top - {p.name})
  }

  // ---- the checks before anything is written ----

  predicate Permitted(name: string) {
    name == SOURCE || name == MANIFEST || name == BOUNDARY
  }

  /** Nothing unexpected is there, and everything expected has the right kind. */
  predicate Inspectable(t: Tree) {
    t.root == Missing ||
    (&& t.root == Folder
     && (forall name :: name in t.top ==> Permitted(name) && !t.top[name].Symlink?)
     && (BOUNDARY in t.top ==> t.top[BOUNDARY].File?)
     && (SOURCE in t.top ==> t.top[SOURCE].Directory?)
     && (SOURCE in t.top ==> forall name :: name in t.source ==> Place(true, name) in MANAGED && t.source[name].File?)
     && (MANIFEST in t.top ==> t.top[MANIFEST].File?))
  }

  /** A directory that does not exist holds nothing. */
  predicate WellFormed(t: Tree) {
    && (t.root != Folder ==> t.top == map[])
    && (SOURCE !in t.top || !t.top[SOURCE].Directory? ==> t.source == map[])
  }

  /** The managed files that exist. */
  function Existing(t: Tree): set<Place> {
    set p | p in MANAGED && Get(t, p).Some?
  }

  /** The managed files may be written: none exists, or all exist, match, and replacing them was asked for. */
  predicate MayWrite(t: Tree, payload: Place -> Bytes, replaceKnown: bool) {
    || Existing(t) == {}
    || (replaceKnown && forall p :: p in MANAGED ==> Get(t, p) == Some(File(payload(p))))
  }

  // ---- the writes ----

  /** Both directories exist. */
  function MakeDirectories(t: Tree): Tree {
    var rooted := t.(root := Folder);
    if SOURCE in t.top then rooted else rooted.(top := t.top[SOURCE := Directory])
  }

  /** One file: its temporary file grows, then replaces the destination in one operation. */
  function WriteStates(t: Tree, p: Place, content: Bytes): seq<Tree> {
    seq(|content| + 1, n requires 0 <= n <= |content| => Put(t, Temporary(p), File(content[..n]))) + [Put(t, p, File(content))]
  }

  /** All states while the listed files are written one after the other. */
  function AllStates(t: Tree, places: seq<Place>, payload: Place -> Bytes): seq<Tree>
    decreases |places|
  {
    if places == [] then []
    else
      var n := |places| - 1;
      AllStates(t, places[..n], payload) + WriteStates(After(t, places[..n], payload), places[n], payload(places[n]))
  }

  function After(t: Tree, places: seq<Place>, payload: Place -> Bytes): Tree
    decreases |places|
  {
    if places == [] then t
    else
      var n := |places| - 1;
      Put(After(t, places[..n], payload), places[n], File(payload(places[n])))
  }

  /** What a run does: every state of the directory from its start on, and whether it succeeds. */
  datatype Generation = Generation(states: seq<Tree>, succeeded: bool)

  /** `refused` stands for the checks of the root path and of the media sizes, which come first. */
  function Generate(t: Tree, payload: Place -> Bytes, replaceKnown: bool, refused: bool): Generation {
    if refused || !Inspectable(t) || !MayWrite(t, payload, replaceKnown) then Generation([t], false)
    else
      var ready := MakeDirectories(t);
      Generation([t, t.(root := Folder), ready] + AllStates(ready, MANAGED, payload), true)
  }

  function Final(g: Generation, t: Tree): Tree {
    if g.states == [] then t else g.states[|g.states| - 1]
  }

  // ---- names ----

  lemma ManagedNames(p: Place)
    requires p in MANAGED
    ensures p.name != "" && p.name[0] != '.' && p.name != SOURCE && p.name != BOUNDARY
    ensures !p.inSource ==> p.name == MANIFEST
    ensures p.inSource ==> Place(true, p.name) in MANAGED
  {
    assert MANAGED[0] == Place(true, "unique_a.jpg");
  }

  lemma TemporaryNames(p: Place)
    ensures Temporary(p).name[0] == '.' && !Permitted(Temporary(p).name)
    ensures Temporary(p) !in MANAGED
  {
    if Temporary(p) in MANAGED { ManagedNames(Temporary(p)); }
  }

  lemma GetPut(t: Tree, p: Place, e: Entry, q: Place)
    ensures Get(Put(t, p, e), q) == if q == p then Some(e) else Get(t, q)
  {
  }

  // ---- every state of the writes ----

  /** `s` shows at every place what `t` shows, but for managed files already written and temporary files. */
  ghost predicate PartWritten(t: Tree, s: Tree, payload: Place -> Bytes) {
    && s.root == t.root
    && (forall p :: p in MANAGED ==> Get(s, p) == Get(t, p) || Get(s, p) == Some(File(payload(p))))
    && (forall q :: q !in MANAGED && (forall p :: p in MANAGED ==> q != Temporary(p)) ==> Get(s, q) == Get(t, q))
  }

  lemma ExtraTemporary(t: Tree, s: Tree, payload: Place -> Bytes, p: Place, e: Entry)
    requires PartWritten(t, s, payload) && p in MANAGED
    ensures PartWritten(t, Put(s, Temporary(p), e), payload)
  {
    hide Get;
    var u := Put(s, Temporary(p), e);
    TemporaryNames(p);
    forall q ensures Get(u, q) == if q == Temporary(p) then Some(e) else Get(s, q) { GetPut(s, Temporary(p), e, q); }
  }

  lemma OneWritten(t: Tree, s: Tree, payload: Place -> Bytes, p: Place)
    requires PartWritten(t, s, payload) && p in MANAGED
    ensures PartWritten(t, Put(s, p, File(payload(p))), payload)
  {
    hide Get;
    var u := Put(s, p, File(payload(p)));
    forall q ensures Get(u, q) == if q == p then Some(File(payload(p))) else Get(s, q) { GetPut(s, p, File(payload(p)), q); }
  }

  lemma {:induction false} StatesArePartWritten(t: Tree, places: seq<Place>, payload: Place -> Bytes)
    requires forall p :: p in places ==> p in MANAGED
    ensures PartWritten(t, After(t, places, payload), payload)
    ensures forall s :: s in AllStates(t, places, payload) ==> PartWritten(t, s, payload)
    decreases |places|
  {
    hide PartWritten, Put;
    if places == [] {
      NothingWritten(t, payload);
    } else {
      var n := |places| - 1;
      var before := After(t, places[..n], payload);
      StatesArePartWritten(t, places[..n], payload);
      OneWritten(t, before, payload, places[n]);
      forall s | s in WriteStates(before, places[n], payload(places[n])) ensures PartWritten(t, s, payload) {
        WriteState(t, before, payload, places[n], s);
      }
    }
  }

  lemma NothingWritten(t: Tree, payload: Place -> Bytes)
    ensures PartWritten(t, t, payload)
  {
  }

  lemma WriteState(t: Tree, before: Tree, payload: Place -> Bytes, p: Place, s: Tree)
    requires PartWritten(t, before, payload) && p in MANAGED && s in WriteStates(before, p, payload(p))
    ensures PartWritten(t, s, payload)
  {
    hide PartWritten, Put;
    var content := payload(p);
    var i :| 0 <= i < |WriteStates(before, p, content)| && WriteStates(before, p, content)[i] == s;
    if i <= |content| {
      ExtraTemporary(t, before, payload, p, File(content[..i]));
    } else {
      OneWritten(t, before, payload, p);
    }
  }

  // ---- crash safety ----

  lemma DirectoriesKeepFiles(t: Tree, p: Place)
    requires p in MANAGED
    ensures Get(MakeDirectories(t), p) == Get(t, p) && Get(t.(root := Folder), p) == Get(t, p)
  {
    ManagedNames(p);
  }

  /**
   * Whatever the state a run starts from, and wherever it stops, each managed file is as it was before the run or holds
   * exactly its expected bytes; a file that holds anything else is never touched.
   */
  lemma CrashSafe(t: Tree, payload: Place -> Bytes, replaceKnown: bool, refused: bool, s: Tree, p: Place)
    requires s in Generate(t, payload, replaceKnown, refused).states && p in MANAGED
    ensures Get(s, p) == Get(t, p) || Get(s, p) == Some(File(payload(p)))
    ensures Get(t, p).Some? && Get(t, p) != Some(File(payload(p))) ==> Get(s, p) == Get(t, p)
  {
    hide Get, Inspectable, MakeDirectories, AllStates;
    var ready := MakeDirectories(t);
    DirectoriesKeepFiles(t, p);
    StatesArePartWritten(ready, MANAGED, payload);
    assert Get(t, p).Some? ==> p in Existing(t);
  }

  // ---- a second run ----

  predicate AllWritten(t: Tree, payload: Place -> Bytes) {
    forall p :: p in MANAGED ==> Get(t, p) == Some(File(payload(p)))
  }

  lemma {:induction false} WrittenAfter(t: Tree, places: seq<Place>, payload: Place -> Bytes, p: Place)
    requires p in places
    ensures Get(After(t, places, payload), p) == Some(File(payload(p)))
    decreases |places|
  {
    hide Get, Put;
    var n := |places| - 1;
    GetPut(After(t, places[..n], payload), places[n], File(payload(places[n])), p);
    if p != places[n] { WrittenAfter(t, places[..n], payload, p); }
  }

  /** Writing what is already there changes nothing. */
  lemma {:induction false} RewritingKeeps(t: Tree, places: seq<Place>, payload: Place -> Bytes)
    requires forall p :: p in places ==> Get(t, p) == Some(File(payload(p)))
    ensures After(t, places, payload) == t
    decreases |places|
  {
    if places != [] {
      var n := |places| - 1;
      RewritingKeeps(t, places[..n], payload);
      assert Get(t, places[n]) == Some(File(payload(places[n])));
    }
  }

  /** Directories ready, nothing unexpected and no temporary file. */
  predicate Clean(t: Tree) {
    t.root == Folder && SOURCE in t.top && Inspectable(t)
  }

  lemma ReadyIsClean(t: Tree)
    requires Inspectable(t) && WellFormed(t)
    ensures Clean(MakeDirectories(t))
  {
  }

  ghost predicate NoTemporaries(t: Tree) {
    forall p :: p in MANAGED ==> Get(t, Temporary(p)).None?
  }

  lemma PermittedTop(t: Tree, s: Tree, payload: Place -> Bytes, name: string)
    requires Clean(t) && PartWritten(t, s, payload) && NoTemporaries(s) && name in s.top
    ensures Permitted(name) && !s.top[name].Symlink?
    ensures name != MANIFEST ==> name in t.top && s.top[name] == t.top[name]
    ensures name == MANIFEST ==> s.top[name].File?
  {
    var q := Place(false, name);
    assert Get(s, q) == Some(s.top[name]);
    if q in MANAGED {
      ManagedNames(q);
      assert MANIFEST in t.top ==> t.top[MANIFEST].File?;
    } else {
      assert MANAGED[4] == Place(false, MANIFEST);
      assert Get(s, q) == Get(t, q);
    }
  }

  lemma PermittedSource(t: Tree, s: Tree, payload: Place -> Bytes, name: string)
    requires Clean(t) && PartWritten(t, s, payload) && NoTemporaries(s) && name in s.source
    ensures Place(true, name) in MANAGED && s.source[name].File?
  {
    var q := Place(true, name);
    assert Get(s, q) == Some(s.source[name]);
  }

  /** Part-written states pass the inspection exactly when no temporary file is left. */
  lemma InspectableIff(t: Tree, s: Tree, payload: Place -> Bytes)
    requires Clean(t) && PartWritten(t, s, payload)
    ensures Inspectable(s) <==> NoTemporaries(s)
    ensures SOURCE in s.top
  {
    SourceStays(t, s, payload);
    if NoTemporaries(s) {
      forall name | name in s.top ensures Permitted(name) && !s.top[name].Symlink? { PermittedTop(t, s, payload, name); }
      forall name | name in s.source ensures Place(true, name) in MANAGED && s.source[name].File? {
        PermittedSource(t, s, payload, name);
      }
      if BOUNDARY in s.top { PermittedTop(t, s, payload, BOUNDARY); }
      if MANIFEST in s.top { PermittedTop(t, s, payload, MANIFEST); }
    } else {
      var p :| p in MANAGED && Get(s, Temporary(p)).Some?;
      TemporaryNames(p);
    }
  }

  lemma SourceStays(t: Tree, s: Tree, payload: Place -> Bytes)
    requires Clean(t) && PartWritten(t, s, payload)
    ensures SOURCE in s.top && s.top[SOURCE] == t.top[SOURCE]
  {
    var q := Place(false, SOURCE);
    if q in MANAGED { ManagedNames(q); }
    forall p | p in MANAGED ensures q != Temporary(p) { TemporaryNames(p); }
    assert Get(s, q) == Get(t, q);
  }

  /** The bytes that exist are the expected ones, so only completeness is left to ask. */
  lemma MayWriteIff(s: Tree, payload: Place -> Bytes)
    requires forall p :: p in MANAGED ==> Get(s, p).None? || Get(s, p) == Some(File(payload(p)))
    ensures MayWrite(s, payload, true) <==> Existing(s) == {} || forall p :: p in MANAGED ==> p in Existing(s)
  {
  }

  lemma MayWriteMatches(t: Tree, payload: Place -> Bytes, replaceKnown: bool, p: Place)
    requires MayWrite(t, payload, replaceKnown) && p in MANAGED
    ensures Get(t, p).None? || Get(t, p) == Some(File(payload(p)))
  {
    assert Get(t, p).Some? ==> p in Existing(t);
  }

  ghost predicate Complete(t: Tree) {
    forall p :: p in MANAGED ==> p in Existing(t)
  }

  /** The states before the first write: the one the run started from, and those while it makes the directories. */
  lemma RecoverableEarly(t: Tree, payload: Place -> Bytes, replaceKnown: bool, s: Tree)
    requires WellFormed(t) && Inspectable(t) && MayWrite(t, payload, replaceKnown)
    requires s == t || s == t.(root := Folder) || s == MakeDirectories(t)
    ensures Inspectable(s) && NoTemporaries(s) && MayWrite(s, payload, true)
  {
    forall p | p in MANAGED ensures Get(s, p) == Get(t, p) { DirectoriesKeepFiles(t, p); }
    assert Existing(s) == Existing(t);
    InspectableEarly(t, s);
    hide MakeDirectories;
    forall p | p in MANAGED ensures Get(s, Temporary(p)).None? { TemporaryNames(p); }
  }

  lemma InspectableEarly(t: Tree, s: Tree)
    requires WellFormed(t) && Inspectable(t) && (s == t || s == t.(root := Folder) || s == MakeDirectories(t))
    ensures Inspectable(s) && WellFormed(s)
  {
  }

  lemma RecoverableLater(t: Tree, payload: Place -> Bytes, replaceKnown: bool, s: Tree)
    requires WellFormed(t) && Inspectable(t) && MayWrite(t, payload, replaceKnown)
    requires s in AllStates(MakeDirectories(t), MANAGED, payload)
    ensures Inspectable(s) && MayWrite(s, payload, true) <==> NoTemporaries(s) && (Existing(s) == {} || Complete(s))
  {
    hide Get, Inspectable, MakeDirectories, AllStates, MayWrite, NoTemporaries, WellFormed, PartWritten, Existing, Clean;
    var ready := MakeDirectories(t);
    ReadyIsClean(t);
    StatesArePartWritten(ready, MANAGED, payload);
    InspectableIff(ready, s, payload);
    forall p | p in MANAGED ensures Get(s, p).None? || Get(s, p) == Some(File(payload(p))) {
      MayWriteMatches(t, payload, replaceKnown, p);
      DirectoriesKeepFiles(t, p);
      PartWrittenAt(ready, s, payload, p);
    }
    MayWriteIff(s, payload);
  }

  /**
   * After a crash at any point of a run that had passed its checks, before or during its writes, a new run with
   * `replace-known` succeeds exactly when the crash left no temporary file behind and either none or all of the managed
   * files.
   */
  lemma RecoverableIff(t: Tree, payload: Place -> Bytes, replaceKnown: bool, s: Tree)
    requires WellFormed(t) && Generate(t, payload, replaceKnown, false).succeeded
    requires s in Generate(t, payload, replaceKnown, false).states
    ensures Generate(s, payload, true, false).succeeded <==> NoTemporaries(s) && (Existing(s) == {} || Complete(s))
  {
    hide Get, Inspectable, MakeDirectories, AllStates, MayWrite, NoTemporaries, WellFormed, Existing;
    if s in AllStates(MakeDirectories(t), MANAGED, payload) {
      RecoverableLater(t, payload, replaceKnown, s);
    } else {
      RecoverableEarly(t, payload, replaceKnown, s);
      ExistingIsAllOrNone(s, payload);
    }
  }

  lemma ExistingIsAllOrNone(s: Tree, payload: Place -> Bytes)
    requires MayWrite(s, payload, true)
    ensures Existing(s) == {} || Complete(s)
  {
  }

  lemma PartWrittenAt(t: Tree, s: Tree, payload: Place -> Bytes, p: Place)
    requires PartWritten(t, s, payload) && p in MANAGED
    ensures Get(s, p) == Get(t, p) || Get(s, p) == Some(File(payload(p)))
  {
  }

  lemma {:induction false} LastState(t: Tree, places: seq<Place>, payload: Place -> Bytes)
    requires places != []
    ensures AllStates(t, places, payload) != []
    ensures AllStates(t, places, payload)[|AllStates(t, places, payload)| - 1] == After(t, places, payload)
  {
    hide Put;
  }

  lemma {:induction false} TemporariesGone(t: Tree, places: seq<Place>, payload: Place -> Bytes, p: Place)
    requires forall q :: q in places ==> q in MANAGED
    requires p in MANAGED && Get(t, Temporary(p)).None?
    ensures Get(After(t, places, payload), Temporary(p)).None?
    decreases |places|
  {
    hide Get, Put;
    if places != [] {
      var n := |places| - 1;
      TemporariesGone(t, places[..n], payload, p);
      TemporaryNames(p);
      GetPut(After(t, places[..n], payload), places[n], File(payload(places[n])), Temporary(p));
    }
  }

  lemma CleanHasNoTemporaries(t: Tree)
    requires Clean(t)
    ensures NoTemporaries(t)
  {
    forall p | p in MANAGED ensures Get(t, Temporary(p)).None? { TemporaryNames(p); }
  }

  /** The written directory is clean and complete. */
  lemma FinishedIsReady(t: Tree, payload: Place -> Bytes)
    requires Clean(t)
    ensures var done := After(t, MANAGED, payload);
      && Inspectable(done) && AllWritten(done, payload)
      && done.root == Folder && SOURCE in done.top
  {
    hide Get, Clean, After, NoTemporaries, Inspectable, PartWritten;
    var done := After(t, MANAGED, payload);
    StatesArePartWritten(t, MANAGED, payload);
    InspectableIff(t, done, payload);
    CleanHasNoTemporaries(t);
    StaysClean(t, payload);
    forall p | p in MANAGED ensures Get(done, p) == Some(File(payload(p))) { WrittenAfter(t, MANAGED, payload, p); }
    RootStays(t, done, payload);
  }

  lemma RootStays(t: Tree, s: Tree, payload: Place -> Bytes)
    requires Clean(t) && PartWritten(t, s, payload)
    ensures s.root == Folder
  {
  }

  lemma StaysClean(t: Tree, payload: Place -> Bytes)
    requires NoTemporaries(t)
    ensures NoTemporaries(After(t, MANAGED, payload))
  {
    hide After, Get;
    forall p | p in MANAGED ensures Get(After(t, MANAGED, payload), Temporary(p)).None? {
      TemporariesGone(t, MANAGED, payload, p);
    }
  }

  /** A successful run leaves the complete set, and running again with `replace-known` succeeds and changes nothing. */
  lemma RerunChangesNothing(t: Tree, payload: Place -> Bytes, replaceKnown: bool)
    requires WellFormed(t) && Generate(t, payload, replaceKnown, false).succeeded
    ensures var first := Generate(t, payload, replaceKnown, false);
      var done := Final(first, t);
      var second := Generate(done, payload, true, false);
      AllWritten(done, payload) && second.succeeded && Final(second, done) == done
  {
    hide Get, Inspectable, AllStates, After, Existing, WellFormed, Clean, Put;
    var ready := MakeDirectories(t);
    ReadyIsClean(t);
    LastState(ready, MANAGED, payload);
    FinishedIsReady(ready, payload);
    var done := After(ready, MANAGED, payload);
    LastState(done, MANAGED, payload);
    assert MakeDirectories(done) == done;
    RewritingKeeps(done, MANAGED, payload);
  }

  /**
   * The protection of what is there: once the complete set has been written, a run without `replace-known` is refused and
   * changes nothing.
   */
  lemma CompleteSetIsProtected(t: Tree, payload: Place -> Bytes, replaceKnown: bool, other: Place -> Bytes)
    requires WellFormed(t) && Generate(t, payload, replaceKnown, false).succeeded
    ensures var done := Final(Generate(t, payload, replaceKnown, false), t);
      !Generate(done, other, false, false).succeeded && Generate(done, other, false, false).states == [done]
  {
    hide Get, Inspectable, AllStates;
    RerunChangesNothing(t, payload, replaceKnown);
    var done := Final(Generate(t, payload, replaceKnown, false), t);
    assert MANAGED[0] in Existing(done);
  }

  const MEDIA := {"unique_a.jpg", "unique_a_duplicate.jpg", "unique_b.jpg", "preview_source.tiff"}

  /** Each entry of the root is one of three, of the right kind, and `source` holds media files only. */
  predicate OnlyExpected(t: Tree) {
    && (forall name :: name in t.top ==>
          || (name == "source" && t.top[name] == Directory)
          || (name in {"fixture_manifest.json", "compose.fixture.override.yml"} && t.top[name].File?))
    && (forall name :: name in t.source ==> name in MEDIA && t.source[name].File?)
  }

  lemma MediaAreManaged(name: string)
    ensures Place(true, name) in MANAGED <==> name in MEDIA
  {
    assert MANAGED[0].name == "unique_a.jpg" && MANAGED[1].name == "unique_a_duplicate.jpg";
    assert MANAGED[2].name == "unique_b.jpg" && MANAGED[3].name == "preview_source.tiff" && !MANAGED[4].inSource;
  }

  lemma InspectableMeans(t: Tree)
    requires WellFormed(t)
    ensures Inspectable(t) <==> t.root == Missing || (t.root == Folder && OnlyExpected(t))
  {
    forall name ensures Place(true, name) in MANAGED <==> name in MEDIA { MediaAreManaged(name); }
    assert SOURCE[0] == 's' && MANIFEST[0] == 'f' && BOUNDARY[0] == 'c';
    if Inspectable(t) && t.root == Folder {
      forall name | name in t.top
        ensures || (name == "source" && t.top[name] == Directory)
                || (name in {"fixture_manifest.json", "compose.fixture.override.yml"} && t.top[name].File?)
      {
        assert Permitted(name);
      }
    }
  }

  /**
   * What a run may write over: no root, or a root with nothing unexpected in it, in which no managed file exists, or all of
   * them do with exactly the expected bytes and replacing was asked for. A refused run changes nothing.
   */
  lemma GenerateSucceedsIff(t: Tree, payload: Place -> Bytes, replaceKnown: bool, refused: bool)
    requires WellFormed(t)
    ensures var g := Generate(t, payload, replaceKnown, refused);
      && (g.succeeded <==>
            && !refused && (t.root == Missing || (t.root == Folder && OnlyExpected(t)))
            && ((forall p :: p in MANAGED ==> Get(t, p).None?) ||
                (replaceKnown && forall p :: p in MANAGED ==> Get(t, p) == Some(File(payload(p))))))
      && (!g.succeeded ==> g.states == [t])
  {
    hide Get, Inspectable, AllStates, MakeDirectories, OnlyExpected, WellFormed;
    InspectableMeans(t);
    if Existing(t) == {} {
      forall p | p in MANAGED ensures Get(t, p).None? {
        assert p !in Existing(t);
      }
    }
  }

  // ---- replacement ----

  /** Where two states in a row differ in a managed file, its temporary file held the new content. */
  ghost predicate ReplacesWhole(before: Tree, after: Tree, payload: Place -> Bytes) {
    forall p :: p in MANAGED && Get(after, p) != Get(before, p) ==>
      Get(before, Temporary(p)) == Some(File(payload(p))) && Get(after, p) == Some(File(payload(p)))
  }

  ghost predicate ReplacesAll(states: seq<Tree>, payload: Place -> Bytes) {
    forall n :: 0 < n < |states| ==> ReplacesWhole(states[n - 1], states[n], payload)
  }

  /** A growing temporary file leaves every managed file alone. */
  lemma GrowingKeeps(t: Tree, p: Place, content: Bytes, q: Place)
    requires p in MANAGED && q in MANAGED
    ensures Get(Put(t, Temporary(p), File(content)), q) == Get(t, q)
  {
    TemporaryNames(p);
    hide Get, Put;
    GetPut(t, Temporary(p), File(content), q);
  }

  /** The last step of a write: the temporary file is whole, and replaces its destination alone. */
  lemma LastWrite(t: Tree, p: Place, payload: Place -> Bytes)
    requires p in MANAGED
    ensures ReplacesWhole(Put(t, Temporary(p), File(payload(p))), Put(t, p, File(payload(p))), payload)
  {
    hide Get, Put;
    var content := payload(p);
    forall q | q in MANAGED && q != p
      ensures Get(Put(t, p, File(content)), q) == Get(Put(t, Temporary(p), File(content)), q)
    {
      GrowingKeeps(t, p, content, q);
      GetPut(t, p, File(content), q);
    }
    GetPut(t, Temporary(p), File(content), Temporary(p));
    GetPut(t, p, File(content), p);
  }

  lemma WriteReplaces(t: Tree, p: Place, payload: Place -> Bytes)
    requires p in MANAGED
    ensures ReplacesAll([t] + WriteStates(t, p, payload(p)), payload)
  {
    hide Get, Put;
    var content := payload(p);
    var states := [t] + WriteStates(t, p, content);
    forall n | 0 < n < |states| ensures ReplacesWhole(states[n - 1], states[n], payload) {
      if n <= |content| + 1 {
        assert states[n] == Put(t, Temporary(p), File(content[..n - 1]));
        assert n > 1 ==> states[n - 1] == Put(t, Temporary(p), File(content[..n - 2]));
        forall q | q in MANAGED ensures Get(states[n], q) == Get(t, q) && Get(states[n - 1], q) == Get(t, q) {
          GrowingKeeps(t, p, content[..n - 1], q);
          if n > 1 { GrowingKeeps(t, p, content[..n - 2], q); }
        }
      } else {
        assert content[..|content|] == content;
        LastWrite(t, p, payload);
      }
    }
  }

  lemma ReplacementsJoin(a: seq<Tree>, b: seq<Tree>, payload: Place -> Bytes)
    requires a != [] && ReplacesAll(a, payload) && ReplacesAll([a[|a| - 1]] + b, payload)
    ensures ReplacesAll(a + b, payload)
  {
    hide ReplacesWhole;
    var tail := [a[|a| - 1]] + b;
    forall n | 0 < n < |a + b| ensures ReplacesWhole((a + b)[n - 1], (a + b)[n], payload) {
      if n >= |a| { assert (a + b)[n] == tail[n - |a| + 1] && (a + b)[n - 1] == tail[n - |a|]; }
    }
  }

  lemma {:induction false} AllStatesReplace(t: Tree, places: seq<Place>, payload: Place -> Bytes)
    requires forall p :: p in places ==> p in MANAGED
    ensures ReplacesAll([t] + AllStates(t, places, payload), payload)
    decreases |places|
  {
    hide ReplacesAll, WriteStates, Put;
    if places == [] {
      NoReplacement(t, payload);
    } else {
      var n := |places| - 1;
      var before := After(t, places[..n], payload);
      AllStatesReplace(t, places[..n], payload);
      WriteReplaces(before, places[n], payload);
      if n > 0 { LastState(t, places[..n], payload); }
      var a := [t] + AllStates(t, places[..n], payload);
      assert a[|a| - 1] == before;
      ReplacementsJoin(a, WriteStates(before, places[n], payload(places[n])), payload);
      assert [t] + AllStates(t, places, payload) == a + WriteStates(before, places[n], payload(places[n]));
    }
  }

  lemma NoReplacement(t: Tree, payload: Place -> Bytes)
    ensures ReplacesAll([t] + AllStates(t, [], payload), payload)
  {
  }

  /**
   * Replacement is whole: wherever two consecutive states of a run differ in a managed file, the earlier one has the new
   * content, complete, in the file's temporary file.
   */
  lemma FilesAreReplacedWhole(t: Tree, payload: Place -> Bytes, replaceKnown: bool, refused: bool)
    ensures ReplacesAll(Generate(t, payload, replaceKnown, refused).states, payload)
  {
    hide Get, Inspectable, MakeDirectories, AllStates, MayWrite;
    var ready := MakeDirectories(t);
    if Generate(t, payload, replaceKnown, refused).succeeded {
      AllStatesReplace(ready, MANAGED, payload);
      var start := [t, t.(root := Folder), ready];
      forall p | p in MANAGED
        ensures Get(ready, p) == Get(t, p) && Get(t.(root := Folder), p) == Get(t, p)
      {
        DirectoriesKeepFiles(t, p);
      }
      assert ReplacesAll(start, payload);
      ReplacementsJoin(start, AllStates(ready, MANAGED, payload), payload);
    }
  }
}
