/** The fixture generator as it runs: inspection loops, then one atomic write per managed file. */
module FixtureService {
  import opened Text
  import opened FixtureWriter

  /** Every directory entry is looked at; what is expected must have the right kind. */
  method InspectExistingTree(t: Tree) returns (ok: bool, existing: set<Place>)
    requires WellFormed(t)
    ensures ok == Inspectable(t)
    ensures ok ==> existing == Existing(t)
  {
    existing := {};
    if t.root == Missing {
      NothingExists(t);
      return true, {};
    }
    if t.root != Folder { return false, {}; }
    var names := t.top.Keys;
    while names != {}
      invariant names <= t.top.Keys
      invariant forall name :: name in t.top && name !in names ==> Permitted(name) && !t.top[name].Symlink?
      decreases names
    {
      var name :| name in names;
      if !Permitted(name) || t.top[name].Symlink? { return false, {}; }
      names := names - {name};
    }
    if BOUNDARY in t.top && !t.top[BOUNDARY].File? { return false, {}; }
    if SOURCE in t.top && !t.top[SOURCE].Directory? { return false, {}; }
    var children := t.source.Keys;
    while children != {}
      invariant children <= t.source.Keys
      invariant forall name :: name in t.source && name !in children ==> Place(true, name) in MANAGED && t.source[name].File?
      invariant existing == set name | name in t.source && name !in children :: Place(true, name)
      decreases children
    {
      var name :| name in children;
      if Place(true, name) !in MANAGED || !t.source[name].File? {
        assert SOURCE in t.top;
        return false, {};
      }
      children := children - {name};
      existing := existing + {Place(true, name)};
    }
    if MANIFEST in t.top {
      if !t.top[MANIFEST].File? { return false, {}; }
      existing := existing + {Place(false, MANIFEST)};
    }
    ok := true;
    FoundEverything(t, existing);
  }

  lemma NothingExists(t: Tree)
    requires WellFormed(t) && t.root == Missing
    ensures Existing(t) == {}
  {
  }

  lemma FoundEverything(t: Tree, existing: set<Place>)
    requires WellFormed(t) && Inspectable(t) && t.root == Folder
    requires existing ==
      (set name | name in t.source :: Place(true, name)) + (if MANIFEST in t.top then {Place(false, MANIFEST)} else {})
    ensures existing == Existing(t)
  {
    assert MANAGED[4] == Place(false, MANIFEST);
    forall p ensures p in existing <==> p in Existing(t) {
      if p in MANAGED { ManagedNames(p); }
    }
  }

  method ValidateExistingManagedFiles(t: Tree, payload: Place -> Bytes, existing: set<Place>, replaceKnown: bool)
    returns (ok: bool)
    requires existing == Existing(t)
    ensures ok == MayWrite(t, payload, replaceKnown)
  {
    if existing == {} { return true; }
    if !replaceKnown { return false; }
    for k := 0 to |MANAGED|
      invariant forall j :: 0 <= j < k ==> Get(t, MANAGED[j]) == Some(File(payload(MANAGED[j])))
    {
      if Get(t, MANAGED[k]) != Some(File(payload(MANAGED[k]))) {
        assert MANAGED[k] in MANAGED;
        return false;
      }
    }
    ok := true;
  }

  /** The directory being written; `states` records it after every file operation. */
  class FixtureDirectory {
    var tree: Tree
    ghost var states: seq<Tree>

    constructor (t: Tree)
      ensures tree == t && states == [t]
    {
      tree, states := t, [t];
    }

    method Change(t: Tree)
      modifies this
      ensures tree == t && states == old(states) + [t]
    {
      tree := t;
      states := states + [t];
    }

    /** Write beside the destination, then replace it; an existing temporary file stops the write. */
    method AtomicWrite(p: Place, content: Bytes) returns (ok: bool)
      modifies this
      ensures ok == old(Get(tree, Temporary(p)).None?)
      ensures ok ==> tree == Put(old(tree), p, File(content)) && states == old(states) + WriteStates(old(tree), p, content)
      ensures !ok ==> tree == old(tree) && states == old(states)
    {
      hide Put, Get, FixtureWriter.Remove;
      if Get(tree, Temporary(p)).Some? { return false; }
      ghost var t := tree;
      ghost var growth := WriteStates(t, p, content);
      Change(Put(tree, Temporary(p), File([])));
      assert content[..0] == [];
      GrowsFirst(t, p, content);
      for n := 0 to |content|
        invariant tree == Put(t, Temporary(p), File(content[..n]))
        invariant states == old(states) + growth[..n + 1]
      {
        PutAgain(t, Temporary(p), File(content[..n]), File(content[..n + 1]));
        Change(Put(tree, Temporary(p), File(content[..n + 1])));
        GrowsNext(t, p, content, n);
      }
      TemporaryRemoved(t, Temporary(p), File(content[..|content|]));
      Change(Put(FixtureWriter.Remove(tree, Temporary(p)), p, File(content)));
      GrowsLast(t, p, content);
      ok := true;
    }

    /** The checks, the two directories, and the managed files in order. */
    method CreateControlledFixtureSet(payload: Place -> Bytes, replaceKnown: bool, refused: bool) returns (ok: bool)
      requires WellFormed(tree) && states == [tree]
      modifies this
      ensures ok == Generate(old(tree), payload, replaceKnown, refused).succeeded
      ensures states == Generate(old(tree), payload, replaceKnown, refused).states
      ensures tree == Final(Generate(old(tree), payload, replaceKnown, refused), old(tree))
    {
      hide Inspectable, MayWrite, AllStates, After, MakeDirectories, Get, Put, WellFormed, Existing, Clean;
      if refused { return false; }
      var inspected, existing := InspectExistingTree(tree);
      if !inspected { return false; }
      var valid := ValidateExistingManagedFiles(tree, payload, existing, replaceKnown);
      if !valid { return false; }
      ghost var t := tree;
      Change(tree.(root := Folder));
      DirectoriesTwice(t);
      Change(MakeDirectories(tree));
      ghost var ready := tree;
      ReadyIsClean(t);
      CleanHasNoTemporaries(ready);
      assert MANAGED[..0] == [];
      NothingYet(ready, payload);
      for k := 0 to |MANAGED|
        invariant tree == After(ready, MANAGED[..k], payload)
        invariant states == [t, t.(root := Folder), ready] + AllStates(ready, MANAGED[..k], payload)
      {
        TemporariesGone(ready, MANAGED[..k], payload, MANAGED[k]);
        var written := AtomicWrite(MANAGED[k], payload(MANAGED[k]));
        WritesNext(ready, payload, k);
      }
      assert MANAGED[..|MANAGED|] == MANAGED;
      LastState(ready, MANAGED, payload);
      ok := true;
    }
  }

  lemma PutAgain(t: Tree, p: Place, e: Entry, f: Entry)
    ensures Put(Put(t, p, e), p, f) == Put(t, p, f)
  {
  }

  lemma TemporaryRemoved(t: Tree, p: Place, e: Entry)
    requires Get(t, p).None?
    ensures Remove(Put(t, p, e), p) == t
  {
  }

  lemma GrowsFirst(t: Tree, p: Place, content: Bytes)
    ensures WriteStates(t, p, content)[..1] == [Put(t, Temporary(p), File(content[..0]))]
  {
    hide Put;
  }

  lemma GrowsNext(t: Tree, p: Place, content: Bytes, n: nat)
    requires n < |content|
    ensures WriteStates(t, p, content)[..n + 2] ==
      WriteStates(t, p, content)[..n + 1] + [Put(t, Temporary(p), File(content[..n + 1]))]
  {
    hide Put;
  }

  lemma GrowsLast(t: Tree, p: Place, content: Bytes)
    ensures WriteStates(t, p, content) == WriteStates(t, p, content)[..|content| + 1] + [Put(t, p, File(content))]
  {
    hide Put;
  }

  lemma DirectoriesTwice(t: Tree)
    ensures MakeDirectories(t.(root := Folder)) == MakeDirectories(t)
  {
  }

  lemma NothingYet(t: Tree, payload: Place -> Bytes)
    ensures After(t, [], payload) == t && AllStates(t, [], payload) == []
  {
  }

  lemma WritesNext(t: Tree, payload: Place -> Bytes, k: nat)
    requires k < |MANAGED|
    ensures var before := After(t, MANAGED[..k], payload);
      && After(t, MANAGED[..k + 1], payload) == Put(before, MANAGED[k], File(payload(MANAGED[k])))
      && AllStates(t, MANAGED[..k + 1], payload) ==
           AllStates(t, MANAGED[..k], payload) + WriteStates(before, MANAGED[k], payload(MANAGED[k]))
  {
    hide Put, WriteStates;
    assert MANAGED[..k + 1][..k] == MANAGED[..k];
  }
}
