/** A database session over the inventory table: what queries see, the mapped objects, rows not yet flushed. */
module Session {
  import opened Inventory

  // ---- writing rows one after the other ----

  /** Apply `f` to the row with this identifier. */
  function UpdateRow(t: Table, id: nat, f: Row -> Row): (u: Table)
    ensures |u| == |t|
    ensures forall i :: 0 <= i < |t| ==> u[i] == if t[i].id == id then f(t[i]) else t[i]
  {
    seq(|t|, i requires 0 <= i < |t| => if t[i].id == id then f(t[i]) else t[i])
  }

  /** Apply `f(k, _)` to the k-th listed row, in list order; a row listed twice is written twice. */
  function UpdateAll(t: Table, ids: seq<nat>, f: (nat, Row) -> Row): (u: Table)
    ensures |u| == |t|
  {
    if ids == [] then t
    else
      var n := |ids| - 1;
      UpdateRow(UpdateAll(t, ids[..n], f), ids[n], r => f(n, r))
  }

  ghost predicate KeepsId(f: (nat, Row) -> Row) {
    forall k: nat, r: Row :: f(k, r).id == r.id
  }

  lemma {:induction false} UpdateAllKeepsIds(t: Table, ids: seq<nat>, f: (nat, Row) -> Row)
    requires KeepsId(f)
    ensures forall i :: 0 <= i < |t| ==> UpdateAll(t, ids, f)[i].id == t[i].id
  {
    if ids != [] { UpdateAllKeepsIds(t, ids[..|ids| - 1], f); }
  }

  /** A row that is not listed keeps its value. */
  lemma {:induction false} UpdateAllFrame(t: Table, ids: seq<nat>, f: (nat, Row) -> Row, i: nat)
    requires KeepsId(f) && i < |t| && t[i].id !in ids
    ensures UpdateAll(t, ids, f)[i] == t[i]
  {
    if ids != [] {
      UpdateAllKeepsIds(t, ids[..|ids| - 1], f);
      UpdateAllFrame(t, ids[..|ids| - 1], f, i);
    }
  }

  predicate Distinct(ids: seq<nat>) {
    forall i, j :: 0 <= i < j < |ids| ==> ids[i] != ids[j]
  }

  /** A row listed exactly once is written exactly once, with its own position in the list. */
  lemma {:induction false} UpdateAllOnce(t: Table, ids: seq<nat>, f: (nat, Row) -> Row, i: nat, k: nat)
    requires KeepsId(f) && i < |t| && Distinct(ids) && k < |ids| && t[i].id == ids[k]
    ensures UpdateAll(t, ids, f)[i] == f(k, t[i])
  {
    var n := |ids| - 1;
    UpdateAllKeepsIds(t, ids[..n], f);
    if k < n {
      UpdateAllOnce(t, ids[..n], f, i, k);
    } else {
      assert forall m :: 0 <= m < n ==> ids[m] != ids[n];
      UpdateAllFrame(t, ids[..n], f, i);
    }
  }

  /** The n-th write of distinct rows changes only its own row, which no earlier write touched. */
  lemma UpdateAllNext(t: Table, ids: seq<nat>, f: (nat, Row) -> Row, n: nat, i: nat)
    requires KeepsId(f) && DistinctIds(t) && Distinct(ids) && n < |ids| && i < |t| && t[i].id == ids[n]
    ensures var u := UpdateAll(t, ids[..n], f);
      var v := UpdateAll(t, ids[..n + 1], f);
      u[i] == t[i] && v[i] == f(n, t[i]) && forall j :: 0 <= j < |t| && j != i ==> v[j] == u[j]
  {
    assert ids[..n + 1][..n] == ids[..n];
    UpdateAllKeepsIds(t, ids[..n], f);
    UpdateAllFrame(t, ids[..n], f, i);
    forall j | 0 <= j < |t| && j != i ensures t[j].id != t[i].id {
      assert if i < j then t[i].id != t[j].id else t[j].id != t[i].id;
    }
  }

  /** What every single write keeps, the whole sequence of writes keeps. */
  lemma {:induction false} UpdateAllInvariant(t: Table, ids: seq<nat>, f: (nat, Row) -> Row, i: nat, inv: Row -> bool)
    requires i < |t| && inv(t[i])
    requires forall k: nat, r: Row :: inv(r) ==> inv(f(k, r))
    ensures inv(UpdateAll(t, ids, f)[i])
  {
    if ids != [] { UpdateAllInvariant(t, ids[..|ids| - 1], f, i, inv); }
  }

  // ---- the session ----

  /** The database constraint: one row per source, identity basis and identity. */
  predicate UniqueIdentities(t: Table) {
    forall i, j :: 0 <= i < j < |t| ==> !SameIdentity(t[i], t[j])
  }

  predicate SameIdentity(a: Row, b: Row) {
    a.sourceId == b.sourceId && a.basis == b.basis && a.identity == b.identity
  }

  function Values(os: seq<InventoryRow>): (v: Table)
    reads os
    ensures |v| == |os| && forall i :: 0 <= i < |os| ==> v[i] == os[i].Value()
  {
    seq(|os|, i requires 0 <= i < |os| reads os => os[i].Value())
  }

  function Ids(os: seq<InventoryRow>): (v: seq<nat>)
    reads os
    ensures |v| == |os| && forall i :: 0 <= i < |os| ==> v[i] == os[i].Value().id
  {
    seq(|os|, i requires 0 <= i < |os| reads os => os[i].Value().id)
  }

  ghost predicate NoAliases(os: seq<InventoryRow>) {
    forall i, j :: 0 <= i < j < |os| ==> os[i] != os[j]
  }

  /**
   * Queries read `stored`, the flushed rows; the services write `objects`, one per stored row. Objects added and not
   * yet flushed wait in `pending`, where no query finds them (the application disables autoflush); they carry the
   * identifiers that the flush will give them, in the order they were added. `durable` records every committed state of
   * the table, the newest last.
   */
  class InventorySession {
    var stored: Table
    var objects: seq<InventoryRow>
    var pending: seq<InventoryRow>
    var nextId: nat
    ghost var durable: seq<Table>

    /** One object per stored row, all different; this does not depend on what the objects hold. */
    ghost predicate Laid()
      reads this
    {
      && |objects| == |stored|
      && NoAliases(objects + pending)
      && DistinctIds(stored)
      && (forall i :: 0 <= i < |stored| ==> stored[i].id < nextId)
    }

    /** The identity columns are those of the stored rows. */
    ghost predicate Keyed(t: Table)
      reads this
    {
      |t| == |stored| && forall i :: 0 <= i < |t| ==> t[i].id == stored[i].id && SameIdentity(t[i], stored[i])
    }

    ghost predicate Valid()
      reads this, objects, pending
    {
      && Laid()
      && Keyed(Values(objects))
      && (forall k :: 0 <= k < |pending| ==> pending[k].Value().id == nextId + k)
    }

    /** Nothing has been written since the last commit. */
    ghost predicate Clean()
      reads this, objects
    {
      pending == [] && Values(objects) == stored
    }

    constructor Open(t: Table, freeId: nat)
      requires DistinctIds(t) && forall i :: 0 <= i < |t| ==> t[i].id < freeId
      ensures Valid() && Clean() && stored == t && durable == [] && nextId == freeId
      ensures fresh(objects)
    {
      stored, pending, nextId, durable := t, [], freeId, [];
      objects := [];
      new;
      for k := 0 to |t|
        invariant |objects| == k && fresh(objects) && NoAliases(objects)
        invariant stored == t && pending == [] && nextId == freeId && durable == []
        invariant forall i :: 0 <= i < k ==> objects[i].Value() == t[i]
      {
        var o := new InventoryRow(t[k]);
        objects := objects + [o];
      }
      assert objects + pending == objects;
    }

    /** The objects of stored rows found by a query. */
    method Resolve(found: Table) returns (os: seq<InventoryRow>)
      requires Valid()
      requires forall r :: r in found ==> r in stored
      ensures |os| == |found|
      ensures forall k :: 0 <= k < |os| ==> os[k] in objects && os[k].Value().id == found[k].id
      ensures Clean() ==> Values(os) == found
    {
      os := [];
      for k := 0 to |found|
        invariant |os| == k
        invariant forall m :: 0 <= m < k ==> os[m] in objects && os[m].Value().id == found[m].id
        invariant Clean() ==> forall m :: 0 <= m < k ==> os[m].Value() == found[m]
      {
        assert found[k] in stored;
        var i := 0;
        while stored[i].id != found[k].id
          invariant 0 <= i < |stored|
          invariant forall j :: 0 <= j < i ==> stored[j].id != found[k].id
          decreases |stored| - i
        {
          i := i + 1;
          assert exists j :: i <= j < |stored| && stored[j] == found[k] by {
            var j :| 0 <= j < |stored| && stored[j] == found[k];
          }
        }
        assert stored[i] == found[k] by {
          var j :| 0 <= j < |stored| && stored[j] == found[k];
          assert i == j;
        }
        os := os + [objects[i]];
      }
    }

    lemma StoredIdsDistinct()
      requires Valid()
      ensures DistinctIds(stored)
    {
    }

    method Add(o: InventoryRow)
      requires Valid() && o !in objects + pending && o.Value().id == nextId + |pending|
      modifies this`pending
      ensures Valid() && pending == old(pending) + [o]
    {
      pending := pending + [o];
      assert objects + pending == old(objects + pending) + [o];
    }

    /** Insert the rows added since the last flush; the database refuses two rows with the same identity. */
    method Flush() returns (violated: bool)
      requires Valid()
      modifies this`stored, this`objects, this`pending, this`nextId
      ensures violated == !UniqueIdentities(Values(old(objects + pending)))
      ensures violated ==> unchanged(this)
      ensures !violated ==>
        && Valid() && Clean()
        && objects == old(objects + pending) && stored == Values(objects) && nextId == old(nextId + |pending|)
    {
      var all := objects + pending;
      violated := !UniqueIdentities(Values(all));
      if violated { return; }
      forall i, j | 0 <= i < j < |all| ensures all[i].Value().id != all[j].Value().id {
        if j < |objects| { assert stored[i].id != stored[j].id; }
      }
      nextId := nextId + |pending|;
      objects, pending, stored := all, [], Values(all);
      assert objects + pending == all;
    }

    /** Make the objects' values the committed state. */
    method Commit()
      requires Valid() && pending == []
      modifies this`stored, this`durable
      ensures Valid() && Clean()
      ensures stored == Values(objects) && durable == old(durable) + [stored]
    {
      stored := Values(objects);
      durable := durable + [stored];
    }
  }

  /** Writing one object of the session is writing one row of its image. */
  lemma ObjectWritten(s: InventorySession, o: InventoryRow, f: Row -> Row, before: Table)
    requires s.Laid() && s.Keyed(before) && o in s.objects
    requires forall i :: 0 <= i < |before| ==> s.objects[i].Value() == if s.objects[i] == o then f(before[i]) else before[i]
    requires forall r :: f(r).id == r.id && SameIdentity(f(r), r)
    ensures Values(s.objects) == UpdateRow(before, o.Value().id, f)
    ensures s.Keyed(Values(s.objects))
  {
    hide InventoryRow.Value;
    var j :| 0 <= j < |s.objects| && s.objects[j] == o;
    forall i | 0 <= i < |s.objects| ensures s.objects[i] == o <==> before[i].id == o.Value().id {
      assert i < j ==> s.stored[i].id != s.stored[j].id;
      assert j < i ==> s.stored[j].id != s.stored[i].id;
    }
  }

  /** A stored object is not waiting to be inserted. */
  lemma StoredIsNotPending(s: InventorySession, o: InventoryRow)
    requires s.Valid() && o in s.objects
    ensures o !in s.pending
  {
    var j :| 0 <= j < |s.objects| && s.objects[j] == o;
    forall k | 0 <= k < |s.pending| ensures s.pending[k] != o {
      assert (s.objects + s.pending)[j] != (s.objects + s.pending)[|s.objects| + k];
    }
  }
}
