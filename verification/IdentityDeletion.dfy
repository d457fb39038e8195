/**
 * The code that moves, restores, erases and sweeps an identity's local data, operation by operation.
 *
 * Every method below changes the disk only through `Perform`, whose precondition is that the protocol
 * of `Tombstones` allows the operation; `ds` and `ops` record every intermediate disk. So every state a
 * crash can leave behind lies on a run of the protocol. `io(k)` says whether the k-th disk operation of
 * a call succeeds.
 */
module IdentityDeletion {
  import opened Tombstones

  /** No file the tombstone holds has been recreated at its path. */
  predicate ConflictFree(d: Disk, id: TombId) {
    id in d.tombs ==>
      forall i :: 0 <= i < |Entries(d.tombs[id])| && i in d.tombs[id].contents ==>
          Entries(d.tombs[id])[i].path !in d.files
  }

  predicate Lists(es: seq<Entry>, p: Path) { exists i :: 0 <= i < |es| && es[i].path == p }

  predicate SameFile(d: Disk, e: Disk, p: Path) {
    (p in e.files <==> p in d.files) && (p in d.files ==> e.files[p] == d.files[p])
  }

  /** Files at paths that the entries do not list are the same. */
  ghost predicate SameElsewhere(d: Disk, e: Disk, es: seq<Entry>) { forall p :: !Lists(es, p) ==> SameFile(d, e, p) }

  /** Nothing is left to finish for a tombstone: kept aside, for an identity not known to be gone. */
  predicate Settled(d: Disk, id: TombId, complete: bool) {
    id in d.tombs ==> d.tombs[id].marker == Conflict && (complete ==> d.tombs[id].key in d.identities)
  }

  ghost predicate AllSettled(d: Disk, complete: bool) { forall id :: id in d.tombs ==> Settled(d, id, complete) }

  /** A live identity's interrupted deletion, with no other tombstone claiming its paths. */
  ghost predicate Alone(d: Disk, id: TombId) {
    && Restorable(d, id) && DistinctPaths(Entries(d.tombs[id]))
    && forall j, p :: j in d.tombs && j != id && Lists(Entries(d.tombs[id]), p) ==> !Lists(Entries(d.tombs[j]), p)
  }

  /**
   * From `d` to `e` files only went from their paths into tombstone `id`: a restore would give back
   * exactly what there was, and nothing stands in its way.
   */
  ghost predicate MovedInto(d: Disk, e: Disk, id: TombId) {
    && e.identities == d.identities && e.tombs - {id} == d.tombs - {id} && ConflictFree(e, id)
    && (forall p :: Lookup(e, id, p) == Lookup(d, id, p))
    && (forall p :: p in e.files ==> p in d.files)
  }

  lemma MovedFurther(d: Disk, e: Disk, f: Disk, id: TombId)
    requires MovedInto(d, e, id) && MovedInto(e, f, id)
    ensures MovedInto(d, f, id)
  {
    forall p ensures Lookup(f, id, p) == Lookup(d, id, p) { assert Lookup(e, id, p) == Lookup(d, id, p); }
  }

  function PathsOf(batch: seq<Entry>, n: nat): set<Path>
    requires n <= |batch|
  {
    set i | 0 <= i < n :: batch[i].path
  }

  lemma NextPath(entries: seq<Entry>, batch: seq<Entry>, k: nat)
    requires DistinctPaths(entries + batch) && k < |batch|
    ensures (entries + batch)[|entries| + k] == batch[k] && batch[k].path !in PathsOf(batch, k)
    ensures PathsOf(batch, k + 1) == PathsOf(batch, k) + {batch[k].path}
  {
    var m := entries + batch;
    forall i | 0 <= i < k ensures batch[i].path != batch[k].path {
      assert m[|entries| + i] == batch[i] && m[|entries| + k] == batch[k];
    }
  }

  predicate AmongKinds(p: Path, kinds: seq<seq<Path>>, n: nat)
    requires n <= |kinds|
  {
    exists k :: 0 <= k < n && p in kinds[k]
  }

  /** From `d` to `e` files only went from tombstone `id` back to their paths. */
  ghost predicate Returned(d: Disk, e: Disk, id: TombId) {
    && Restorable(d, id) && Restorable(e, id)
    && e.identities == d.identities && e.tombs - {id} == d.tombs - {id}
    && Entries(e.tombs[id]) == Entries(d.tombs[id]) && e.tombs[id].key == d.tombs[id].key
    && e.tombs[id].contents.Keys <= d.tombs[id].contents.Keys
    && (DistinctPaths(Entries(d.tombs[id])) ==> forall p :: Lookup(e, id, p) == Lookup(d, id, p))
    && SameElsewhere(d, e, Entries(d.tombs[id]))
  }

  /** Of what the tombstone held, exactly what was recreated at its path is still there. */
  ghost predicate OnlyConflictsStay(d: Disk, e: Disk, id: TombId) {
    id in d.tombs && forall i :: 0 <= i < |Entries(d.tombs[id])| && i in d.tombs[id].contents ==>
      (id in e.tombs && i in e.tombs[id].contents <==> Entries(d.tombs[id])[i].path in d.files)
  }

  /** Half way through a restore of `d`: the first `n` entries are dealt with, the others as they were. */
  ghost predicate Restoring(d: Disk, e: Disk, id: TombId, n: nat, failed: bool) {
    && id in d.tombs && id in e.tombs
    && (forall i :: n <= i < |Entries(d.tombs[id])| ==>
          && (i in e.tombs[id].contents <==> i in d.tombs[id].contents)
          && (Entries(d.tombs[id])[i].path in e.files <==> Entries(d.tombs[id])[i].path in d.files))
    && (!failed ==> forall i :: 0 <= i < n && i < |Entries(d.tombs[id])| && i in d.tombs[id].contents ==>
          (i in e.tombs[id].contents <==> Entries(d.tombs[id])[i].path in d.files))
  }

  /** What putting back entry `i` does: the file is at its path again, or nothing changes. */
  ghost predicate PutOne(d: Disk, e: Disk, id: TombId, i: nat, failed: bool) {
    && id in d.tombs && id in e.tombs && i < |Entries(d.tombs[id])|
    && if i in d.tombs[id].contents && Entries(d.tombs[id])[i].path !in d.files && !failed
       then e.tombs[id].contents.Keys == d.tombs[id].contents.Keys - {i}
            && e.files.Keys == d.files.Keys + {Entries(d.tombs[id])[i].path}
       else e == d
  }

  lemma RestoringOn(d: Disk, before: Disk, after: Disk, id: TombId, i: nat, failed: bool, bad: bool)
    requires Restoring(d, before, id, i, failed) && PutOne(before, after, id, i, bad)
    requires Entries(before.tombs[id]) == Entries(d.tombs[id]) && DistinctPaths(Entries(d.tombs[id]))
    ensures Restoring(d, after, id, i + 1, failed || bad)
  {
    var es := Entries(d.tombs[id]);
    forall j | i < j < |es| ensures es[j].path != es[i].path {}
  }

  lemma ReturnedFurther(d: Disk, e: Disk, f: Disk, id: TombId)
    requires Returned(d, e, id) && Returned(e, f, id)
    ensures Returned(d, f, id)
  {
    if DistinctPaths(Entries(d.tombs[id])) {
      forall p ensures Lookup(f, id, p) == Lookup(d, id, p) { assert Lookup(e, id, p) == Lookup(d, id, p); }
    }
    forall p | !Lists(Entries(d.tombs[id]), p) ensures SameFile(d, f, p) { assert SameFile(d, e, p); }
  }

  /** From `d` to `e` a lone tombstone's listed files were restored, or would be, to the same. */
  ghost predicate Kept(d: Disk, e: Disk, id: TombId) {
    id in d.tombs && Alone(d, id) ==> forall p :: Lists(Entries(d.tombs[id]), p) ==>
        Lookup(e, id, p) == Lookup(d, id, p)
  }

  /** From `d` to `e` a tombstone is as it was and, if alone, so are the files at its paths. */
  ghost predicate Untouched(d: Disk, e: Disk, id: TombId) {
    && id in d.tombs && id in e.tombs && e.tombs[id] == d.tombs[id]
    && (Alone(d, id) ==> forall p :: Lists(Entries(d.tombs[id]), p) ==> SameFile(d, e, p))
  }

  /** What sweeping `id` does to the disk. */
  ghost predicate SweptOne(before: Disk, after: Disk, id: TombId, done: bool) {
    && id in before.tombs && after.identities == before.identities && after.tombs - {id} == before.tombs - {id}
    && SameElsewhere(before, after, Entries(before.tombs[id]))
    && (Restorable(before, id) && DistinctPaths(Entries(before.tombs[id])) ==>
          && (forall p :: Lookup(after, id, p) == Lookup(before, id, p))
          && (done && ConflictFree(before, id) ==> id !in after.tombs))
  }

  lemma SweptOthers(before: Disk, after: Disk, id: TombId, done: bool, j: TombId)
    requires SweptOne(before, after, id, done) && j != id
    ensures (j in after.tombs <==> j in before.tombs) && (j in before.tombs ==> after.tombs[j] == before.tombs[j])
  {
    assert j in after.tombs - {id} <==> j in before.tombs - {id};
  }

  /** Sweeping one tombstone leaves the files of a lone other one. */
  lemma SweptFiles(d: Disk, before: Disk, after: Disk, id: TombId, done: bool, j: TombId, p: Path)
    requires SweptOne(before, after, id, done) && j != id && id in d.tombs && before.tombs[id] == d.tombs[id]
    requires j in d.tombs && Alone(d, j) && Lists(Entries(d.tombs[j]), p)
    ensures SameFile(before, after, p)
  {
  }

  lemma SweptKeepsOthers(d: Disk, before: Disk, after: Disk, id: TombId, done: bool, j: TombId)
    requires SweptOne(before, after, id, done) && j != id && Untouched(d, before, id) && j in d.tombs
    ensures Untouched(d, before, j) ==> Untouched(d, after, j)
    ensures Kept(d, before, j) ==> Kept(d, after, j)
  {
    SweptOthers(before, after, id, done, j);
    if Alone(d, j) {
      forall p | Lists(Entries(d.tombs[j]), p)
          ensures SameFile(before, after, p) { SweptFiles(d, before, after, id, done, j, p); }
    }
  }

  lemma SweptKeepsItself(d: Disk, before: Disk, after: Disk, id: TombId, done: bool)
    requires SweptOne(before, after, id, done) && Untouched(d, before, id) && before.identities == d.identities
    ensures Kept(d, after, id)
    ensures done && Alone(d, id) && ConflictFree(d, id) ==> id !in after.tombs
  {
    if Alone(d, id) {
      forall i | 0 <= i < |Entries(d.tombs[id])| ensures SameFile(d, before, Entries(d.tombs[id])[i].path) {
        assert Lists(Entries(d.tombs[id]), Entries(d.tombs[id])[i].path);
      }
      forall p | Lists(Entries(d.tombs[id]), p) ensures Lookup(before, id, p) == Lookup(d, id, p) {
        assert SameFile(d, before, p);
      }
    }
  }

  /** No tombstone claims this path. */
  ghost predicate Unlisted(d: Disk, p: Path) { forall id :: id in d.tombs ==> !Lists(Entries(d.tombs[id]), p) }

  /** Half way through a sweep that started at `d`, with `left` still to do. */
  ghost predicate Swept(d: Disk, e: Disk, left: set<TombId>, complete: bool, done: bool) {
    && e.identities == d.identities && left <= e.tombs.Keys && e.tombs.Keys <= d.tombs.Keys
    && (done ==> forall id :: id in e.tombs && id !in left ==> Settled(e, id, complete))
    && (forall id {:trigger Untouched(d, e, id)} :: id in left ==> Untouched(d, e, id))
    && (forall id {:trigger Kept(d, e, id)} :: id in d.tombs && id !in left ==> Kept(d, e, id))
    && (done ==> forall id :: id in d.tombs && id !in left && Alone(d, id) && ConflictFree(d, id) ==> id !in e.tombs)
    && (forall p :: Unlisted(d, p) ==> SameFile(d, e, p))
  }

  lemma SweepGoesOn(d: Disk, before: Disk, after: Disk, left: set<TombId>, id: TombId, complete: bool, done: bool,
      ok: bool)
    requires Swept(d, before, left, complete, done) && id in left
    requires SweptOne(before, after, id, ok) && (ok ==> Settled(after, id, complete))
    ensures Swept(d, after, left - {id}, complete, done && ok)
  {
    assert Untouched(d, before, id);
    SweptKeepsItself(d, before, after, id, ok);
    forall p | Unlisted(d, p) ensures SameFile(d, after, p) {
      assert !Lists(Entries(before.tombs[id]), p);
      assert SameFile(d, before, p) && SameFile(before, after, p);
    }
    forall j | j != id ensures (j in after.tombs <==> j in before.tombs) &&
        (j in before.tombs ==> after.tombs[j] == before.tombs[j]) {
      SweptOthers(before, after, id, ok, j);
    }
    forall j | j in left - {id} ensures Untouched(d, after, j) {
      assert Untouched(d, before, j);
      SweptKeepsOthers(d, before, after, id, ok, j);
    }
    forall j | j in d.tombs && j !in left - {id} ensures Kept(d, after, j) {
      if j != id {
        assert Kept(d, before, j);
        SweptKeepsOthers(d, before, after, id, ok, j);
      }
    }
  }

  /** What the move left, and what a completed sweep then made of it, together undo the deletion. */
  lemma CrashThenSweepRestores(start: Disk, crashed: Disk, swept: Disk, id: TombId, kinds: seq<seq<Path>>)
    requires MovedInto(start, crashed, id) && id !in start.tombs && (id !in crashed.tombs ==> crashed == start)
    requires id in crashed.tombs ==>
               && Restorable(crashed, id) && DistinctPaths(Entries(crashed.tombs[id]))
               && forall p :: Lists(Entries(crashed.tombs[id]), p) ==> AmongKinds(p, kinds, |kinds|)
    requires forall p :: AmongKinds(p, kinds, |kinds|) ==> Unlisted(start, p)
    requires forall p :: Unlisted(crashed, p) ==> SameFile(crashed, swept, p)
    requires id in crashed.tombs ==> Kept(crashed, swept, id)
    requires Alone(crashed, id) ==> id !in swept.tombs
    requires swept.tombs.Keys <= crashed.tombs.Keys
    ensures id !in swept.tombs && forall p :: AmongKinds(p, kinds, |kinds|) ==> SameFile(start, swept, p)
  {
    OthersStay(start, crashed, id);
    if id in crashed.tombs {
      assert Alone(crashed, id);
      forall p | AmongKinds(p, kinds, |kinds|) ensures SameFile(start, swept, p) {
        assert Lookup(crashed, id, p) == Lookup(start, id, p);
        if !Lists(Entries(crashed.tombs[id]), p) {
          assert Unlisted(crashed, p);
          FindNone(Entries(crashed.tombs[id]), crashed.tombs[id].contents, p);
        }
      }
    }
  }

  lemma OthersSame(before: Disk, after: Disk, id: TombId)
    requires after.tombs - {id} == before.tombs - {id}
    ensures forall j :: j != id ==> (j in after.tombs <==> j in before.tombs)
    ensures forall j :: j != id && j in before.tombs && j in after.tombs ==> after.tombs[j] == before.tombs[j]
  {
    forall j | j != id
      ensures (j in after.tombs <==> j in before.tombs) && (j in before.tombs ==> after.tombs[j] == before.tombs[j])
    {
      assert j in after.tombs - {id} <==> j in before.tombs - {id};
    }
  }

  /** Moving leaves what is not among the kinds. */
  lemma OutsideStays(d: Disk, e: Disk, id: TombId, kinds: seq<seq<Path>>, p: Path)
    requires MovedInto(d, e, id) && id !in d.tombs && !AmongKinds(p, kinds, |kinds|)
    requires id in e.tombs ==> forall q :: Lists(Entries(e.tombs[id]), q) ==> AmongKinds(q, kinds, |kinds|)
    ensures SameFile(d, e, p) && (id in e.tombs ==> !Lists(Entries(e.tombs[id]), p))
  {
    assert Lookup(e, id, p) == Lookup(d, id, p);
    if id in e.tombs { FindNone(Entries(e.tombs[id]), e.tombs[id].contents, p); }
  }

  lemma OthersStay(start: Disk, crashed: Disk, id: TombId)
    requires MovedInto(start, crashed, id)
    ensures forall j :: j != id ==> (j in crashed.tombs <==> j in start.tombs)
    ensures forall j :: j != id && j in start.tombs && j in crashed.tombs ==> crashed.tombs[j] == start.tombs[j]
  {
    OthersSame(start, crashed, id);
  }

  /** The tombstones of every other key are as they were. */
  ghost predicate OtherKeysSame(d: Disk, e: Disk, key: Key) {
    forall id :: id in d.tombs && d.tombs[id].key != key ==> id in e.tombs && e.tombs[id] == d.tombs[id]
  }

  /** An uncommitted tombstone of an identity that nobody knows to be there or gone. */
  predicate Undecided(d: Disk, id: TombId, live: set<Key>, complete: bool) {
    id in d.tombs && d.tombs[id].marker == Deleted && d.tombs[id].key !in live && !complete
  }

  class LocalData {
    var disk: Disk
    ghost var trace: Trace

    ghost predicate Valid() reads this {
      Legal(trace) && Now(trace) == disk && Listed(disk)
    }

    constructor (d: Disk)
      requires Listed(d)
      ensures Valid() && disk == d
    {
      disk, trace := d, Start(d);
    }

    /** The only way any method here changes the disk. */
    method Perform(op: Op)
      requires Valid() && Enabled(disk, op) && Guarded(disk, op)
      modifies this
      ensures Valid() && disk == Apply(old(disk), op) && trace == Then(old(trace), op)
    {
      ListedKept(disk, op);
      disk, trace := Apply(disk, op), Then(trace, op);
    }

    // ----- moving files into a tombstone -------------------------------------------------------

    /** The entries of one batch: every listed path that exists, once, numbered after `count`. */
    method Batch(paths: seq<Path>, count: nat) returns (batch: seq<Entry>)
      ensures DistinctPaths(batch)
      ensures forall i :: 0 <= i < |batch| ==>
                batch[i].name == count + i && batch[i].path in disk.files && batch[i].path in paths
      ensures forall p :: p in paths && p in disk.files ==> exists i :: 0 <= i < |batch| && batch[i].path == p
    {
      batch := [];
      var seen: set<Path> := {};
      for k := 0 to |paths|
        invariant seen == set j | 0 <= j < k :: paths[j]
        invariant DistinctPaths(batch)
        invariant forall i :: 0 <= i < |batch| ==>
                    batch[i].name == count + i && batch[i].path in disk.files && batch[i].path in seen &&
                        batch[i].path in paths
        invariant forall p :: p in seen && p in disk.files ==> exists i :: 0 <= i < |batch| && batch[i].path == p
      {
        var p := paths[k];
        if p !in seen {
          seen := seen + {p};
          if p in disk.files {
            ghost var before := batch;
            batch := batch + [Entry(p, count + |batch|)];
            assert batch[|before|].path == p;
            assert forall i :: 0 <= i < |before| ==> batch[i] == before[i];
          }
        }
      }
    }

    /** The tombstone of the running deletion, as far as it is on disk. */
    ghost predicate Building(id: TombId, key: Key, entries: seq<Entry>) reads this {
      && key in disk.identities && DistinctPaths(entries) && ConflictFree(disk, id)
      && (id !in disk.tombs ==> entries == [])
      && (id in disk.tombs ==> Restorable(disk, id) && disk.tombs[id].key == key && Entries(disk.tombs[id]) == entries)
    }

    /**
     * localTomb.move: the manifest is written before the renames, so a crash at any point leaves every
     * file at its path or under a listed name, and a restore would give back exactly what it found.
     */
    method Move(id: TombId, key: Key, entries: seq<Entry>, paths: seq<Path>, io: nat -> bool)
      returns (ok: bool, entries': seq<Entry>)
      requires Valid() && Building(id, key, entries)
      requires forall i :: 0 <= i < |entries| ==> entries[i].path !in paths
      modifies this
      ensures Valid() && Continues(trace, old(trace)) && MovedInto(old(disk), disk, id)
      ensures id in disk.tombs ==>
                && Restorable(disk, id) && disk.tombs[id].key == key
                && DistinctPaths(Entries(disk.tombs[id])) && Entries(disk.tombs[id]) <= entries'
      ensures ok ==> Building(id, key, entries') && forall p :: p in disk.files <==> p in old(disk.files) && p !in paths
      ensures entries <= entries' && forall i :: |entries| <= i < |entries'| ==> entries'[i].path in paths
      ensures id !in disk.tombs ==> disk == old(disk)
      ensures (forall k :: io(k)) ==> ok
    {
      ghost var d0 := disk;
      var batch := Batch(paths, |entries|);
      entries' := entries + batch;
      assert DistinctPaths(entries');
      if batch == [] {
        ok := true;
        return;
      }
      ok := ListBatch(id, key, entries, batch, io);
      if !ok { return; }
      ghost var t, listed := trace, disk;
      ok := MoveBatch(id, key, entries, batch, io);
      ContinuesTransitively(trace, t, old(trace));
      MovedFurther(d0, listed, disk, id);
      if ok {
        forall p ensures p in disk.files.Keys <==> p in d0.files && p !in paths {
          assert p in paths && p in d0.files ==> exists i :: 0 <= i < |batch| && batch[i].path == p;
        }
      }
    }

    /** Makes the tombstone if there is none yet, and lists a batch of files that are still at their paths. */
    method ListBatch(id: TombId, key: Key, entries: seq<Entry>, batch: seq<Entry>, io: nat -> bool) returns (ok: bool)
      requires Valid() && Building(id, key, entries) && DistinctPaths(entries + batch)
      requires forall i :: 0 <= i < |batch| ==> batch[i].name == |entries| + i && batch[i].path in disk.files
      modifies this
      ensures Valid() && Continues(trace, old(trace)) && MovedInto(old(disk), disk, id) && disk.files == old(disk.files)
      ensures ok ==> id in disk.tombs && Building(id, key, entries + batch)
      ensures ok ==> forall n :: n in disk.tombs[id].contents ==> n < |entries|
      ensures !ok ==> Building(id, key, entries) && (id !in disk.tombs ==> disk == old(disk))
      ensures (forall k :: io(k)) ==> ok
    {
      ghost var d0 := disk;
      if id !in disk.tombs {
        if !io(0) { return false; }
        Perform(MakeDir(id, key));
      }
      assert Entries(disk.tombs[id]) == entries && ListedTomb(disk.tombs[id]);
      forall p ensures Lookup(disk, id, p) == Lookup(d0, id, p) { FindNone([], map[], p); }
      if !io(1) { return false; }
      forall p ensures Find(entries + batch, disk.tombs[id].contents, p) == Find(entries, disk.tombs[id].contents, p) {
        FindExtends(entries, batch, disk.tombs[id].contents, p);
      }
      Perform(WriteManifest(id, entries + batch));
      ok := true;
    }

    method MoveOne(id: TombId, i: nat)
      requires Valid() && Enabled(disk, MoveIn(id, i))
      requires DistinctPaths(Entries(disk.tombs[id])) && ConflictFree(disk, id)
      modifies this
      ensures Valid() && Continues(trace, old(trace)) && MovedInto(old(disk), disk, id)
      ensures Restorable(disk, id) && disk.tombs[id].key == old(disk.tombs)[id].key
      ensures Entries(disk.tombs[id]) == Entries(old(disk.tombs)[id])
      ensures disk.tombs[id].contents.Keys == old(disk.tombs)[id].contents.Keys + {i}
      ensures disk.files.Keys == old(disk.files).Keys - {Entries(disk.tombs[id])[i].path}
    {
      var op := MoveIn(id, i);
      assert ListedTomb(disk.tombs[id]);
      forall p ensures Lookup(Apply(disk, op), id, p) == Lookup(disk, id, p) { MovesKeepLookup(disk, op, p); }
      Perform(op);
    }

    /** The renames of one batch whose manifest is already on disk. */
    method MoveBatch(id: TombId, key: Key, entries: seq<Entry>, batch: seq<Entry>, io: nat -> bool) returns (ok: bool)
      requires Valid() && Building(id, key, entries + batch) && id in disk.tombs
      requires forall i :: 0 <= i < |batch| ==> batch[i].path in disk.files
      requires forall n :: n in disk.tombs[id].contents ==> n < |entries|
      modifies this
      ensures Valid() && Continues(trace, old(trace)) && MovedInto(old(disk), disk, id)
      ensures id in disk.tombs && Building(id, key, entries + batch)
      ensures ok ==> disk.files.Keys == old(disk.files).Keys - PathsOf(batch, |batch|)
      ensures (forall k :: io(k)) ==> ok
    {
      for k := 0 to |batch|
        invariant Valid() && Continues(trace, old(trace)) && MovedInto(old(disk), disk, id)
        invariant Building(id, key, entries + batch) && id in disk.tombs
        invariant forall n :: n in disk.tombs[id].contents ==> n < |entries| + k
        invariant disk.files.Keys == old(disk.files).Keys - PathsOf(batch, k)
      {
        if !io(2 + k) { return false; }
        NextPath(entries, batch, k);
        ghost var t, before := trace, disk;
        MoveNext(id, key, entries, batch, k);
        ContinuesTransitively(trace, t, old(trace));
        MovedFurther(old(disk), before, disk, id);
      }
      ok := true;
    }

    /** The next rename of a batch. */
    method MoveNext(id: TombId, key: Key, entries: seq<Entry>, batch: seq<Entry>, k: nat)
      requires Valid() && Building(id, key, entries + batch) && id in disk.tombs && k < |batch|
      requires (entries + batch)[|entries| + k] == batch[k] && batch[k].path in disk.files
      requires forall n :: n in disk.tombs[id].contents ==> n < |entries| + k
      modifies this
      ensures Valid() && Continues(trace, old(trace)) && MovedInto(old(disk), disk, id)
      ensures Building(id, key, entries + batch) && id in disk.tombs
      ensures forall n :: n in disk.tombs[id].contents ==> n < |entries| + k + 1
      ensures disk.files.Keys == old(disk.files).Keys - {batch[k].path}
    {
      MoveOne(id, |entries| + k);
    }

    // ----- erasing -----------------------------------------------------------------------------

    predicate Removable(d: Disk, id: TombId) {
      Erasable(d, id) || (Restorable(d, id) && d.tombs[id].contents == map[])
    }

    /** Only tombstone `id` changed since `d`, and only by losing files or its manifest. */
    ghost predicate Shrunk(d: Disk, id: TombId) reads this {
      && id in d.tombs && id in disk.tombs
      && disk.files == d.files && disk.identities == d.identities
      && disk.tombs[id].marker == d.tombs[id].marker && disk.tombs[id].key == d.tombs[id].key
      && disk.tombs[id].contents.Keys <= d.tombs[id].contents.Keys
      && disk.tombs - {id} == d.tombs - {id}
    }

    method EraseOne(id: TombId, n: Name, manifestToo: bool)
      requires Valid() && Erasable(disk, id) && n in disk.tombs[id].contents
      modifies this
      ensures Valid() && Continues(trace, old(trace)) && Erasable(disk, id) && Shrunk(old(disk), id)
      ensures disk.tombs[id].contents == old(disk.tombs)[id].contents - {n}
    {
      if manifestToo && disk.tombs[id].manifest.Some? {
        Perform(DropManifest(id));
      }
      Perform(EraseFile(id, n));
    }

    method EraseContents(id: TombId, io: nat -> bool) returns (ok: bool)
      requires Valid() && Removable(disk, id)
      modifies this
      ensures Valid() && Continues(trace, old(trace)) && Shrunk(old(disk), id) && Removable(disk, id)
      ensures ok ==> disk.tombs[id].contents == map[]
      ensures (forall k :: io(k)) ==> ok
    {
      var k := 0;
      while disk.tombs[id].contents != map[]
        invariant Valid() && Continues(trace, old(trace)) && Shrunk(old(disk), id) && Removable(disk, id)
        decreases |disk.tombs[id].contents|
      {
        if !io(k) { return false; }
        var n :| n in disk.tombs[id].contents.Keys;
        ghost var before, t := disk.tombs[id].contents, trace;
        EraseOne(id, n, io(k + 1));
        ContinuesTransitively(trace, t, old(trace));
        assert disk.tombs[id].contents.Keys == before.Keys - {n};
        k := k + 2;
      }
      ok := true;
    }

    /** os.RemoveAll on a tombstone: its files and manifest go one by one, in any order. */
    method RemoveAll(id: TombId, io: nat -> bool) returns (ok: bool)
      requires Valid() && Removable(disk, id)
      modifies this
      ensures Valid() && Continues(trace, old(trace))
      ensures ok ==> disk == old(disk).(tombs := old(disk).tombs - {id})
      ensures !ok ==> Shrunk(old(disk), id)
      ensures (forall k :: io(k)) ==> ok
    {
      ok := EraseContents(id, (k: nat) => io(k + 2));
      if !ok || !io(0) { return false; }
      if disk.tombs[id].manifest.Some? {
        Perform(DropManifest(id));
      }
      if !io(1) { return false; }
      Perform(DropDir(id));
    }

    /** eraseCommittedTombstone: mark it committed, then erase it. */
    method EraseTomb(id: TombId, io: nat -> bool) returns (ok: bool)
      requires Valid() && Erasable(disk, id) && disk.tombs[id].marker == Deleted
      modifies this
      ensures Valid() && Continues(trace, old(trace))
      ensures disk.files == old(disk.files) && disk.identities == old(disk.identities)
      ensures disk.tombs - {id} == old(disk.tombs) - {id}
      ensures ok <==> id !in disk.tombs
      ensures !ok ==> disk.tombs[id].key == old(disk.tombs)[id].key
      ensures !ok && io(0) ==> disk.tombs[id].marker == Erasing
      ensures (forall k :: io(k)) ==> ok
    {
      if io(0) {
        Perform(MarkErasing(id));
      }
      ghost var t := trace;
      ok := RemoveAll(id, (k: nat) => io(k + 1));
      ContinuesTransitively(trace, t, old(trace));
    }

    // ----- restoring ---------------------------------------------------------------------------

    method PutOneBack(id: TombId, i: nat)
      requires Valid() && Enabled(disk, MoveBack(id, i))
      modifies this
      ensures Valid() && Continues(trace, old(trace)) && Returned(old(disk), disk, id)
      ensures disk.tombs[id].contents == old(disk.tombs)[id].contents - {i}
      ensures disk.files.Keys == old(disk.files).Keys + {Entries(disk.tombs[id])[i].path}
    {
      var op := MoveBack(id, i);
      assert ListedTomb(disk.tombs[id]);
      if DistinctPaths(Entries(disk.tombs[id])) {
        forall p ensures Lookup(Apply(disk, op), id, p) == Lookup(disk, id, p) { MovesKeepLookup(disk, op, p); }
      }
      Perform(op);
    }

    /** One entry of a restore: its file goes back, unless it is not there, its path is taken, or the rename fails. */
    method PutEntryBack(id: TombId, i: nat, works: bool) returns (failed: bool, conflict: bool)
      requires Valid() && Restorable(disk, id) && i < |Entries(disk.tombs[id])|
      modifies this
      ensures Valid() && Continues(trace, old(trace)) && Returned(old(disk), disk, id)
      ensures PutOne(old(disk), disk, id, i, failed)
      ensures conflict <==> i in old(disk.tombs)[id].contents && Entries(old(disk.tombs)[id])[i].path in old(disk.files)
      ensures works ==> !failed
    {
      failed, conflict := false, false;
      var path := Entries(disk.tombs[id])[i].path;
      if i in disk.tombs[id].contents {
        if path in disk.files {
          conflict := true;
        } else if !works {
          failed := true;
        } else {
          PutOneBack(id, i);
        }
      }
    }

    /** The first half of restoreLocalTomb: every file that can go back goes back. */
    method PutBack(id: TombId, io: nat -> bool) returns (failed: bool, conflict: bool)
      requires Valid() && Restorable(disk, id)
      modifies this
      ensures Valid() && Continues(trace, old(trace)) && Returned(old(disk), disk, id)
      ensures !failed && !conflict ==> disk.tombs[id].contents == map[]
      ensures ConflictFree(old(disk), id) && DistinctPaths(Entries(disk.tombs[id])) ==> !conflict
      ensures (forall k :: io(k)) ==> !failed
      ensures !failed && DistinctPaths(Entries(disk.tombs[id])) ==> OnlyConflictsStay(old(disk), disk, id)
    {
      failed, conflict := false, false;
      var es := Entries(disk.tombs[id]);
      assert ListedTomb(disk.tombs[id]);
      for i := 0 to |es|
        invariant Valid() && Continues(trace, old(trace)) && Returned(old(disk), disk, id)
        invariant !failed && !conflict ==> forall n :: n in disk.tombs[id].contents ==> i <= n
        invariant (forall k :: io(k)) ==> !failed
        invariant DistinctPaths(es) ==> Restoring(old(disk), disk, id, i, failed)
        invariant DistinctPaths(es) && conflict ==> !ConflictFree(old(disk), id)
      {
        ghost var t, before := trace, disk;
        var bad, taken := PutEntryBack(id, i, io(i));
        ContinuesTransitively(trace, t, old(trace));
        ReturnedFurther(old(disk), before, disk, id);
        if DistinctPaths(es) { RestoringOn(old(disk), before, disk, id, i, failed, bad); }
        failed, conflict := failed || bad, conflict || taken;
      }
      if !failed && !conflict {
        assert disk.tombs[id].contents.Keys == {};
      }
    }

    /**
     * restoreLocalTomb: puts every file back; a recreated path keeps the rest aside. A conflict-free
     * restore leaves exactly the files that were there before the deletion started.
     */
    method RestoreTomb(id: TombId, io: nat -> bool) returns (ok: bool)
      requires Valid() && Restorable(disk, id)
      modifies this
      ensures Valid() && Continues(trace, old(trace))
      ensures disk.identities == old(disk.identities) && disk.tombs - {id} == old(disk.tombs) - {id}
      ensures id in disk.tombs ==> disk.tombs[id].key == old(disk.tombs)[id].key && disk.tombs[id].marker != Erasing
      ensures ok && id in disk.tombs ==> disk.tombs[id].marker == Conflict
      ensures SameElsewhere(old(disk), disk, Entries(old(disk.tombs)[id]))
      ensures DistinctPaths(Entries(old(disk.tombs)[id])) ==>
                forall p :: Lookup(disk, id, p) == Lookup(old(disk), id, p)
      ensures ok && ConflictFree(old(disk), id) && DistinctPaths(Entries(old(disk.tombs)[id])) ==> id !in disk.tombs
      ensures ok && DistinctPaths(Entries(old(disk.tombs)[id])) ==> OnlyConflictsStay(old(disk), disk, id)
      ensures (forall k :: io(k)) ==> ok
    {
      var count := |Entries(disk.tombs[id])|;
      var failed, conflict := PutBack(id, io);
      if failed {
        return false;
      }
      if conflict {
        ok := io(count);
        if ok { Perform(SetAside(id)); }
        return;
      }
      ghost var t := trace;
      ok := RemoveEmptied(id, (k: nat) => io(count + k));
      ContinuesTransitively(trace, t, old(trace));
    }

    /** The end of a restore: nothing is left in the tombstone, and it goes. */
    method RemoveEmptied(id: TombId, io: nat -> bool) returns (ok: bool)
      requires Valid() && Restorable(disk, id) && disk.tombs[id].contents == map[]
      modifies this
      ensures Valid() && Continues(trace, old(trace))
      ensures disk.identities == old(disk.identities) && disk.tombs - {id} == old(disk.tombs) - {id}
      ensures disk.files == old(disk.files)
      ensures ok <==> id !in disk.tombs
      ensures !ok ==> disk.tombs[id].key == old(disk.tombs)[id].key && disk.tombs[id].marker == Deleted
      ensures !ok ==> disk.tombs[id].contents == map[]
      ensures forall p :: Lookup(disk, id, p) == Lookup(old(disk), id, p)
      ensures (forall k :: io(k)) ==> ok
    {
      ghost var d := disk;
      ok := RemoveAll(id, io);
      if !ok { assert disk.tombs[id].contents.Keys == {}; }
      forall p ensures Lookup(disk, id, p) == Lookup(d, id, p) {
        FindNone(Entries(d.tombs[id]), map[], p);
        if id in disk.tombs { FindNone(Entries(disk.tombs[id]), disk.tombs[id].contents, p); }
      }
    }

    // ----- sweeping, importing, deleting -------------------------------------------------------

    /** What `live` and `complete` say about the stored identities is true. */
    ghost predicate Knows(live: set<Key>, complete: bool) reads this {
      live <= disk.identities && (complete ==> live == disk.identities)
    }

    method SweepOne(id: TombId, live: set<Key>, complete: bool, io: nat -> bool) returns (done: bool)
      requires Valid() && id in disk.tombs && Knows(live, complete)
      modifies this
      ensures Valid() && Continues(trace, old(trace))
      ensures SweptOne(old(disk), disk, id, done) && (done ==> Settled(disk, id, complete))
      ensures (forall k :: io(k)) ==> (done <==> !Undecided(old(disk), id, live, complete))
    {
      var t := disk.tombs[id];
      if t.marker == Erasing {
        done := RemoveAll(id, io);
      } else if t.key !in live && complete {
        if t.marker == Conflict {
          done := RemoveAll(id, io);
        } else {
          done := EraseTomb(id, io);
        }
      } else if t.key in live && t.marker == Deleted {
        done := RestoreTomb(id, io);
      } else {
        done := t.marker == Conflict;
      }
    }

    /**
     * sweepIdentityLocalTombs. A directory that cannot be listed reads as an empty one, and the sweep then
     * reports completion. Completion means that only settled tombstones remain if and only if the listing
     * succeeded or there were no others to begin with. A lone tombstone of a live identity is restored: its
     * files are back or still to be restored, and with completion they are back.
     */
    method Sweep(listed: bool, live: set<Key>, complete: bool, io: (TombId, nat) -> bool) returns (done: bool)
      requires Valid() && Knows(live, complete)
      modifies this
      ensures Valid() && Continues(trace, old(trace)) && disk.identities == old(disk.identities)
      ensures !listed ==> done && disk == old(disk)
      ensures done ==> (AllSettled(disk, complete) <==> listed || AllSettled(old(disk), complete))
      ensures forall id :: id in old(disk).tombs ==> Kept(old(disk), disk, id)
      ensures forall p :: Unlisted(old(disk), p) ==> SameFile(old(disk), disk, p)
      ensures disk.tombs.Keys <= old(disk.tombs).Keys
      ensures listed && done ==> forall id :: Alone(old(disk), id) && ConflictFree(old(disk), id) ==> id !in disk.tombs
      ensures listed && (forall id, k :: io(id, k)) ==>
                (done <==> forall id :: id in old(disk.tombs) ==> !Undecided(old(disk), id, live, complete))
    {
      done := true;
      if !listed { return; }
      ghost var d := disk;
      var left := disk.tombs.Keys;
      while left != {}
        invariant Valid() && Continues(trace, old(trace)) && Swept(d, disk, left, complete, done) &&
                    Knows(live, complete)
        invariant (forall id, k :: io(id, k)) ==>
                    (done <==> forall id :: id in d.tombs && id !in left ==> !Undecided(d, id, live, complete))
      {
        var id :| id in left;
        assert Untouched(d, disk, id);
        ghost var t, before, was := trace, disk, done;
        var ok := SweepOne(id, live, complete, (k: nat) => io(id, k));
        ContinuesTransitively(trace, t, old(trace));
        done := done && ok;
        SweepGoesOn(d, before, disk, left, id, complete, was, ok);
        left := left - {id};
      }
    }

    /**
     * finishIdentityLocalDeletion. Success means that no tombstone is left that a later sweep could restore
     * under the key if and only if the listing succeeded or there was none to begin with. Unknown liveness
     * erases nothing.
     */
    method FinishDeletion(listed: bool, key: Key, complete: bool, io: (TombId, nat) -> bool) returns (ok: bool)
      requires Valid() && (complete ==> key !in disk.identities)
      modifies this
      ensures Valid() && Continues(trace, old(trace)) && disk.identities == old(disk.identities)
      ensures !listed ==> ok && disk == old(disk)
      ensures ok ==> (Clean(disk, key) <==> listed || Clean(old(disk), key))
      ensures !complete ==> disk == old(disk)
      ensures listed && !complete ==> (ok <==> Clean(old(disk), key))
      ensures listed && complete && (forall id, k :: io(id, k)) ==> ok
      ensures ok && listed && complete ==> forall id :: id in disk.tombs ==> disk.tombs[id].key != key
      ensures disk.files == old(disk.files) && OtherKeysSame(old(disk), disk, key)
    {
      if !listed { return true; }
      var left := set id | id in disk.tombs && disk.tombs[id].key == key;
      if !complete {
        ok := forall id :: id in left ==> disk.tombs[id].marker != Deleted;
        return;
      }
      while left != {}
        invariant Valid() && Continues(trace, old(trace)) && disk.identities == old(disk.identities)
        invariant left <= disk.tombs.Keys && forall id :: id in left ==> disk.tombs[id].key == key
        invariant forall id :: id in disk.tombs && disk.tombs[id].key == key ==> id in left
        invariant disk.files == old(disk.files) && OtherKeysSame(old(disk), disk, key)
      {
        var id :| id in left;
        ghost var t, before := trace, disk;
        ok := FinishOne(id, (k: nat) => io(id, k));
        ContinuesTransitively(trace, t, old(trace));
        OthersSame(before, disk, id);
        if !ok { return; }
        left := left - {id};
      }
      ok := true;
    }

    /** Erases one tombstone of a key that is not stored. */
    method FinishOne(id: TombId, io: nat -> bool) returns (ok: bool)
      requires Valid() && id in disk.tombs && disk.tombs[id].key !in disk.identities
      modifies this
      ensures Valid() && Continues(trace, old(trace)) && disk.identities == old(disk.identities)
      ensures disk.files == old(disk.files) && disk.tombs - {id} == old(disk.tombs) - {id}
      ensures ok ==> id !in disk.tombs
      ensures id in disk.tombs ==> disk.tombs[id].key == old(disk.tombs)[id].key
      ensures (forall k :: io(k)) ==> ok
    {
      if disk.tombs[id].marker == Deleted {
        ok := EraseTomb(id, io);
      } else {
        ok := RemoveAll(id, io);
      }
    }

    /** Where the deletion stands after moving some kinds: a restore would still give back everything. */
    ghost predicate Moving(d: Disk, id: TombId, key: Key) reads this {
      && MovedInto(d, disk, id)
      && (id in disk.tombs ==>
            Restorable(disk, id) && disk.tombs[id].key == key && DistinctPaths(Entries(disk.tombs[id])))
      && (id !in disk.tombs ==> disk == d)
    }

    /** The moves of tombstoneIdentityLocalData, one batch of paths per kind of file. */
    method MoveKinds(id: TombId, key: Key, kinds: seq<seq<Path>>, io: (nat, nat) -> bool) returns (ok: bool)
      requires Valid() && key in disk.identities && id !in disk.tombs
      requires forall i, j, p :: 0 <= i < j < |kinds| && p in kinds[i] ==> p !in kinds[j]
      modifies this
      ensures Valid() && Continues(trace, old(trace)) && Moving(old(disk), id, key)
      ensures id in disk.tombs ==> forall p :: Lists(Entries(disk.tombs[id]), p) ==> AmongKinds(p, kinds, |kinds|)
      ensures ok ==> forall i, p :: 0 <= i < |kinds| && p in kinds[i] ==> p !in disk.files
      ensures (forall k, n :: io(k, n)) ==> ok
    {
      var entries := [];
      for k := 0 to |kinds|
        invariant Valid() && Continues(trace, old(trace)) && Moving(old(disk), id, key) && Building(id, key, entries)
        invariant forall i :: 0 <= i < |entries| ==> AmongKinds(entries[i].path, kinds, k)
        invariant forall i, p :: 0 <= i < k && p in kinds[i] ==> p !in disk.files
      {
        ghost var t, before, was := trace, disk, entries;
        ok, entries := Move(id, key, entries, kinds[k], (n: nat) => io(k, n));
        ContinuesTransitively(trace, t, old(trace));
        MovedFurther(old(disk), before, disk, id);
        forall i | 0 <= i < |entries| ensures AmongKinds(entries[i].path, kinds, k + 1) {
          if i < |was| { assert AmongKinds(was[i].path, kinds, k); }
        }
        if !ok { return; }
      }
      ok := true;
    }

    /**
     * A deletion that a crash stops anywhere, and the sweep after the restart: if the sweep says it is
     * done, every file that the deletion was about is as it was, and its tombstone is gone.
     */
    method InterruptThenSweep(id: TombId, key: Key, kinds: seq<seq<Path>>, live: set<Key>, complete: bool,
                              cut: (nat, nat) -> bool, io: (TombId, nat) -> bool)
      returns (done: bool)
      requires Valid() && Knows(live, complete) && key in live && id !in disk.tombs
      requires forall i, j, p :: 0 <= i < j < |kinds| && p in kinds[i] ==> p !in kinds[j]
      requires forall p :: AmongKinds(p, kinds, |kinds|) ==> Unlisted(disk, p)
      modifies this
      ensures Valid() && Continues(trace, old(trace))
      ensures done ==> id !in disk.tombs && forall p :: AmongKinds(p, kinds, |kinds|) ==> SameFile(old(disk), disk, p)
    {
      var _ := MoveKinds(id, key, kinds, cut);
      ghost var t, crashed := trace, disk;
      done := Sweep(true, live, complete, io);
      ContinuesTransitively(trace, t, old(trace));
      if done { CrashThenSweepRestores(old(disk), crashed, disk, id, kinds); }
    }

    /**
     * deleteIdentityWithStores, as far as the local data goes: move, commit by removing the identity,
     * erase; any failure before the commit rolls back. A deletion that did not commit and left no
     * tombstone has changed no file; one that committed has every file off its path.
     */
    method DeleteIdentity(id: TombId, key: Key, kinds: seq<seq<Path>>, io: (nat, nat) -> bool) returns (committed: bool)
      requires Valid() && key in disk.identities && id !in disk.tombs
      requires forall i, j, p :: 0 <= i < j < |kinds| && p in kinds[i] ==> p !in kinds[j]
      modifies this
      ensures Valid()
      ensures committed ==> disk.identities == old(disk.identities) - {key}
      ensures committed ==> forall i, p :: 0 <= i < |kinds| && p in kinds[i] ==> p !in disk.files
      ensures !committed ==> Continues(trace, old(trace)) && disk.identities == old(disk.identities)
      ensures !committed ==> forall p :: Lookup(disk, id, p) == Lookup(old(disk), id, p)
      ensures !committed && id !in disk.tombs ==> disk.files == old(disk.files)
      ensures !committed && (forall n :: io(1, n)) ==> id !in disk.tombs
      ensures forall p :: !AmongKinds(p, kinds, |kinds|) ==> SameFile(old(disk), disk, p)
      ensures disk.tombs - {id} == old(disk.tombs) - {id}
      ensures (forall k, n :: io(k, n)) ==> committed && id !in disk.tombs
    {
      ghost var t0, d0 := trace, disk;
      var ok := MoveKinds(id, key, kinds, (k: nat, n: nat) => io(k + 2, n));
      ghost var moved := disk;
      forall p | !AmongKinds(p, kinds, |kinds|)
        ensures SameFile(d0, moved, p) && (id in moved.tombs ==> !Lists(Entries(moved.tombs[id]), p))
      {
        OutsideStays(d0, moved, id, kinds, p);
      }
      if !ok || !io(0, 0) {
        if id in disk.tombs {
          ghost var t := trace;
          var restored := RestoreTomb(id, (n: nat) => io(1, n));
          ContinuesTransitively(trace, t, t0);
        }
        if id !in disk.tombs {
          forall p ensures (p in disk.files <==> p in d0.files) && (p in d0.files ==> disk.files[p] == d0.files[p]) {
            assert Lookup(disk, id, p) == Lookup(d0, id, p);
          }
        }
        return false;
      }
      Perform(Commit(key));
      if id in disk.tombs {
        var erased := EraseTomb(id, (n: nat) => io(1, n));
      }
      committed := true;
    }
  }

  /**
   * What every crash inside a method means: the rest of the program then goes on as it likes, and the
   * file stays recoverable as long as what happens spares it. The methods' own operations always do.
   */
  lemma CrashesKeepRecoverable(start: Trace, crashed: Trace, end: Trace, p: Path, c: Content)
    requires Legal(start) && Legal(crashed) && Legal(end) && Listed(Now(start))
    requires Continues(crashed, start) && Spares(end, crashed, p, c) && Recoverable(Now(start), p, c)
    ensures Recoverable(Now(crashed), p, c) && Recoverable(Now(end), p, c)
  {
    CarefulSpares(crashed, start, p, c);
    TracesKeepRecoverable(crashed, start, p, c);
    TracesKeepRecoverable(end, crashed, p, c);
  }
}
