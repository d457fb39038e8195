/**
 * Identity deletion on disk (client/identity_local_data.go, client/ratchet_tombstone.go).
 *
 * The disk holds the local files, the identities that are stored, and the tombstone directories under
 * the deletion base. `Op` lists every single disk operation of the protocol with the condition under
 * which the code performs it; a crash may fall between any two of them, so what is proved for every
 * sequence of operations is proved for every crash point and every later sweep.
 */
module Tombstones {
  import opened Common

  type Path = string
  type Key = string
  /** A tombstone directory, whatever its marker. */
  type TombId = nat
  /** A file inside a tombstone: the number that the code prints with four digits. */
  type Name = nat
  /** One written version of a file: two writes never produce the same content. */
  type Content = nat

  datatype Marker = Deleted | Erasing | Conflict

  datatype Entry = Entry(path: Path, name: Name)

  datatype Tomb = Tomb(key: Key, marker: Marker, manifest: Option<seq<Entry>>, contents: map<Name, Content>)

  datatype Disk = Disk(files: map<Path, Content>, tombs: map<TombId, Tomb>, identities: set<Key>)

  datatype Op =
    | MakeDir(id: TombId, key: Key)
    | WriteManifest(id: TombId, entries: seq<Entry>)
    | MoveIn(id: TombId, i: nat)
    | MoveBack(id: TombId, i: nat)
    | SetAside(id: TombId)
    | MarkErasing(id: TombId)
    | EraseFile(id: TombId, n: Name)
    | DropManifest(id: TombId)
    | DropDir(id: TombId)
    | Commit(key: Key)
    | Import(key: Key)
    | WriteFile(path: Path, content: Content)
    | RemoveFile(path: Path)

  function Entries(t: Tomb): seq<Entry> {
    if t.manifest.Some? then t.manifest.value else []
  }

  /** An uncommitted tombstone whose identity exists: authoritative, restored and never erased. */
  predicate Restorable(d: Disk, id: TombId) {
    id in d.tombs && d.tombs[id].marker == Deleted && d.tombs[id].key in d.identities
  }

  /** A tombstone of a committed deletion, or of an identity that is gone. */
  predicate Erasable(d: Disk, id: TombId) {
    id in d.tombs && (d.tombs[id].marker == Erasing || d.tombs[id].key !in d.identities)
  }

  predicate Named(entries: seq<Entry>) {
    forall i :: 0 <= i < |entries| ==> entries[i].name == i
  }

  /** The condition under which the code performs an operation. */
  predicate Enabled(d: Disk, op: Op) {
    match op
    case MakeDir(id, key) => id !in d.tombs && key in d.identities
    case WriteManifest(id, es) => Restorable(d, id) && Entries(d.tombs[id]) <= es && Named(es)
    case MoveIn(id, i) =>
      Restorable(d, id) && i < |Entries(d.tombs[id])| && i !in d.tombs[id].contents
      && Entries(d.tombs[id])[i].path in d.files
    case MoveBack(id, i) =>
      Restorable(d, id) && i < |Entries(d.tombs[id])| && i in d.tombs[id].contents
      && Entries(d.tombs[id])[i].path !in d.files
    case SetAside(id) => Restorable(d, id)
    case MarkErasing(id) => Erasable(d, id) && d.tombs[id].marker == Deleted
    case EraseFile(id, n) => Erasable(d, id) && n in d.tombs[id].contents
    case DropManifest(id) => Erasable(d, id) || (Restorable(d, id) && d.tombs[id].contents == map[])
    case DropDir(id) => id in d.tombs && d.tombs[id].contents == map[] && d.tombs[id].manifest.None?
    case Commit(key) => key in d.identities
    case Import(_) => true
    case WriteFile(_, _) => true
    case RemoveFile(p) => p in d.files
  }

  /** No tombstone is left that an identity of this key would bring back. */
  predicate Clean(d: Disk, key: Key) {
    forall id :: id in d.tombs && d.tombs[id].key == key ==> d.tombs[id].marker != Deleted
  }

  /** What finishing an earlier deletion is there to ensure before a key is imported. */
  predicate Guarded(d: Disk, op: Op) { op.Import? ==> Clean(d, op.key) }

  function Apply(d: Disk, op: Op): Disk
    requires Enabled(d, op)
  {
    match op
    case MakeDir(id, key) => d.(tombs := d.tombs[id := Tomb(key, Deleted, None, map[])])
    case WriteManifest(id, es) => d.(tombs := d.tombs[id := d.tombs[id].(manifest := Some(es))])
    case MoveIn(id, i) =>
      var t := d.tombs[id];
      var p := Entries(t)[i].path;
      d.(files := d.files - {p}, tombs := d.tombs[id := t.(contents := t.contents[i := d.files[p]])])
    case MoveBack(id, i) =>
      var t := d.tombs[id];
      var p := Entries(t)[i].path;
      d.(files := d.files[p := t.contents[i]], tombs := d.tombs[id := t.(contents := t.contents - {i})])
    case SetAside(id) => d.(tombs := d.tombs[id := d.tombs[id].(marker := Conflict)])
    case MarkErasing(id) => d.(tombs := d.tombs[id := d.tombs[id].(marker := Erasing)])
    case EraseFile(id, n) => d.(tombs := d.tombs[id := d.tombs[id].(contents := d.tombs[id].contents - {n})])
    case DropManifest(id) => d.(tombs := d.tombs[id := d.tombs[id].(manifest := None)])
    case DropDir(id) => d.(tombs := d.tombs - {id})
    case Commit(key) => d.(identities := d.identities - {key})
    case Import(key) => d.(identities := d.identities + {key})
    case WriteFile(p, c) => d.(files := d.files[p := c])
    case RemoveFile(p) => d.(files := d.files - {p})
  }

  // ----- nothing of a live identity is lost ----------------------------------------------------

  /** Tombstone `id` holds content `c` of path `p` under the `i`-th name its manifest lists. */
  predicate HeldAt(d: Disk, id: TombId, i: nat, p: Path, c: Content) {
    && id in d.tombs && d.tombs[id].marker != Erasing && d.tombs[id].key in d.identities
    && i < |Entries(d.tombs[id])| && Entries(d.tombs[id])[i] == Entry(p, i)
    && i in d.tombs[id].contents && d.tombs[id].contents[i] == c
  }

  /** `c` is at its path, or in a live identity's tombstone under a manifest-listed name. */
  ghost predicate Recoverable(d: Disk, p: Path, c: Content) {
    (p in d.files && d.files[p] == c) || exists id, i :: HeldAt(d, id, i, p, c)
  }

  predicate Overwrites(op: Op, p: Path) {
    (op.WriteFile? || op.RemoveFile?) && op.path == p
  }

  /** Manifests of restorable tombstones name their entries by position and list all their contents. */
  ghost predicate Listed(d: Disk) {
    forall id :: Restorable(d, id) ==> ListedTomb(d.tombs[id])
  }

  predicate ListedTomb(t: Tomb) {
    Named(Entries(t)) && forall n :: n in t.contents ==> n < |Entries(t)|
  }

  lemma ListedKept(d: Disk, op: Op)
    requires Listed(d) && Enabled(d, op) && Guarded(d, op)
    ensures Listed(Apply(d, op))
  {
    var d' := Apply(d, op);
    forall id | Restorable(d', id) ensures ListedTomb(d'.tombs[id]) {
      if op.MakeDir? && op.id == id {
      } else {
        assert Restorable(d, id);
        assert ListedTomb(d.tombs[id]);
      }
    }
  }

  /** No operation loses a recoverable file of a live identity, other than a writer of its own path. */
  lemma StepKeepsRecoverable(d: Disk, op: Op, p: Path, c: Content)
    requires Listed(d) && Enabled(d, op) && Recoverable(d, p, c)
    requires !Overwrites(op, p) && !op.Commit?
    ensures Recoverable(Apply(d, op), p, c)
  {
    var d' := Apply(d, op);
    if p in d.files && d.files[p] == c {
      if p !in d'.files {
        assert ListedTomb(d.tombs[op.id]);
        assert HeldAt(d', op.id, op.i, p, c);
      }
    } else {
      var id, i :| HeldAt(d, id, i, p, c);
      if op == MoveBack(id, i) {
        assert d'.files[p] == c;
      } else {
        assert HeldAt(d', id, i, p, c);
      }
    }
  }

  /** The commit gives up only what the deleted identity's own tombstones hold. */
  lemma CommitKeepsOthers(d: Disk, key: Key, p: Path, c: Content)
    requires key in d.identities && Recoverable(d, p, c)
    ensures Recoverable(Apply(d, Commit(key)), p, c)
            || exists id, i :: HeldAt(d, id, i, p, c) && d.tombs[id].key == key
  {
    var d' := Apply(d, Commit(key));
    if !(p in d.files && d.files[p] == c) {
      var id, i :| HeldAt(d, id, i, p, c);
      if d.tombs[id].key != key { assert HeldAt(d', id, i, p, c); }
    }
  }

  /** A record of disk operations, each performed where the protocol allows it. */
  datatype Trace = Start(disk: Disk) | Then(prev: Trace, op: Op)

  ghost function Now(t: Trace): Disk
    requires Legal(t)
    decreases t, 1
  {
    match t
    case Start(d) => d
    case Then(prev, op) => Apply(Now(prev), op)
  }

  ghost predicate Legal(t: Trace)
    decreases t, 0
  {
    t.Then? ==> Legal(t.prev) && Enabled(Now(t.prev), t.op)
  }

  /** Operations that never give up data of a live identity. */
  predicate Careful(op: Op) {
    !op.Commit? && !op.WriteFile? && !op.RemoveFile? && !op.Import?
  }

  /** `t` continues `from` by careful operations only; its ends are all the points a crash can leave. */
  ghost predicate Continues(t: Trace, from: Trace) {
    t == from || (t.Then? && Careful(t.op) && Continues(t.prev, from))
  }

  lemma {:induction false} ContinuesTransitively(t: Trace, u: Trace, from: Trace)
    requires Continues(t, u) && Continues(u, from)
    ensures Continues(t, from)
  {
    if t != u { ContinuesTransitively(t.prev, u, from); }
  }

  /** A commit gives up this file: the deleted identity's own tombstone holds it. */
  ghost predicate GivenUp(d: Disk, op: Op, p: Path, c: Content) {
    op.Commit? && exists id, i :: HeldAt(d, id, i, p, c) && d.tombs[id].key == op.key
  }

  /**
   * From `from` to `t` nobody writes or removes the file at `p`, no commit gives up its content, and
   * every import finds its key's deletion finished. Anything else may happen.
   */
  ghost predicate Spares(t: Trace, from: Trace, p: Path, c: Content)
    requires Legal(t)
  {
    || t == from
    || (t.Then? && Spares(t.prev, from, p, c) && Guarded(Now(t.prev), t.op)
        && !Overwrites(t.op, p) && !GivenUp(Now(t.prev), t.op, p, c))
  }

  /** What the deletion and recovery code itself does spares every file. */
  lemma {:induction false} CarefulSpares(t: Trace, from: Trace, p: Path, c: Content)
    requires Legal(t) && Continues(t, from)
    ensures Spares(t, from, p, c)
  {
    if t != from { CarefulSpares(t.prev, from, p, c); }
  }

  /**
   * From any disk with listed tombstones, through any number of deletions and commits of other
   * identities, rollbacks, crashes, sweeps, imports and writes elsewhere, a recoverable file stays
   * recoverable until somebody writes or removes it, or the identity whose tombstone holds it is deleted.
   */
  lemma {:induction false} TracesKeepRecoverable(t: Trace, from: Trace, p: Path, c: Content)
    requires Legal(from) && Legal(t) && Spares(t, from, p, c) && Listed(Now(from)) && Recoverable(Now(from), p, c)
    ensures Listed(Now(t)) && Recoverable(Now(t), p, c)
  {
    if t != from {
      TracesKeepRecoverable(t.prev, from, p, c);
      ListedKept(Now(t.prev), t.op);
      if t.op.Commit? {
        CommitKeepsOthers(Now(t.prev), t.op.key, p, c);
      } else {
        StepKeepsRecoverable(Now(t.prev), t.op, p, c);
      }
    }
  }

  // ----- deleted data never comes back ---------------------------------------------------------

  /** Where a content can be. */
  datatype Place = AtPath(path: Path) | InTomb(id: TombId, name: Name)

  predicate Has(d: Disk, at: Place, c: Content) {
    match at
    case AtPath(p) => p in d.files && d.files[p] == c
    case InTomb(id, n) => id in d.tombs && n in d.tombs[id].contents && d.tombs[id].contents[n] == c
  }

  /** The disk with its history: contents ever written, and contents doomed by a committed deletion. */
  datatype History = History(disk: Disk, ever: set<Content>, doomed: set<Content>)

  function Contents(t: Tomb): set<Content> {
    set n | n in t.contents :: t.contents[n]
  }

  function ContentsOf(d: Disk, key: Key): set<Content> {
    set id, n | id in d.tombs && d.tombs[id].key == key && n in d.tombs[id].contents :: d.tombs[id].contents[n]
  }

  predicate EnabledH(h: History, op: Op) {
    Enabled(h.disk, op) && (op.WriteFile? ==> op.content !in h.ever)
  }

  function ApplyH(h: History, op: Op): History
    requires EnabledH(h, op)
  {
    History(Apply(h.disk, op),
            if op.WriteFile? then h.ever + {op.content} else h.ever,
            if op.Commit? then h.doomed + ContentsOf(h.disk, op.key) else h.doomed)
  }

  ghost predicate Sound(h: History) {
    && Listed(h.disk)
    && (forall a, b, c :: Has(h.disk, a, c) && Has(h.disk, b, c) ==> a == b)
    && (forall a, c :: Has(h.disk, a, c) ==> c in h.ever)
    && h.doomed <= h.ever
    && (forall p, c :: Has(h.disk, AtPath(p), c) ==> c !in h.doomed)
    && (forall id, n, c :: Has(h.disk, InTomb(id, n), c) && Restorable(h.disk, id) ==> c !in h.doomed)
  }

  /** Where the content at `at` was before the operation. */
  function Origin(d: Disk, op: Op, at: Place): Place
    requires Enabled(d, op)
  {
    if op.MoveIn? && at == InTomb(op.id, op.i) then AtPath(Entries(d.tombs[op.id])[op.i].path)
    else if op.MoveBack? && at == AtPath(Entries(d.tombs[op.id])[op.i].path) then InTomb(op.id, op.i)
    else at
  }

  lemma OriginHas(d: Disk, op: Op, at: Place, c: Content)
    requires Enabled(d, op) && Has(Apply(d, op), at, c)
    ensures Has(d, Origin(d, op, at), c) || (op.WriteFile? && at == AtPath(op.path) && c == op.content)
    ensures forall b, e :: Has(Apply(d, op), b, e) && Origin(d, op, b) == Origin(d, op, at) ==> b == at
  {
  }

  lemma StepKeepsSound(h: History, op: Op)
    requires Sound(h) && EnabledH(h, op) && Guarded(h.disk, op)
    ensures Sound(ApplyH(h, op))
  {
    var d, h' := h.disk, ApplyH(h, op);
    ListedKept(d, op);
    forall a, b, c | Has(h'.disk, a, c) && Has(h'.disk, b, c) ensures a == b {
      OriginHas(d, op, a, c);
      OriginHas(d, op, b, c);
    }
    forall a, c | Has(h'.disk, a, c) ensures c in h'.ever { OriginHas(d, op, a, c); }
    forall p, c | Has(h'.disk, AtPath(p), c) ensures c !in h'.doomed {
      OriginHas(d, op, AtPath(p), c);
      FilesEscapeDoom(h, op, AtPath(p), c);
    }
    forall id, n, c | Has(h'.disk, InTomb(id, n), c) && Restorable(h'.disk, id) ensures c !in h'.doomed {
      OriginHas(d, op, InTomb(id, n), c);
      FilesEscapeDoom(h, op, InTomb(id, n), c);
    }
    assert h'.doomed <= h'.ever by {
      forall c | c in h'.doomed ensures c in h'.ever {
        if c !in h.doomed { var id, n := DoomedIsHeld(d, op.key, c); }
      }
    }
  }

  lemma DoomedIsHeld(d: Disk, key: Key, c: Content) returns (id: TombId, n: Name)
    requires c in ContentsOf(d, key)
    ensures Has(d, InTomb(id, n), c) && d.tombs[id].key == key
  {
    id, n :| id in d.tombs && d.tombs[id].key == key && n in d.tombs[id].contents && d.tombs[id].contents[n] == c;
  }

  /** What is at a path or restorable after an operation was so before, and was not doomed by it. */
  lemma FilesEscapeDoom(h: History, op: Op, at: Place, c: Content)
    requires Sound(h) && EnabledH(h, op) && Guarded(h.disk, op) && Has(Apply(h.disk, op), at, c)
    requires Has(h.disk, Origin(h.disk, op, at), c) || (op.WriteFile? && c == op.content)
    requires at.AtPath? || Restorable(Apply(h.disk, op), at.id)
    ensures c !in ApplyH(h, op).doomed
  {
    var d := h.disk;
    if op.WriteFile? && c == op.content {
      assert c !in h.doomed;
    } else {
      var from := Origin(d, op, at);
      assert from.InTomb? ==> Restorable(d, from.id);
      assert c !in h.doomed by { if from.AtPath? { assert Has(d, AtPath(from.path), c); } }
      if op.Commit? && c in ContentsOf(d, op.key) {
        var id, n := DoomedIsHeld(d, op.key, c);
        assert false;
      }
    }
  }

  ghost predicate RunH(hs: seq<History>, ops: seq<Op>) {
    && |hs| == |ops| + 1
    && forall i {:trigger ops[i]} :: 0 <= i < |ops| ==> EnabledH(hs[i], ops[i]) && hs[i + 1] == ApplyH(hs[i], ops[i])
  }

  lemma {:induction false} RunsKeepSound(hs: seq<History>, ops: seq<Op>, n: nat, m: nat)
    requires RunH(hs, ops) && n <= m < |hs| && Sound(hs[n])
    requires forall i {:trigger ops[i]} :: n <= i < m ==> Guarded(hs[i].disk, ops[i])
    ensures Sound(hs[m]) && hs[n].doomed <= hs[m].doomed
  {
    if n < m {
      RunsKeepSound(hs, ops, n, m - 1);
      assert hs[m - 1 + 1] == ApplyH(hs[m - 1], ops[m - 1]);
      StepKeepsSound(hs[m - 1], ops[m - 1]);
    }
  }

  /**
   * Whatever a deletion had moved into its tombstones when it committed is never at any path again,
   * through any number of crashes, sweeps and re-imports of the same key, as long as each import finds
   * the key's deletion finished.
   */
  lemma DeletedDataNeverReturns(hs: seq<History>, ops: seq<Op>, n: nat, m: nat, p: Path, c: Content)
    requires RunH(hs, ops) && n < m < |hs| && Sound(hs[n])
    requires forall i {:trigger ops[i]} :: n <= i < m ==> Guarded(hs[i].disk, ops[i])
    requires ops[n].Commit? && c in ContentsOf(hs[n].disk, ops[n].key)
    ensures !(p in hs[m].disk.files && hs[m].disk.files[p] == c)
  {
    RunsKeepSound(hs, ops, n, n + 1);
    RunsKeepSound(hs, ops, n + 1, m);
    if p in hs[m].disk.files { assert Has(hs[m].disk, AtPath(p), hs[m].disk.files[p]); }
  }

  /** A tombstone of a committed deletion, not yet marked as erased, still lists and holds a file. */
  predicate Lingers(d: Disk, key: Key, id: TombId, i: nat) {
    && id in d.tombs && d.tombs[id].key == key && d.tombs[id].marker == Deleted
    && i < |Entries(d.tombs[id])| && i in d.tombs[id].contents
  }

  /** The operations that bring it back: its path is free or freed, the key comes back, the file is restored. */
  function BringBack(h: History, key: Key, id: TombId, i: nat): History
    requires Lingers(h.disk, key, id, i)
  {
    var p := Entries(h.disk.tombs[id])[i].path;
    var a := if p in h.disk.files then ApplyH(h, RemoveFile(p)) else h;
    ApplyH(ApplyH(a, Import(key)), MoveBack(id, i))
  }

  /** Importing a key whose deletion is not finished lets every file that lingers return to its path. */
  lemma UnguardedImportReturnsData(h: History, key: Key, id: TombId, i: nat)
    requires Lingers(h.disk, key, id, i)
    ensures !Guarded(h.disk, Import(key))
    ensures var p, c := Entries(h.disk.tombs[id])[i].path, h.disk.tombs[id].contents[i];
            var h' := BringBack(h, key, id, i);
            p in h'.disk.files && h'.disk.files[p] == c && (c in h.doomed ==> c in h'.doomed)
  {
  }

  /** A file, its deletion up to the commit, an import that did not wait for the clean-up, and the restore. */
  function Relapse(i: nat): History {
    var es, held := [Entry("p", 0)], map[0 := 1];
    var d := Disk(map["p" := 1], map[], {"k"});
    var moved := Disk(map[], map[0 := Tomb("k", Deleted, Some(es), held)], {"k"});
    if i == 0 then History(d, {1}, {})
    else if i == 1 then History(d.(tombs := map[0 := Tomb("k", Deleted, None, map[])]), {1}, {})
    else if i == 2 then History(d.(tombs := map[0 := Tomb("k", Deleted, Some(es), map[])]), {1}, {})
    else if i == 3 then History(moved, {1}, {})
    else if i == 4 then History(moved.(identities := {}), {1}, {1})
    else if i == 5 then History(moved, {1}, {1})
    else History(d.(tombs := map[0 := Tomb("k", Deleted, Some(es), map[])]), {1}, {1})
  }

  lemma RelapseDeletes()
    ensures EnabledH(Relapse(0), MakeDir(0, "k")) && ApplyH(Relapse(0), MakeDir(0, "k")) == Relapse(1)
    ensures EnabledH(Relapse(1), WriteManifest(0, [Entry("p", 0)]))
    ensures ApplyH(Relapse(1), WriteManifest(0, [Entry("p", 0)])) == Relapse(2)
    ensures EnabledH(Relapse(2), MoveIn(0, 0)) && ApplyH(Relapse(2), MoveIn(0, 0)) == Relapse(3)
  {
  }

  lemma RelapseReturns()
    ensures EnabledH(Relapse(3), Commit("k")) && ApplyH(Relapse(3), Commit("k")) == Relapse(4)
    ensures EnabledH(Relapse(4), Import("k")) && ApplyH(Relapse(4), Import("k")) == Relapse(5)
    ensures EnabledH(Relapse(5), MoveBack(0, 0)) && ApplyH(Relapse(5), MoveBack(0, 0)) == Relapse(6)
    ensures 1 in ContentsOf(Relapse(3).disk, "k")
  {
    var d := Relapse(3).disk;
    assert 0 in d.tombs && d.tombs[0].key == "k" && 0 in d.tombs[0].contents && d.tombs[0].contents[0] == 1;
    assert ContentsOf(d, "k") == {1};
  }

  function RelapseOp(i: nat): Op {
    if i == 0 then MakeDir(0, "k")
    else if i == 1 then WriteManifest(0, [Entry("p", 0)])
    else if i == 2 then MoveIn(0, 0)
    else if i == 3 then Commit("k")
    else if i == 4 then Import("k")
    else MoveBack(0, 0)
  }

  lemma RelapseStep(i: nat)
    requires i < 6
    ensures EnabledH(Relapse(i), RelapseOp(i)) && Relapse(i + 1) == ApplyH(Relapse(i), RelapseOp(i))
  {
    if i < 3 { RelapseDeletes(); } else { RelapseReturns(); }
  }

  lemma RelapseStarts()
    ensures Sound(Relapse(0)) && "p" in Relapse(6).disk.files && Relapse(6).disk.files["p"] == 1
  {
  }

  /** With an import that is not guarded there is a run in which deleted data returns. */
  lemma UnguardedRunReturnsData() returns (hs: seq<History>, ops: seq<Op>)
    ensures RunH(hs, ops) && |ops| == 6 && Sound(hs[0]) && ops[3] == Commit("k") && 1 in ContentsOf(hs[3].disk, "k")
    ensures "p" in hs[6].disk.files && hs[6].disk.files["p"] == 1
  {
    RelapseStarts();
    RelapseReturns();
    ops := seq(6, (i: nat) => RelapseOp(i));
    hs := seq(7, (i: nat) => Relapse(i));
    forall i | 0 <= i < 6 ensures EnabledH(hs[i], ops[i]) && hs[i + 1] == ApplyH(hs[i], ops[i]) { RelapseStep(i); }
  }

  // ----- what a restore gives back -------------------------------------------------------------

  /** The content of `p` that the tombstone holds, by the first listed entry of that path. */
  function Find(es: seq<Entry>, contents: map<Name, Content>, p: Path): Option<Content> {
    if es == [] then None
    else if es[0].path == p && es[0].name in contents then Some(contents[es[0].name])
    else Find(es[1..], contents, p)
  }

  /** What `p` would hold if the tombstone were restored now. */
  function Lookup(d: Disk, id: TombId, p: Path): Option<Content> {
    if p in d.files then Some(d.files[p])
    else if id in d.tombs then Find(Entries(d.tombs[id]), d.tombs[id].contents, p)
    else None
  }

  predicate DistinctPaths(es: seq<Entry>) {
    forall i, j :: 0 <= i < j < |es| ==> es[i].path != es[j].path
  }

  lemma {:induction false} FindAt(es: seq<Entry>, contents: map<Name, Content>, i: nat)
    requires i < |es| && DistinctPaths(es)
    ensures Find(es, contents, es[i].path) == if es[i].name in contents then Some(contents[es[i].name]) else None
  {
    if i == 0 {
      if es[0].name !in contents { FindNone(es[1..], contents, es[0].path); }
    } else {
      FindAt(es[1..], contents, i - 1);
    }
  }

  lemma {:induction false} FindNone(es: seq<Entry>, contents: map<Name, Content>, p: Path)
    requires forall i :: 0 <= i < |es| ==> es[i].path != p || es[i].name !in contents
    ensures Find(es, contents, p) == None
  {
    if es != [] {
      assert forall i :: 0 <= i < |es| - 1 ==> es[1..][i] == es[i + 1];
      FindNone(es[1..], contents, p);
    }
  }

  lemma FindAgrees(es: seq<Entry>, contents: map<Name, Content>, contents': map<Name, Content>, p: Path)
    requires forall i :: 0 <= i < |es| && es[i].path == p ==>
               (es[i].name in contents <==> es[i].name in contents')
               && (es[i].name in contents ==> contents[es[i].name] == contents'[es[i].name])
    requires DistinctPaths(es)
    ensures Find(es, contents, p) == Find(es, contents', p)
  {
    if i :| 0 <= i < |es| && es[i].path == p {
      FindAt(es, contents, i);
      FindAt(es, contents', i);
    } else {
      FindNone(es, contents, p);
      FindNone(es, contents', p);
    }
  }

  /** Moving a file into the tombstone, and moving it back, leave what a restore would give. */
  lemma MovesKeepLookup(d: Disk, op: Op, p: Path)
    requires Enabled(d, op) && (op.MoveIn? || op.MoveBack?)
    requires Named(Entries(d.tombs[op.id])) && DistinctPaths(Entries(d.tombs[op.id]))
    ensures Lookup(Apply(d, op), op.id, p) == Lookup(d, op.id, p)
  {
    var es := Entries(d.tombs[op.id]);
    if p == es[op.i].path {
      FindAt(es, d.tombs[op.id].contents, op.i);
      FindAt(es, Apply(d, op).tombs[op.id].contents, op.i);
    } else {
      FindAgrees(es, d.tombs[op.id].contents, Apply(d, op).tombs[op.id].contents, p);
    }
  }

  /** Listing further files that are still at their paths changes nothing a restore would give. */
  lemma {:induction false} FindExtends(es: seq<Entry>, more: seq<Entry>, contents: map<Name, Content>, p: Path)
    requires forall i :: 0 <= i < |more| ==> more[i].name !in contents
    ensures Find(es + more, contents, p) == Find(es, contents, p)
  {
    if es == [] {
      assert es + more == more;
      FindNone(more, contents, p);
    } else {
      assert (es + more)[1..] == es[1..] + more;
      FindExtends(es[1..], more, contents, p);
    }
  }
}
