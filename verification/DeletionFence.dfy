/**
 * The in-process deletion fence against concurrent writers (client/identity_local_data.go and the
 * writers of each kind of file).
 *
 * A writer takes its kind's lock, checks the fence, writes, and releases the lock. A deletion raises
 * the fence without any of these locks, then moves one kind after another, each under that kind's
 * lock. Every action below is one indivisible step, so a writer can pass the check just before the
 * fence goes up and write just after.
 */
module DeletionFence {
  import opened Common

  type Key = string
  datatype Kind = DmLog | OutboxFile | SavedMessages | TabLayout | ContactPin

  datatype File = File(kind: Kind, key: Key, path: string)

  datatype Owner = WriterOwns(thread: nat) | DeletionOwns

  /** A writer holding its kind's lock; `passed` once the fence check let it through. */
  datatype Writer = Writer(file: File, passed: bool)

  /** `gone` are the paths a running or finished deletion has moved away while its fence is up. */
  datatype World = World(
    locks: map<Kind, Owner>, fence: set<Key>, files: set<File>, writers: map<nat, Writer>,
    deleting: Option<Key>, gone: set<File>)

  datatype Step =
    | WriterLocks(thread: nat, file: File)
    | WriterChecks(thread: nat)
    | WriterWrites(thread: nat)
    | WriterUnlocks(thread: nat)
    | RaiseFence(key: Key)
    | DeletionLocks(kind: Kind)
    | DeletionMoves(paths: set<File>)
    | DeletionPutsBack(file: File)
    | DeletionUnlocks(kind: Kind)
    | DeletionEnds
    | LiftFence(key: Key)
    | Crash

  predicate Enabled(w: World, s: Step) {
    match s
    case WriterLocks(t, f) => t !in w.writers && f.kind !in w.locks
    case WriterChecks(t) => t in w.writers
    case WriterWrites(t) => t in w.writers && w.writers[t].passed
    case WriterUnlocks(t) => t in w.writers
    case RaiseFence(key) => w.deleting.None?
    case DeletionLocks(kind) => w.deleting.Some? && kind !in w.locks
    case DeletionMoves(paths) =>
      w.deleting.Some? && forall f :: f in paths ==>
        f.key == w.deleting.value && f.kind in w.locks && w.locks[f.kind] == DeletionOwns
    case DeletionPutsBack(f) =>
      w.deleting == Some(f.key) && f in w.gone && f.kind in w.locks && w.locks[f.kind] == DeletionOwns
    case DeletionUnlocks(kind) => kind in w.locks && w.locks[kind] == DeletionOwns
    case DeletionEnds => w.deleting.Some?
    case LiftFence(key) => w.deleting != Some(key)
    case Crash => true
  }

  function Next(w: World, s: Step): World
    requires Enabled(w, s)
  {
    match s
    case WriterLocks(t, f) => w.(locks := w.locks[f.kind := WriterOwns(t)], writers := w.writers[t := Writer(f, false)])
    case WriterChecks(t) => w.(writers := w.writers[t := w.writers[t].(passed := w.writers[t].file.key !in w.fence)])
    case WriterWrites(t) => w.(files := w.files + {w.writers[t].file})
    case WriterUnlocks(t) => w.(locks := w.locks - {w.writers[t].file.kind}, writers := w.writers - {t})
    case RaiseFence(key) => w.(fence := w.fence + {key}, deleting := Some(key))
    case DeletionLocks(kind) => w.(locks := w.locks[kind := DeletionOwns])
    case DeletionMoves(paths) => w.(files := w.files - paths, gone := w.gone + paths)
    case DeletionPutsBack(f) => w.(files := w.files + {f}, gone := w.gone - {f})
    case DeletionUnlocks(kind) => w.(locks := w.locks - {kind})
    case DeletionEnds => w.(deleting := None)
    case LiftFence(key) => w.(fence := w.fence - {key}, gone := set f | f in w.gone && f.key != key)
    case Crash => World(map[], {}, w.files, map[], None, {})
  }

  ghost predicate Inv(w: World) {
    && (forall t :: t in w.writers ==> HasLock(w, t))
    && (w.deleting.Some? ==> w.deleting.value in w.fence)
    && (forall f :: f in w.gone ==> f.key in w.fence && f !in w.files && !Reaching(w, f))
  }

  predicate HasLock(w: World, t: nat)
    requires t in w.writers
  {
    w.writers[t].file.kind in w.locks && w.locks[w.writers[t].file.kind] == WriterOwns(t)
  }

  /** Some writer is past the check for this file. */
  ghost predicate Reaching(w: World, f: File) {
    exists t :: t in w.writers && w.writers[t] == Writer(f, true)
  }

  lemma StepKeepsInv(w: World, s: Step)
    requires Inv(w) && Enabled(w, s)
    ensures Inv(Next(w, s))
  {
    var w' := Next(w, s);
    if s.WriterWrites? { assert Reaching(w, w.writers[s.thread].file); }
    forall t | t in w'.writers ensures HasLock(w', t) { if t in w.writers { assert HasLock(w, t); } }
    forall f | f in w'.gone ensures f.key in w'.fence && f !in w'.files && !Reaching(w', f) {
      forall t | t in w'.writers ensures w'.writers[t] != Writer(f, true) {
        if t in w.writers {
          assert HasLock(w, t);
          assert w.writers[t] == Writer(f, true) ==> Reaching(w, f);
        }
      }
    }
  }

  ghost predicate Run(ws: seq<World>, steps: seq<Step>) {
    && |ws| == |steps| + 1
    && ws[0].locks == map[] && ws[0].fence == {} && ws[0].writers == map[] && ws[0].deleting.None? && ws[0].gone == {}
    && forall i {:trigger steps[i]} :: 0 <= i < |steps| ==>
         Enabled(ws[i], steps[i]) && ws[i + 1] == Next(ws[i], steps[i])
  }

  lemma {:induction false} RunsKeepInv(ws: seq<World>, steps: seq<Step>, i: nat)
    requires Run(ws, steps) && i < |ws|
    ensures Inv(ws[i])
  {
    if i > 0 {
      RunsKeepInv(ws, steps, i - 1);
      assert ws[i - 1 + 1] == Next(ws[i - 1], steps[i - 1]);
      StepKeepsInv(ws[i - 1], steps[i - 1]);
    }
  }

  /** Nothing that would lift the key's fence, put this file back, or end the process, happens. */
  predicate FenceStays(s: Step, f: File) {
    s != LiftFence(f.key) && s != DeletionPutsBack(f) && s != Crash
  }

  /**
   * Once a deletion has moved a file away under its kind's lock, no interleaving of writers of any kind
   * recreates it until the deletion itself puts it back or the fence comes down.
   */
  lemma {:induction false} MovedStaysGone(ws: seq<World>, steps: seq<Step>, i: nat, j: nat, f: File)
    requires Run(ws, steps) && i < |steps| && i < j < |ws|
    requires steps[i].DeletionMoves? && f in steps[i].paths
    requires forall k :: i < k < j ==> FenceStays(steps[k], f)
    ensures f !in ws[j].files && f in ws[j].gone
    decreases j
  {
    assert ws[j - 1 + 1] == Next(ws[j - 1], steps[j - 1]);
    if j > i + 1 {
      MovedStaysGone(ws, steps, i, j - 1, f);
      assert FenceStays(steps[j - 1], f);
    }
    RunsKeepInv(ws, steps, j);
  }

  /** The key's fence is up and no writer of that kind is past the check for one of its files. */
  ghost predicate Closed(w: World, kind: Kind, key: Key) {
    && key in w.fence
    && forall t :: t in w.writers && w.writers[t].passed ==>
         w.writers[t].file.kind != kind || w.writers[t].file.key != key
  }

  /** Taking a kind's lock waits out every writer of that kind; those that come later find the fence. */
  lemma LockCloses(w: World, kind: Kind)
    requires Inv(w) && Enabled(w, DeletionLocks(kind))
    ensures Closed(Next(w, DeletionLocks(kind)), kind, w.deleting.value)
  {
    forall t | t in w.writers ensures w.writers[t].file.kind != kind { assert HasLock(w, t); }
  }

  lemma StaysClosed(w: World, s: Step, f: File)
    requires Enabled(w, s) && Closed(w, f.kind, f.key) && FenceStays(s, f)
    ensures Closed(Next(w, s), f.kind, f.key)
    ensures f !in w.files ==> f !in Next(w, s).files
  {
  }

  /**
   * Once the deletion has taken a kind's lock, no file of that kind and identity that was not there
   * appears, whether or not the deletion knew of it: no orphan log, pin or outbox is left behind by a
   * racing writer until the fence comes down.
   */
  lemma {:induction false} NothingNewAppears(ws: seq<World>, steps: seq<Step>, i: nat, j: nat, f: File)
    requires Run(ws, steps) && i < |steps| && i < j < |ws|
    requires steps[i] == DeletionLocks(f.kind) && ws[i].deleting == Some(f.key) && f !in ws[i].files
    requires forall k :: i < k < j ==> FenceStays(steps[k], f)
    ensures Closed(ws[j], f.kind, f.key) && f !in ws[j].files
    decreases j
  {
    assert ws[j - 1 + 1] == Next(ws[j - 1], steps[j - 1]);
    if j > i + 1 {
      NothingNewAppears(ws, steps, i, j - 1, f);
      StaysClosed(ws[j - 1], steps[j - 1], f);
    } else {
      RunsKeepInv(ws, steps, i);
      LockCloses(ws[i], f.kind);
    }
  }

  /**
   * A writer that finds its kind's lock free writes, undisturbed, exactly if its own key is not fenced;
   * whatever else is being deleted, it then leaves locks, fence and every other file as they were.
   */
  lemma WriterWritesIff(w: World, t: nat, f: File)
    requires Inv(w) && t !in w.writers && f.kind !in w.locks
    ensures var a := Next(w, WriterLocks(t, f));
            var b := Next(a, WriterChecks(t));
            && (Enabled(b, WriterWrites(t)) <==> f.key !in w.fence)
            && var c := if f.key in w.fence then b else Next(b, WriterWrites(t));
               var d := Next(c, WriterUnlocks(t));
               && d.files == (if f.key in w.fence then w.files else w.files + {f})
               && d == w.(files := d.files)
  {
  }

  /** The fence keeps out nobody else: it goes up and comes down for the deleted key alone. */
  lemma FenceIsItsOwn(w: World, s: Step, key: Key)
    requires Inv(w) && Enabled(w, s) && s != Crash
    ensures key in Next(w, s).fence <==> (key in w.fence && s != LiftFence(key)) || s == RaiseFence(key)
  {
  }

  /** What a deletion moves away is exactly what it names, and what it puts back is there again. */
  lemma FilesAfter(w: World, s: Step, f: File)
    requires Enabled(w, s)
    ensures f in Next(w, s).files <==>
            match s
            case WriterWrites(t) => f in w.files || f == w.writers[t].file
            case DeletionMoves(paths) => f in w.files && f !in paths
            case DeletionPutsBack(g) => f in w.files || f == g
            case _ => f in w.files
  {
  }
}
