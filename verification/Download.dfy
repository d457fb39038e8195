/**
 * Downloading to a chosen place: attempts fill a partial file, a verified one is published
 * under the destination's name. Crashes may come between any two disk operations, any of them
 * may fail, and other programs may change what the destination's name stands for.
 */
module Download {
  import opened Common
  import opened DownloadStream

  /** What the two names stand for, and the contents of files; `next` is a file not made yet. */
  datatype Disk = Disk(dest: Option<nat>, part: Option<nat>, data: map<nat, Bytes>, next: nat)

  /** Between attempts, about to discard a stale partial, or publishing the verified content `v`. */
  datatype Phase =
    | Idle
    | Discarding
    | Verified(v: Bytes)
    | Checked(v: Bytes)
    | NoLink(v: Bytes)
    | Copying(v: Bytes, file: nat, n: nat)
    | Undoing(v: Bytes, file: nat)
    | Published(v: Bytes)

  /**
   * `existing` is the file the user agreed to replace. The rest is a record: contents the
   * server vouched for, the files put at the destination and which content each was to have,
   * those whose copy was not finished, and those that an attempt wrote to afterwards.
   */
  datatype World = World(
    disk: Disk,
    phase: Phase,
    existing: Option<nat>,
    vouched: set<Bytes>,
    placed: map<nat, Bytes>,
    torn: set<nat>,
    regrown: set<nat>)

  /** What other programs do to the destination's name: take it away, make a file there, move one there. */
  datatype Meddling = Removed | Made(content: Bytes) | Moved(file: nat)

  datatype Step =
    | Attempt(existing: Option<nat>, frames: seq<Frame>)
    | Discard(works: bool)
    | CloseFails
    | Check
    | Rename(works: bool)
    | Link(works: bool)
    | CreateExclusive(works: bool)
    | CopySome(k: nat)
    | CopyEnds(ok: bool)
    | Undo(works: bool)
    | RemovePart(works: bool)
    | Crash
    | Meddle(how: Meddling)

  /** Nothing there, or exactly the file the user agreed to replace. */
  predicate DestOk(d: Disk, existing: Option<nat>) { d.dest == existing }

  function Content(d: Disk, name: Option<nat>): Bytes {
    if name.Some? && name.value in d.data then d.data[name.value] else []
  }

  predicate Enabled(w: World, s: Step) {
    match s
    case Attempt(existing, _) => w.phase.Idle? && DestOk(w.disk, existing)
    case Discard(_) => w.phase.Discarding?
    case CloseFails => w.phase.Verified?
    case Check => w.phase.Verified?
    case Rename(_) => w.phase.Checked? && w.existing.Some? && w.disk.part.Some?
    case Link(_) => w.phase.Checked? && w.existing.None? && w.disk.part.Some?
    case CreateExclusive(_) => w.phase.NoLink?
    case CopySome(k) =>
      w.phase.Copying? && w.phase.file in w.disk.data && w.phase.n + k <= |Content(w.disk, w.disk.part)|
    case CopyEnds(ok) => w.phase.Copying? && (ok ==> w.phase.n == |Content(w.disk, w.disk.part)|)
    case Undo(_) => w.phase.Undoing?
    case RemovePart(_) => w.phase.Published?
    case Crash => true
    case Meddle(m) => m.Moved? ==> m.file in w.disk.data
  }

  /** The partial file, made if it is not there. */
  function WithPart(d: Disk): Disk {
    if d.part.Some? then d else d.(part := Some(d.next), data := d.data[d.next := []], next := d.next + 1)
  }

  /** The stream of an attempt that resumes from what the partial holds. */
  function Resumed(hash: Hash, d: Disk, frames: seq<Frame>): Received {
    var had := Content(WithPart(d), WithPart(d).part);
    Stream(hash, frames, had, had, |had|, 0)
  }

  /** The partial can never verify: the digest differs, or the server refuses it before any new byte. */
  predicate Stale(hash: Hash, d: Disk, frames: seq<Frame>) {
    var had, r := Content(WithPart(d), WithPart(d).part), Resumed(hash, d, frames);
    r.end == Mismatch || (r.end == Rejected && |had| > 0 && r.total == |had|)
  }

  /** One attempt: resume and stream; a stale partial is discarded by the next step. */
  function Try(hash: Hash, w: World, existing: Option<nat>, frames: seq<Frame>): World {
    var d, r := WithPart(w.disk), Resumed(hash, w.disk, frames);
    var f := d.part.value;
    var grown := f in w.placed && r.file != Content(d, d.part);
    w.(disk := d.(data := d.data[f := r.file]), existing := existing,
       phase := if r.end == Complete then Verified(r.file) else if Stale(hash, w.disk, frames) then Discarding
           else Idle,
       vouched := if r.end == Complete then w.vouched + {r.file} else w.vouched,
       regrown := if grown then w.regrown + {f} else w.regrown)
  }

  /** The partial's file is now at the destination, with content `v`. */
  function Placing(w: World, f: nat, v: Bytes): World {
    w.(placed := w.placed[f := v], regrown := w.regrown - {f})
  }

  function Next(hash: Hash, w: World, s: Step): World
    requires Enabled(w, s)
  {
    var d := w.disk;
    match s
    case Attempt(existing, frames) => Try(hash, w, existing, frames)
    case Discard(works) => w.(phase := Idle, disk := if works then d.(part := None) else d)
    case CloseFails => w.(phase := Idle)
    case Check => w.(phase := if DestOk(d, w.existing) then Checked(w.phase.v) else Idle)
    case Rename(works) =>
      if works
      then Placing(w, d.part.value, w.phase.v).(phase := Idle, disk := d.(dest := d.part, part := None))
      else w.(phase := Idle)
    case Link(works) =>
      if works && d.dest.None?
      then Placing(w, d.part.value, w.phase.v).(phase := Published(w.phase.v), disk := d.(dest := d.part))
      else w.(phase := NoLink(w.phase.v))
    case CreateExclusive(works) =>
      if works && d.dest.None?
      then w.(phase := Copying(w.phase.v, d.next, 0),
              disk := d.(dest := Some(d.next), data := d.data[d.next := []], next := d.next + 1),
              placed := w.placed[d.next := w.phase.v], torn := w.torn + {d.next})
      else w.(phase := Idle)
    case CopySome(k) =>
      var more := Content(d, d.part)[w.phase.n..w.phase.n + k];
      w.(phase := w.phase.(n := w.phase.n + k),
         disk := d.(data := d.data[w.phase.file := d.data[w.phase.file] + more]))
    case CopyEnds(ok) =>
      if ok then w.(phase := Published(w.phase.v), torn := w.torn - {w.phase.file})
      else w.(phase := Undoing(w.phase.v, w.phase.file))
    case Undo(works) =>
      w.(phase := Idle, disk := if works && d.dest == Some(w.phase.file) then d.(dest := None) else d)
    case RemovePart(works) => w.(phase := Idle, disk := if works then d.(part := None) else d)
    case Crash => w.(phase := Idle)
    case Meddle(m) => w.(disk := Meddled(d, m))
  }

  function Meddled(d: Disk, m: Meddling): Disk {
    match m
    case Removed => d.(dest := None)
    case Made(content) => d.(dest := Some(d.next), data := d.data[d.next := content], next := d.next + 1)
    case Moved(file) => d.(dest := Some(file))
  }

  predicate DiskOk(d: Disk) {
    && (d.part.Some? ==> d.part.value in d.data) && (d.dest.Some? ==> d.dest.value in d.data)
    && forall f :: f in d.data ==> f < d.next
  }

  predicate Publishing(p: Phase) { !p.Idle? && !p.Discarding? }

  /** During publication the partial file is the verified content, and the server vouched for it. */
  predicate PhaseOk(w: World) {
    Publishing(w.phase) ==>
      && w.phase.v in w.vouched
      && w.disk.part.Some? && w.disk.part.value in w.disk.data && w.disk.data[w.disk.part.value] == w.phase.v
      && w.disk.part.value !in w.torn
      && (w.phase.Copying? || w.phase.Undoing? ==> w.phase.file in w.placed && w.phase.file != w.disk.part.value)
      && (w.phase.Copying? ==>
            && w.phase.n <= |w.phase.v| && w.placed[w.phase.file] == w.phase.v && w.phase.file in w.torn
            && w.phase.file in w.disk.data && w.disk.data[w.phase.file] == w.phase.v[..w.phase.n])
  }

  /**
   * A file put at the destination has the content the server vouched for; a torn one, a
   * beginning of it; one written to afterwards, that and more.
   */
  predicate PlacedOk(w: World, f: nat) {
    && f in w.placed && f in w.disk.data && w.placed[f] in w.vouched
    && (f !in w.regrown ==> w.disk.data[f] <= w.placed[f])
    && (f in w.regrown ==> f !in w.torn && w.placed[f] <= w.disk.data[f])
    && (f !in w.torn && f !in w.regrown ==> w.disk.data[f] == w.placed[f])
  }

  ghost predicate Inv(w: World) {
    && DiskOk(w.disk) && PhaseOk(w) && w.torn <= w.placed.Keys && w.regrown <= w.placed.Keys
    && (w.disk.part.Some? ==> w.disk.part.value !in w.torn)
    && forall f {:trigger PlacedOk(w, f)} :: f in w.placed ==> PlacedOk(w, f)
  }

  lemma TryKeeps(hash: Hash, w: World, existing: Option<nat>, frames: seq<Frame>)
    requires Inv(w) && Enabled(w, Attempt(existing, frames))
    ensures Inv(Try(hash, w, existing, frames))
  {
    var w', d := Try(hash, w, existing, frames), WithPart(w.disk);
    var had := Content(d, d.part);
    FileExtends(hash, frames, had, |had|);
    assert w.disk.next in w.placed ==> PlacedOk(w, w.disk.next);
    forall f | f in w'.placed ensures PlacedOk(w', f) { assert PlacedOk(w, f); }
  }

  lemma NextPlaces(hash: Hash, w: World, s: Step)
    requires Inv(w) && Enabled(w, s) && !s.Attempt?
    ensures var w' := Next(hash, w, s); forall f {:trigger PlacedOk(w', f)} :: f in w'.placed ==> PlacedOk(w', f)
  {
    var w' := Next(hash, w, s);
    assert w.disk.next in w.placed ==> PlacedOk(w, w.disk.next);
    forall f | f in w'.placed ensures PlacedOk(w', f) {
      if f in w.placed { assert PlacedOk(w, f); }
    }
  }

  lemma StepKeepsInv(hash: Hash, w: World, s: Step)
    requires Inv(w) && Enabled(w, s)
    ensures Inv(Next(hash, w, s))
  {
    if s.Attempt? {
      TryKeeps(hash, w, s.existing, s.frames);
    } else {
      NextPlaces(hash, w, s);
      assert w.disk.next in w.placed ==> PlacedOk(w, w.disk.next);
    }
  }

  /* Runs. */

  ghost predicate Run(hash: Hash, ws: seq<World>, steps: seq<Step>) {
    && |ws| == |steps| + 1 && DiskOk(ws[0].disk)
    && ws[0] == World(ws[0].disk, Idle, None, {}, map[], {}, {})
    && forall i {:trigger steps[i]} :: 0 <= i < |steps| ==>
         Enabled(ws[i], steps[i]) && ws[i + 1] == Next(hash, ws[i], steps[i])
  }

  lemma {:induction false} RunsKeepInv(hash: Hash, ws: seq<World>, steps: seq<Step>, i: nat)
    requires Run(hash, ws, steps) && i < |ws|
    ensures Inv(ws[i])
  {
    if i > 0 {
      RunsKeepInv(hash, ws, steps, i - 1);
      assert ws[i - 1 + 1] == Next(hash, ws[i - 1], steps[i - 1]);
      StepKeepsInv(hash, ws[i - 1], steps[i - 1]);
    }
  }

  /** The server's verdict on an attempt: the digest of `v`, and "ok". */
  predicate Vouches(hash: Hash, s: Step, v: Bytes) {
    s.Attempt? && var f := Verdict(s.frames); |f| >= 2 && f[0] == Digest(hash(v)) && f[1] == Status(true)
  }

  /** Whatever is vouched for, some attempt received its digest. */
  lemma {:induction false} VouchedWasSent(hash: Hash, ws: seq<World>, steps: seq<Step>, i: nat, v: Bytes)
    requires Run(hash, ws, steps) && i < |ws| && v in ws[i].vouched
    ensures exists k :: 0 <= k < i && Vouches(hash, steps[k], v)
  {
    var w, s := ws[i - 1], steps[i - 1];
    assert ws[i - 1 + 1] == Next(hash, w, s);
    if v in w.vouched {
      VouchedWasSent(hash, ws, steps, i - 1, v);
    } else {
      var d := WithPart(w.disk);
      var had := Content(d, d.part);
      CompleteIffVerified(hash, s.frames, had, |had|, 0);
      assert Vouches(hash, s, v);
    }
  }

  /** Step `k` takes the copy fallback: it makes `f` at the destination, to be filled. */
  predicate CopiesTo(w: World, s: Step, f: nat) {
    s == CreateExclusive(true) && w.phase.NoLink? && w.disk.dest.None? && w.disk.next == f
  }

  predicate FinishesCopy(w: World, s: Step, f: nat) { s == CopyEnds(true) && w.phase.Copying? && w.phase.file == f }

  /** `f` was made by the copy fallback and its copy never finished. */
  ghost predicate Unfinished(ws: seq<World>, steps: seq<Step>, i: nat, f: nat)
    requires |ws| == |steps| + 1 && i < |ws|
  {
    exists k :: 0 <= k < i && CopiesTo(ws[k], steps[k], f) && forall j :: k < j < i ==>
        !FinishesCopy(ws[j], steps[j], f)
  }

  /** An attempt resumes from the published file `f` and writes to it. */
  predicate Overwrites(w: World, s: Step, f: nat) {
    s.Attempt? && w.disk.part == Some(f) && f in w.placed && Taken(s.frames) != []
  }

  /** Only an unfinished copy is torn; so where linking works, nothing is. */
  lemma {:induction false} TornIsUnfinished(hash: Hash, ws: seq<World>, steps: seq<Step>, i: nat, f: nat)
    requires Run(hash, ws, steps) && i < |ws| && f in ws[i].torn
    ensures Unfinished(ws, steps, i, f)
  {
    var w, s := ws[i - 1], steps[i - 1];
    assert ws[i - 1 + 1] == Next(hash, w, s);
    if f in w.torn {
      TornIsUnfinished(hash, ws, steps, i - 1, f);
      assert !FinishesCopy(w, s, f);
    } else {
      assert CopiesTo(w, s, f);
    }
  }

  /** A published file changes later only by an attempt that resumes from it and writes a byte. */
  lemma {:induction false} RegrownWasOverwritten(hash: Hash, ws: seq<World>, steps: seq<Step>, i: nat, f: nat)
    requires Run(hash, ws, steps) && i < |ws| && f in ws[i].regrown
    ensures exists k :: 0 <= k < i && Overwrites(ws[k], steps[k], f)
  {
    var w, s := ws[i - 1], steps[i - 1];
    assert ws[i - 1 + 1] == Next(hash, w, s);
    if f in w.regrown {
      RegrownWasOverwritten(hash, ws, steps, i - 1, f);
    } else {
      RunsKeepInv(hash, ws, steps, i - 1);
      assert w.disk.next in w.placed ==> PlacedOk(w, w.disk.next);
      var had := Content(WithPart(w.disk), WithPart(w.disk).part);
      FileExtends(hash, s.frames, had, |had|);
      assert Overwrites(w, s, f);
    }
  }

  /**
   * In every run, a file put at the destination is whole and of a digest the server sent, unless
   * it is a copy that was not finished or an attempt wrote to it afterwards.
   */
  lemma PublishedIsVerified(hash: Hash, ws: seq<World>, steps: seq<Step>, i: nat, f: nat)
    requires Run(hash, ws, steps) && i < |ws| && f in ws[i].placed
    requires !Unfinished(ws, steps, i, f) && forall k :: 0 <= k < i ==> !Overwrites(ws[k], steps[k], f)
    ensures f in ws[i].disk.data && exists k :: 0 <= k < i && Vouches(hash, steps[k], ws[i].disk.data[f])
  {
    RunsKeepInv(hash, ws, steps, i);
    assert PlacedOk(ws[i], f);
    if f in ws[i].torn { TornIsUnfinished(hash, ws, steps, i, f); }
    if f in ws[i].regrown { RegrownWasOverwritten(hash, ws, steps, i, f); }
    VouchedWasSent(hash, ws, steps, i, ws[i].placed[f]);
  }

  /** In every run whatever, it is a beginning of such a content, or such a content and more. */
  lemma PublishedIsRelated(hash: Hash, ws: seq<World>, steps: seq<Step>, i: nat, f: nat)
    requires Run(hash, ws, steps) && i < |ws| && f in ws[i].placed
    ensures f in ws[i].disk.data
    ensures exists k :: 0 <= k < i && Vouches(hash, steps[k], ws[i].placed[f])
    ensures ws[i].disk.data[f] <= ws[i].placed[f] || ws[i].placed[f] <= ws[i].disk.data[f]
  {
    RunsKeepInv(hash, ws, steps, i);
    assert PlacedOk(ws[i], f);
    VouchedWasSent(hash, ws, steps, i, ws[i].placed[f]);
  }

  /**
   * A file at the destination that we did not put there and are not filling, with no replacement of the
   * selected file under way.
   */
  predicate Foreign(w: World, f: nat) {
    && w.disk.dest == Some(f) && f in w.disk.data && f !in w.placed && w.disk.part != Some(f)
    && !(w.phase.Checked? && w.existing.Some?) && !(w.phase.Verified? && w.existing == Some(f))
  }

  lemma StepSparesForeign(hash: Hash, w: World, s: Step, f: nat)
    requires Inv(w) && Enabled(w, s) && Foreign(w, f) && !s.Meddle? && !(s.Attempt? && s.existing == Some(f))
    ensures Foreign(Next(hash, w, s), f) && Next(hash, w, s).disk.data[f] == w.disk.data[f]
  {
  }

  /**
   * In every run, through any attempts, publications, failures and crashes, such a file keeps its name
   * and content until others change what the name stands for or the user selects it.
   */
  lemma {:induction false} UnselectedNeverReplaced(hash: Hash, ws: seq<World>, steps: seq<Step>, i: nat, j: nat, f: nat)
    requires Run(hash, ws, steps) && i <= j < |ws| && Foreign(ws[i], f)
    requires forall k :: i <= k < j ==> !steps[k].Meddle? && !(steps[k].Attempt? && steps[k].existing == Some(f))
    ensures Foreign(ws[j], f) && ws[j].disk.data[f] == ws[i].disk.data[f]
    decreases j
  {
    if i < j {
      UnselectedNeverReplaced(hash, ws, steps, i, j - 1, f);
      RunsKeepInv(hash, ws, steps, j - 1);
      assert ws[j - 1 + 1] == Next(hash, ws[j - 1], steps[j - 1]);
      StepSparesForeign(hash, ws[j - 1], steps[j - 1], f);
    }
  }

  /** What the partial held when the attempt began. */
  function Had(w: World): Bytes { Content(WithPart(w.disk), WithPart(w.disk).part) }

  /** The server's answer shows that this partial can never verify: another digest, or no for an answer at once. */
  predicate ShowsStale(hash: Hash, had: Bytes, frames: seq<Frame>) {
    var v := Verdict(frames);
    && AllWritten(frames) && v != []
    && ((v[0].Digest? && v[0].sum != hash(had + Payloads(frames)))
        || (v[0] == Status(false) && Payloads(frames) == [] && had != []))
  }

  /** The server's answer verifies the whole: all of it written, its digest, and "ok". */
  predicate ShowsVerified(hash: Hash, had: Bytes, frames: seq<Frame>) {
    var v := Verdict(frames);
    AllWritten(frames) && |v| >= 2 && v[0] == Digest(hash(had + Payloads(frames))) && v[1] == Status(true)
  }

  /** What an attempt comes to, told by the frames: publishing, discarding, or an ordinary retry. */
  lemma AttemptComesTo(hash: Hash, w: World, existing: Option<nat>, frames: seq<Frame>)
    requires Inv(w) && Enabled(w, Attempt(existing, frames))
    ensures var w' := Next(hash, w, Attempt(existing, frames));
            && (w'.phase == Discarding <==> ShowsStale(hash, Had(w), frames))
            && (ShowsVerified(hash, Had(w), frames) ==> w'.phase == Verified(Had(w) + Payloads(frames)))
            && (!ShowsStale(hash, Had(w), frames) && !ShowsVerified(hash, Had(w), frames) ==> w'.phase == Idle)
            && w'.disk.part.Some? && Content(w'.disk, w'.disk.part) == Had(w) + Taken(frames)
            && w'.disk.dest == w.disk.dest && w'.existing == existing
  {
    var had := Had(w);
    EndIff(hash, frames, had, |had|);
    CompleteIffVerified(hash, frames, had, |had|, 0);
    FileExtends(hash, frames, had, |had|);
  }

  /**
   * The partial is discarded exactly when it is stale and its removal is reached and works;
   * otherwise it holds what it held and every byte that was taken.
   */
  lemma DiscardedIff(hash: Hash, w: World, existing: Option<nat>, frames: seq<Frame>, crash: bool, works: bool)
    requires Inv(w) && Enabled(w, Attempt(existing, frames))
    ensures var a := Next(hash, w, Attempt(existing, frames));
            var b := if crash || !Enabled(a, Discard(works)) then Next(hash, a, Crash)
                else Next(hash, a, Discard(works));
            && (b.disk.part.None? <==> ShowsStale(hash, Had(w), frames) && !crash && works)
            && (b.disk.part.Some? ==> Content(b.disk, b.disk.part) == Had(w) + Taken(frames))
  {
    AttemptComesTo(hash, w, existing, frames);
  }

  /**
   * Publication without failures: the check, and then the selected file is replaced by name; where nothing
   * was selected a link is made, or without links a copy, and the partial goes.
   */
  ghost function Publish(hash: Hash, w: World, links: bool): World
    requires Inv(w) && w.phase.Verified? && w.disk.dest == w.existing
  {
    var a := Next(hash, w, Check);
    StepKeepsInv(hash, w, Check);
    if w.existing.Some? then Next(hash, a, Rename(true))
    else
      var b := Next(hash, a, Link(links));
      StepKeepsInv(hash, a, Link(links));
      Next(hash, if links then b else Copied(hash, b), RemovePart(true))
  }

  /** It ends with the whole verified content at the destination, and no partial left. */
  lemma VerifiedIsPublished(hash: Hash, w: World, links: bool)
    requires Inv(w) && w.phase.Verified? && w.disk.dest == w.existing
    ensures var b := Publish(hash, w, links);
            && b.phase == Idle && b.disk.part == None
            && b.disk.dest.Some? && Content(b.disk, b.disk.dest) == w.phase.v
  {
    var a := Next(hash, w, Check);
    StepKeepsInv(hash, w, Check);
    if w.existing.None? {
      StepKeepsInv(hash, a, Link(links));
      if !links { PublishesCopy(hash, a, Next(hash, a, Link(false))); }
    }
  }

  ghost function Copied(hash: Hash, b: World): World
    requires Inv(b) && b.phase.NoLink? && b.disk.dest.None?
  {
    var c := Next(hash, b, CreateExclusive(true));
    assert Content(c.disk, c.disk.part) == b.phase.v;
    Next(hash, Next(hash, c, CopySome(|b.phase.v|)), CopyEnds(true))
  }

  lemma PublishesCopy(hash: Hash, a: World, b: World)
    requires Inv(a) && a.phase.Checked? && a.existing.None? && a.disk.dest.None?
    requires Inv(b) && b == Next(hash, a, Link(false))
    ensures var c := Copied(hash, b);
            && c.disk.dest.Some? && c.disk.dest != c.disk.part && Content(c.disk, c.disk.dest) == a.phase.v
            && c.phase.Published?
  {
    var v := a.phase.v;
    assert [] + v[0..0 + |v|] == v;
  }

  /** The partial is kept through failures and crashes: only its publication or a removal that was due takes it. */
  lemma PartialIsKept(hash: Hash, w: World, s: Step)
    requires Inv(w) && Enabled(w, s) && w.disk.part.Some?
    requires !s.Attempt? && s != Discard(true) && s != Rename(true) && s != RemovePart(true)
    ensures Next(hash, w, s).disk.part == w.disk.part
    ensures Content(Next(hash, w, s).disk, w.disk.part) == Content(w.disk, w.disk.part)
  {
  }

  /** A copy that failed, and whose clean-up works, leaves the destination free again, if it is still ours. */
  lemma FailedCopyIsUndone(hash: Hash, w: World)
    requires Inv(w) && w.phase.Copying?
    ensures var u := Next(hash, Next(hash, w, CopyEnds(false)), Undo(true));
            && u.phase == Idle && u.disk.part == w.disk.part
            && u.disk.dest == (if w.disk.dest == Some(w.phase.file) then None else w.disk.dest)
  {
  }

  /* Where the promises stop. */

  /** The destination names a file of ours that is a proper beginning of what it was to be. */
  predicate TornAtDest(w: World) {
    && w.disk.dest.Some? && w.disk.dest.value in w.placed
    && Content(w.disk, w.disk.dest) < w.placed[w.disk.dest.value]
  }

  /** The copy, cut short after `n` bytes by a crash, or by an error whose clean-up fails. */
  ghost function CutShort(hash: Hash, w: World, n: nat, crash: bool): World
    requires Inv(w) && w.phase.NoLink? && w.disk.dest.None? && n <= |w.phase.v|
  {
    var a := Next(hash, w, CreateExclusive(true));
    assert Content(a.disk, a.disk.part) == w.phase.v;
    var b := Next(hash, a, CopySome(n));
    if crash then Next(hash, b, Crash) else Next(hash, Next(hash, b, CopyEnds(false)), Undo(false))
  }

  /**
   * Where hard links are not to be had, any beginning of the file may be left under the
   * destination's name, after a crash or without one, and then stands in the way of a retry. What is
   * left is a proper beginning exactly when the copy was cut before its end.
   */
  lemma CopyCutShortIff(hash: Hash, w: World, n: nat, crash: bool)
    requires Inv(w) && w.phase.NoLink? && w.disk.dest.None? && n <= |w.phase.v|
    ensures var c := CutShort(hash, w, n, crash);
            && c.phase.Idle? && Content(c.disk, c.disk.dest) == w.phase.v[..n] && (TornAtDest(c) <==> n < |w.phase.v|)
            && forall frames :: !Enabled(c, Attempt(None, frames))
  {
    var a := Next(hash, w, CreateExclusive(true));
    assert Content(a.disk, a.disk.part) == w.phase.v;
    assert [] + w.phase.v[0..n] == w.phase.v[..n];
    assert !DestOk(CutShort(hash, w, n, crash).disk, None);
  }

  /** Some way of going on from a failed link leaves a torn file, exactly if there is anything to tear. */
  lemma TearsExactlyIfCopying(hash: Hash, w: World)
    requires Inv(w) && w.phase.NoLink?
    ensures (exists n, crash :: w.disk.dest.None? && 0 <= n <= |w.phase.v| && TornAtDest(CutShort(hash, w, n, crash)))
            <==> w.disk.dest.None? && w.phase.v != []
  {
    if w.disk.dest.None? {
      if w.phase.v != [] {
        CopyCutShortIff(hash, w, 0, true);
        assert TornAtDest(CutShort(hash, w, 0, true));
      } else {
        forall n, crash | 0 <= n <= |w.phase.v| ensures !TornAtDest(CutShort(hash, w, n, crash)) {
          CopyCutShortIff(hash, w, n, crash);
        }
      }
    }
  }

  /** Any number of changes to the destination's name by others. */
  function MeddleAll(d: Disk, ms: seq<Meddling>): Disk {
    if ms == [] then d else Meddled(MeddleAll(d, ms[..|ms| - 1]), ms[|ms| - 1])
  }

  lemma {:induction false} MeddlingKeepsFiles(d: Disk, ms: seq<Meddling>)
    requires DiskOk(d)
    ensures d.next <= MeddleAll(d, ms).next && MeddleAll(d, ms).part == d.part
    ensures forall f :: f in d.data ==> f in MeddleAll(d, ms).data && MeddleAll(d, ms).data[f] == d.data[f]
  {
    if ms != [] { MeddlingKeepsFiles(d, ms[..|ms| - 1]); }
  }

  /**
   * A selected destination is replaced by name. After any meddling between the check and the
   * rename, what goes is the selected file exactly if there was none, or the last of it moved that
   * very file back; the download is published in every case.
   */
  lemma SelectedIsReplacedUnlessMeddled(hash: Hash, w: World, ms: seq<Meddling>)
    requires Inv(w) && w.phase.Verified? && w.existing.Some? && DestOk(w.disk, w.existing)
    ensures var a := Next(hash, w, Check);
            var b := a.(disk := MeddleAll(a.disk, ms));
            && Enabled(b, Rename(true))
            && (b.disk.dest == w.existing <==> ms == [] || ms[|ms| - 1] == Moved(w.existing.value))
            && var c := Next(hash, b, Rename(true));
               c.disk.dest == w.disk.part && Content(c.disk, c.disk.dest) == w.phase.v
  {
    MeddlingKeepsFiles(w.disk, ms);
    if ms != [] { MeddlingKeepsFiles(w.disk, ms[..|ms| - 1]); }
  }

  /**
   * After a crash, or a failed removal, between linking and removing the partial, both names are
   * one file. Whatever an attempt on it receives, the published content is kept exactly if no
   * byte is written.
   */
  lemma SharedPartialKeptIff(hash: Hash, w: World, existing: Option<nat>, frames: seq<Frame>)
    requires Inv(w) && Enabled(w, Attempt(existing, frames)) && w.disk.part.Some? && w.disk.part.value in w.placed
    ensures var f, w' := w.disk.part.value, Next(hash, w, Attempt(existing, frames));
            && w'.disk.data[f] == w.disk.data[f] + Taken(frames)
            && (w'.disk.data[f] == w.disk.data[f] <==> Taken(frames) == [])
            && (f in w'.regrown <==> f in w.regrown || Taken(frames) != [])
  {
    var had := w.disk.data[w.disk.part.value];
    FileExtends(hash, frames, had, |had|);
    assert |had + Taken(frames)| == |had| + |Taken(frames)|;
    if Taken(frames) == [] { assert had + Taken(frames) == had; }
  }

  /** And such an attempt can come about: the user selects the published file again. */
  lemma SharedPartialCanBeSelected(hash: Hash, w: World, frames: seq<Frame>)
    requires Inv(w) && w.phase.Published? && w.disk.dest == w.disk.part
    ensures var a := Next(hash, w, Crash);
            Enabled(a, Attempt(a.disk.dest, frames)) && a.disk.part == w.disk.part
  {
  }
}
