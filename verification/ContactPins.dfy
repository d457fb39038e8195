/**
 * Trust on first use of a contact's identity (client/dm_identity_trust.go), for one pin file.
 *
 * The trust lock is released while the confirmation dialog is open, so a verification has two critical
 * sections: `Begin`, which may open a dialog, and `Confirm`, which runs after a "trust" answer and only
 * if the pin is still the one the dialog was about.
 */
module ContactPins {
  import opened Common

  type Fingerprint = string

  /** An encoded key record: the signing identity's fingerprint and everything else it encodes. */
  datatype Record = Record(fingerprint: Fingerprint, rest: string)

  datatype Pin = Pin(fingerprint: Fingerprint, pending: Option<Record>, retired: seq<Fingerprint>,
      reset: Option<Fingerprint>)

  const RETIRED_LIMIT := 128

  /** What the first critical section decides. */
  datatype Verdict = Accept | Refuse | Ask(expected: Pin)

  /** The pin after the first critical section, if every write succeeds. */
  function Begin(pin: Option<Pin>, r: Record, prompt: bool, canAsk: bool): (Option<Pin>, Verdict) {
    if pin.None? then (Some(Pin(r.fingerprint, None, [], None)), Accept)
    else
      var p := pin.value;
      if p.pending.None? && p.fingerprint == r.fingerprint then (pin, Accept)
      else if !prompt && r.fingerprint in p.retired then (pin, Refuse)
      else
        var q := if p.fingerprint != r.fingerprint && !IsPending(p, r) then p.(pending := Some(r)) else p;
        (Some(q), if !prompt || !canAsk || !IsPending(q, r) then Refuse else Ask(q))
  }

  predicate IsPending(p: Pin, r: Record) {
    p.pending == Some(r)
  }

  function Retire(retired: seq<Fingerprint>, f: Fingerprint): seq<Fingerprint> {
    if f in retired then retired else retired + [f]
  }

  /** The compare-and-swap after a "trust" answer: None means the confirmation is void. */
  function Confirm(pin: Option<Pin>, expected: Pin, r: Record): Option<Pin> {
    if pin.None? || pin.value.fingerprint != expected.fingerprint || pin.value.pending != expected.pending then None
    else if pin.value.fingerprint !in pin.value.retired && |pin.value.retired| >= RETIRED_LIMIT then None
    else Some(Pin(r.fingerprint, None, Retire(pin.value.retired, pin.value.fingerprint), Some(r.fingerprint)))
  }

  /** The ratchet reset the user's confirmation asked for and that is not applied yet. */
  function ResetPending(pin: Option<Pin>): Option<Fingerprint> {
    if pin.Some? && pin.value.pending.None? && pin.value.reset == Some(pin.value.fingerprint) then pin.value.reset
        else None
  }

  function ClearReset(pin: Option<Pin>, token: Fingerprint): Option<Pin> {
    if pin.Some? && pin.value.reset == Some(token) && pin.value.fingerprint == token
    then Some(pin.value.(reset := None)) else pin
  }

  /** A cached key is usable only while its fingerprint is pinned with nothing pending. */
  predicate CachedKeyTrusted(pin: Option<Pin>, r: Record) {
    pin.Some? && pin.value.pending.None? && pin.value.fingerprint == r.fingerprint
  }

  /** The pin file in place; `writeOk` says whether the write of that section succeeds. */
  class PinFile {
    var pin: Option<Pin>

    method VerifyBegin(r: Record, prompt: bool, canAsk: bool, writeOk: bool) returns (v: Verdict)
      modifies this
      ensures var (after, verdict) := Begin(old(pin), r, prompt, canAsk);
              if after == old(pin) || writeOk then pin == after && v == verdict else pin == old(pin) && v == Refuse
    {
      if pin.None? {
        if !writeOk { return Refuse; }
        pin := Some(Pin(r.fingerprint, None, [], None));
        return Accept;
      }
      var p := pin.value;
      if p.pending.None? && p.fingerprint == r.fingerprint { return Accept; }
      if !prompt && r.fingerprint in p.retired { return Refuse; }
      if p.fingerprint != r.fingerprint && !IsPending(p, r) {
        if !writeOk { return Refuse; }
        p := p.(pending := Some(r));
        pin := Some(p);
      }
      if !prompt || !canAsk || !IsPending(p, r) { return Refuse; }
      v := Ask(p);
    }

    method VerifyConfirm(expected: Pin, r: Record, writeOk: bool) returns (accepted: bool)
      modifies this
      ensures accepted <==> writeOk && Confirm(old(pin), expected, r).Some?
      ensures pin == if accepted then Confirm(old(pin), expected, r) else old(pin)
    {
      if pin.None? || pin.value.fingerprint != expected.fingerprint ||
          pin.value.pending != expected.pending { return false; }
      var retired := pin.value.retired;
      if pin.value.fingerprint !in retired {
        if |retired| >= RETIRED_LIMIT { return false; }
        retired := retired + [pin.value.fingerprint];
      }
      if !writeOk { return false; }
      pin := Some(Pin(r.fingerprint, None, retired, Some(r.fingerprint)));
      accepted := true;
    }

    method ClearRatchetReset(token: Fingerprint, writeOk: bool)
      modifies this
      ensures pin == if writeOk then ClearReset(old(pin), token) else old(pin)
    {
      if pin.Some? && pin.value.reset == Some(token) && pin.value.fingerprint == token && writeOk {
        pin := Some(pin.value.(reset := None));
      }
    }
  }

  // ----- runs ----------------------------------------------------------------------------------

  /** An open dialog: the record it is about and the pin it was opened for. */
  datatype Dialog = Dialog(record: Record, expected: Pin)

  /** `pinned` is every fingerprint pinned since the file last came into being. */
  datatype World = World(pin: Option<Pin>, dialogs: map<nat, Dialog>, pinned: set<Fingerprint>)

  datatype Step =
    | BeginBy(thread: nat, record: Record, prompt: bool, canAsk: bool, writeOk: bool)
    | TrustBy(thread: nat, writeOk: bool)  // the dialog's "trust" answer
    | DeclineBy(thread: nat)               // "decline", timeout or shutdown
    | ClearBy(token: Fingerprint, writeOk: bool)
    | RemoveFile                           // an identity deletion moves the pin away

  predicate Enabled(w: World, s: Step) {
    match s
    case BeginBy(t, _, _, _, _) => t !in w.dialogs
    case TrustBy(t, _) => t in w.dialogs
    case DeclineBy(t) => t in w.dialogs
    case ClearBy(_, _) => true
    case RemoveFile => true
  }

  function Pinned(w: World, pin: Option<Pin>): set<Fingerprint> {
    if pin.None? then {} else w.pinned + {pin.value.fingerprint}
  }

  function Next(w: World, s: Step): World
    requires Enabled(w, s)
  {
    match s
    case BeginBy(t, r, prompt, canAsk, ok) =>
      var (after, verdict) := Begin(w.pin, r, prompt, canAsk);
      if after != w.pin && !ok then w
      else World(after, if verdict.Ask? then w.dialogs[t := Dialog(r, verdict.expected)]
          else w.dialogs, Pinned(w, after))
    case TrustBy(t, ok) =>
      var after := Confirm(w.pin, w.dialogs[t].expected, w.dialogs[t].record);
      if after.None? || !ok then w.(dialogs := w.dialogs - {t})
      else World(after, w.dialogs - {t}, Pinned(w, after))
    case DeclineBy(t) => w.(dialogs := w.dialogs - {t})
    case ClearBy(token, ok) => if ok then w.(pin := ClearReset(w.pin, token)) else w
    case RemoveFile => w.(pin := None, pinned := {})
  }

  /** The records a step accepts: by first use or by match, or by a confirmation. */
  predicate Accepts(w: World, s: Step, r: Record)
    requires Enabled(w, s)
  {
    match s
    case BeginBy(_, q, prompt, canAsk, ok) =>
      var (after, verdict) := Begin(w.pin, q, prompt, canAsk);
      q == r && verdict.Accept? && (after == w.pin || ok)
    case TrustBy(t, ok) => w.dialogs[t].record == r && ok && Confirm(w.pin, w.dialogs[t].expected, r).Some?
    case _ => false
  }

  predicate NoDuplicates(s: seq<Fingerprint>) {
    forall i, j :: 0 <= i < j < |s| ==> s[i] != s[j]
  }

  ghost predicate Inv(w: World) {
    && (w.pin.None? ==> w.pinned == {})
    && (w.pin.Some? ==>
          var p := w.pin.value;
          && NoDuplicates(p.retired) && |p.retired| <= RETIRED_LIMIT
          && p.fingerprint in w.pinned
          && (forall f :: f in w.pinned && f != p.fingerprint ==> f in p.retired)
          && (p.reset.Some? ==> p.reset == Some(p.fingerprint))
          && (p.pending.Some? ==> p.pending.value.fingerprint != p.fingerprint))
    && (forall t :: t in w.dialogs ==> DialogOk(w.dialogs[t]))
  }

  /** A dialog is always about its own record, pending against a different pinned identity. */
  predicate DialogOk(d: Dialog) {
    d.expected.pending == Some(d.record) && d.expected.fingerprint != d.record.fingerprint
  }

  lemma RetireKeeps(retired: seq<Fingerprint>, f: Fingerprint)
    requires NoDuplicates(retired)
    ensures NoDuplicates(Retire(retired, f))
    ensures forall g :: g in Retire(retired, f) <==> g in retired || g == f
  {
  }

  lemma StepKeepsInv(w: World, s: Step)
    requires Inv(w) && Enabled(w, s)
    ensures Inv(Next(w, s))
  {
    if s.TrustBy? {
      assert DialogOk(w.dialogs[s.thread]);
      if w.pin.Some? { RetireKeeps(w.pin.value.retired, w.pin.value.fingerprint); }
    }
  }

  ghost predicate Run(ws: seq<World>, steps: seq<Step>) {
    && |ws| == |steps| + 1
    && ws[0] == World(None, map[], {})
    && forall i {:trigger steps[i]} :: 0 <= i < |steps| ==>
         Enabled(ws[i], steps[i]) && ws[i + 1] == Next(ws[i], steps[i])
  }

  /**
   * In every interleaving: what was ever pinned and is no longer is retired, once, among at most 128;
   * a reset token is the pinned fingerprint; and a pending identity is not the pinned one.
   */
  lemma {:induction false} RunsKeepInv(ws: seq<World>, steps: seq<Step>, i: nat)
    requires Run(ws, steps) && i < |ws|
    ensures Inv(ws[i])
  {
    if i > 0 {
      RunsKeepInv(ws, steps, i - 1);
      assert ws[i - 1 + 1] == Next(ws[i - 1], steps[i - 1]);
      StepKeepsInv(ws[i - 1], steps[i - 1]);
    }
  }

  /** A key is accepted only if its fingerprint is then the pinned one with nothing pending. */
  lemma AcceptedMeansPinned(ws: seq<World>, steps: seq<Step>, i: nat, r: Record)
    requires Run(ws, steps) && i < |steps| && Accepts(ws[i], steps[i], r)
    ensures CachedKeyTrusted(ws[i + 1].pin, r)
  {
    assert ws[i + 1] == Next(ws[i], steps[i]);
  }

  /** The pinned fingerprint changes only by a confirmation of exactly that old and new pair. */
  lemma PinChangesOnlyByItsConfirmation(ws: seq<World>, steps: seq<Step>, i: nat)
    requires Run(ws, steps) && i < |steps| && ws[i].pin.Some? && ws[i + 1].pin.Some?
    requires ws[i].pin.value.fingerprint != ws[i + 1].pin.value.fingerprint
    ensures steps[i].TrustBy?
    ensures var d := ws[i].dialogs[steps[i].thread];
            && d.expected.fingerprint == ws[i].pin.value.fingerprint
            && d.record.fingerprint == ws[i + 1].pin.value.fingerprint
            && ws[i].pin.value.pending == Some(d.record)
            && ResetPending(ws[i + 1].pin) == Some(d.record.fingerprint)
  {
    RunsKeepInv(ws, steps, i);
    assert ws[i + 1] == Next(ws[i], steps[i]);
    if steps[i].TrustBy? { assert DialogOk(ws[i].dialogs[steps[i].thread]); }
  }

  /** What ends a block: a "trust" answer for the record that is then pending, or losing the file. */
  predicate Unblocks(w: World, s: Step) {
    || s == RemoveFile
    || (s.TrustBy? && s.thread in w.dialogs && w.pin.Some? && w.pin.value.pending == Some(w.dialogs[s.thread].record))
  }

  predicate Blocked(w: World) { w.pin.Some? && w.pin.value.pending.Some? }

  lemma StepKeepsBlock(w: World, s: Step)
    requires Inv(w) && Enabled(w, s) && Blocked(w) && !Unblocks(w, s)
    ensures Blocked(Next(w, s)) && Next(w, s).pin.value.fingerprint == w.pin.value.fingerprint
    ensures forall r :: !Accepts(w, s, r)
  {
    if s.TrustBy? { assert DialogOk(w.dialogs[s.thread]); }
  }

  /** In every run a pending change stays pending, against the same pinned fingerprint, until it is unblocked. */
  lemma {:induction false} PendingStays(ws: seq<World>, steps: seq<Step>, i: nat, j: nat)
    requires Run(ws, steps) && i <= j < |ws| && Blocked(ws[i])
    requires forall k {:trigger steps[k]} :: i <= k < j ==> !Unblocks(ws[k], steps[k])
    ensures Blocked(ws[j]) && ws[j].pin.value.fingerprint == ws[i].pin.value.fingerprint
    decreases j
  {
    if i < j {
      PendingStays(ws, steps, i, j - 1);
      RunsKeepInv(ws, steps, j - 1);
      assert ws[j - 1 + 1] == Next(ws[j - 1], steps[j - 1]);
      StepKeepsBlock(ws[j - 1], steps[j - 1]);
    }
  }

  /**
   * In every run: once a change is pending, no step accepts any record and no cached key of either
   * identity is trusted, until the user trusts the record that is then pending or the file is lost.
   */
  lemma PendingBlocks(ws: seq<World>, steps: seq<Step>, i: nat, j: nat, r: Record)
    requires Run(ws, steps) && i <= j < |steps| && Blocked(ws[i])
    requires forall k {:trigger steps[k]} :: i <= k <= j ==> !Unblocks(ws[k], steps[k])
    ensures !Accepts(ws[j], steps[j], r) && !CachedKeyTrusted(ws[j].pin, r) && !CachedKeyTrusted(ws[j + 1].pin, r)
  {
    PendingStays(ws, steps, i, j);
    PendingStays(ws, steps, i, j + 1);
    RunsKeepInv(ws, steps, j);
    StepKeepsBlock(ws[j], steps[j]);
  }

  // ----- what each verification brings about ---------------------------------------------------

  /** A verification of a record of another identity than the pinned one; a retired one only counts with a prompt. */
  predicate MeetsChange(w: World, s: Step) {
    && s.BeginBy? && w.pin.Some? && s.record.fingerprint != w.pin.value.fingerprint
    && (s.prompt || s.record.fingerprint !in w.pin.value.retired)
  }

  /**
   * Such a verification leaves exactly that record pending against the same pin, unless the write fails,
   * and asks the user about that very pair where it may.
   */
  lemma ChangeBecomesPending(w: World, s: Step)
    requires Inv(w) && Enabled(w, s) && MeetsChange(w, s)
    ensures var w' := Next(w, s);
            && (s.writeOk || w.pin.value.pending == Some(s.record) ==>
                  && w'.pin == Some(w.pin.value.(pending := Some(s.record)))
                  && w'.dialogs == (if s.prompt && s.canAsk
                                    then w.dialogs[s.thread := Dialog(s.record, w'.pin.value)] else w.dialogs))
            && (!s.writeOk && w.pin.value.pending != Some(s.record) ==> w' == w)
    ensures forall r :: !Accepts(w, s, r)
  {
  }

  /** Any other verification writes nothing but a first pin, and asks nobody. */
  lemma OtherwiseNothingChanges(w: World, s: Step)
    requires Inv(w) && Enabled(w, s) && s.BeginBy? && !MeetsChange(w, s)
    ensures Next(w, s).dialogs == w.dialogs
    ensures w.pin.Some? ==> Next(w, s).pin == w.pin
    ensures w.pin.None? ==>
              Next(w, s).pin == if s.writeOk then Some(Pin(s.record.fingerprint, None, [], None)) else None
  {
  }

  /**
   * Exactly what is accepted: a record on first use once it is pinned, the pinned identity while nothing is
   * pending, and a confirmed one if the pin is still as it was shown and its history has room.
   */
  lemma AcceptedIff(w: World, s: Step, r: Record)
    requires Inv(w) && Enabled(w, s)
    ensures Accepts(w, s, r) <==>
            || (s.BeginBy? && s.record == r && w.pin.None? && s.writeOk)
            || (s.BeginBy? && s.record == r && w.pin.Some? && w.pin.value.pending.None?
                && w.pin.value.fingerprint == r.fingerprint)
            || (s.TrustBy? && s.writeOk && w.dialogs[s.thread].record == r && w.pin.Some?
                && w.pin.value.fingerprint == w.dialogs[s.thread].expected.fingerprint
                && w.pin.value.pending == Some(r)
                && (w.pin.value.fingerprint in w.pin.value.retired || |w.pin.value.retired| < 128))
  {
    if s.TrustBy? { assert DialogOk(w.dialogs[s.thread]); }
  }

  /**
   * What an answer does: a confirmation that is accepted pins the new identity, retires the old one and asks
   * for the ratchet reset; any other answer leaves the pin, and with it the block.
   */
  lemma AnswerTakesEffect(w: World, s: Step)
    requires Inv(w) && Enabled(w, s) && (s.TrustBy? || s.DeclineBy?)
    ensures var d, w' := w.dialogs[s.thread], Next(w, s);
            && w'.dialogs == w.dialogs - {s.thread}
            && (!Accepts(w, s, d.record) ==> w'.pin == w.pin)
            && (Accepts(w, s, d.record) ==>
                  && w'.pin.Some? && w'.pin.value.fingerprint == d.record.fingerprint && w'.pin.value.pending.None?
                  && w'.pin.value.reset == Some(d.record.fingerprint)
                  && forall f :: f in w'.pin.value.retired <==>
                       f in w.pin.value.retired || f == w.pin.value.fingerprint)
  {
  }

  /** A reset is cleared by its own token, once it is saved, and nothing else of the pin changes. */
  lemma ResetClearedIff(w: World, s: Step)
    requires Inv(w) && s.ClearBy?
    ensures var w' := Next(w, s);
            && w' == w.(pin := w'.pin)
            && (w.pin.Some? ==> w'.pin.Some? && w'.pin.value == w.pin.value.(reset := w'.pin.value.reset))
            && (w.pin.Some? && w.pin.value.reset.Some? ==>
                  (w'.pin.value.reset.None? <==> s.writeOk && w.pin.value.reset == Some(s.token)))
  {
  }

  /**
   * In every run: once a verification has met a changed identity and recorded it, no key of either identity,
   * nor of any other, is accepted or trusted until the record then pending is confirmed or the file is lost.
   */
  lemma ChangeBlocksFromThenOn(ws: seq<World>, steps: seq<Step>, i: nat, j: nat, r: Record)
    requires Run(ws, steps) && i < j < |steps| && MeetsChange(ws[i], steps[i]) && steps[i].writeOk
    requires forall k {:trigger steps[k]} :: i < k <= j ==> !Unblocks(ws[k], steps[k])
    ensures !Accepts(ws[i], steps[i], r) && !Accepts(ws[j], steps[j], r)
    ensures !CachedKeyTrusted(ws[i + 1].pin, r) && !CachedKeyTrusted(ws[j + 1].pin, r)
  {
    RunsKeepInv(ws, steps, i);
    assert ws[i + 1] == Next(ws[i], steps[i]);
    ChangeBecomesPending(ws[i], steps[i]);
    PendingBlocks(ws, steps, i + 1, j, r);
  }

  /** Of several dialogs open for one change, at most one confirmation takes effect. */
  lemma ConfirmedOnce(w: World, t: nat, u: nat, ok: bool)
    requires Inv(w) && t in w.dialogs && u in w.dialogs && t != u
    requires Next(w, TrustBy(t, true)).pin != w.pin
    ensures Next(Next(w, TrustBy(t, true)), TrustBy(u, ok)).pin == Next(w, TrustBy(t, true)).pin
  {
    assert DialogOk(w.dialogs[t]) && DialogOk(w.dialogs[u]);
  }

  /** While the file is there, it stays and forgets no retired fingerprint. */
  lemma {:induction false} RetiredForGood(ws: seq<World>, steps: seq<Step>, i: nat, j: nat)
    requires Run(ws, steps) && i <= j < |ws| && ws[i].pin.Some?
    requires forall k :: i <= k < j ==> steps[k] != RemoveFile
    ensures ws[j].pin.Some? && forall f :: f in ws[i].pin.value.retired ==> f in ws[j].pin.value.retired
    decreases j
  {
    if i < j {
      RetiredForGood(ws, steps, i, j - 1);
      assert ws[j - 1 + 1] == Next(ws[j - 1], steps[j - 1]);
    }
  }

  /** A "trust" answer for this very fingerprint. */
  predicate Confirms(w: World, s: Step, f: Fingerprint) {
    s.TrustBy? && s.thread in w.dialogs && w.dialogs[s.thread].record.fingerprint == f
  }

  /** While the file is there, a fingerprint that is not pinned becomes so only by its own confirmation. */
  lemma {:induction false} PinnedAgainOnlyByConfirmation(ws: seq<World>, steps: seq<Step>, i: nat, j: nat,
      f: Fingerprint)
    requires Run(ws, steps) && i <= j < |ws| && ws[i].pin.Some? && ws[i].pin.value.fingerprint != f
    requires forall k :: i <= k < j ==> steps[k] != RemoveFile
    requires ws[j].pin.Some? && ws[j].pin.value.fingerprint == f
    ensures exists k :: i <= k < j && Confirms(ws[k], steps[k], f)
    decreases j
  {
    RetiredForGood(ws, steps, i, j - 1);
    if ws[j - 1].pin.value.fingerprint == f {
      PinnedAgainOnlyByConfirmation(ws, steps, i, j - 1, f);
    } else {
      PinChangesOnlyByItsConfirmation(ws, steps, j - 1);
      assert ws[j - 1 + 1] == Next(ws[j - 1], steps[j - 1]);
      assert Confirms(ws[j - 1], steps[j - 1], f);
    }
  }

  /** So in every run a retired identity is accepted again only after the user confirmed that very identity. */
  lemma RetiredStaysOut(ws: seq<World>, steps: seq<Step>, i: nat, j: nat, r: Record)
    requires Run(ws, steps) && i <= j < |steps| && ws[i].pin.Some?
    requires r.fingerprint in ws[i].pin.value.retired && ws[i].pin.value.fingerprint != r.fingerprint
    requires forall k :: i <= k <= j ==> steps[k] != RemoveFile
    requires Accepts(ws[j], steps[j], r)
    ensures ws[j].pin.Some? && r.fingerprint in ws[j].pin.value.retired
    ensures exists k :: i <= k <= j && Confirms(ws[k], steps[k], r.fingerprint)
  {
    RetiredForGood(ws, steps, i, j);
    AcceptedMeansPinned(ws, steps, j, r);
    PinnedAgainOnlyByConfirmation(ws, steps, i, j + 1, r.fingerprint);
  }
}
