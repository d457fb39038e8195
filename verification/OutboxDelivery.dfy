/**
 * What becomes of each outbox entry, told entry by entry instead of by positions in a list: what the
 * user sees after every step, when the pump sends what, and that what was sent is gone for good.
 */
module OutboxDelivery {
  import opened Common
  import opened Outbox
  import opened OutboxRuns

  // ----- what the user sees --------------------------------------------------------------------

  /** The entries that `fate` keeps, each as it makes it, in the old order. */
  function Kept(xs: seq<Entry>, fate: Entry -> Option<Entry>): seq<Entry> {
    if xs == [] then []
    else
      var before := Kept(xs[..|xs| - 1], fate);
      match fate(xs[|xs| - 1])
      case None => before
      case Some(e) => before + [e]
  }

  predicate IsDraft(e: Entry) { e.state == Held || e.state == Queued }

  /** What one step does to one shown entry; `w'` tells only which entry a pump has started to send. */
  function Fate(w: World, s: Step, w': World): Entry -> Option<Entry> {
    (e: Entry) =>
      match s
      case StageBy(_, _) => Some(e)
      case CancelBy(id, ok) => if ok && e.id == id && id !in w.store.sending then None else Some(e)
      case ForgetBy(id, ok) => if ok && e.id == id && id !in w.store.sending then None else Some(e)
      case AskBy(id, now, ok) =>
        if ok && e.id == id && id !in w.store.sending
        then Some(e.(state := Queued, dueAt := now, error := "")) else Some(e)
      case KeepBy(x, ok) =>
        if ok && e.id == x.id then Some(e.(state := Uncertain, error := x.error, attempted := true)) else Some(e)
      case ResetBy => if w.store.sending == {} then None else Some(e)
      case BeginBy(p, i) => Some(FateAtBegin(e, p, i, w'))
      case EndBy(p, o, loadOk, saveOk) =>
        if p !in w.flights || e.id != w.flights[p].entry.id then Some(e)
        else if loadOk && saveOk then
          (match o
           case Sent => None
           case NotSent => Some(e.(state := w.flights[p].entry.state))
           case Failed(why) => Some(e.(state := Uncertain, error := why)))
        else Some(Interrupted(e))
      case Crash => Some(Interrupted(e))
  }

  function Interrupted(e: Entry): Entry {
    if e.state == Sending then e.(state := Uncertain, error := INTERRUPTED) else e
  }

  /** The one entry that is started is under way; waiting direct ones show why, once that is saved. */
  function FateAtBegin(e: Entry, p: nat, i: PumpInput, w': World): Entry {
    if p in w'.flights && w'.flights[p].entry.id == e.id
    then e.(state := Sending, error := "", attempted := e.attempted || (e.scope == Direct && i.ratchet))
    else if i.waiting && i.reason != "" && e.scope == Direct && IsDraft(e) && (i.save1 || p in w'.flights)
    then e.(error := i.reason)
    else e
  }

  /** What one step adds at the end: within the limits, a staged entry as it is, a kept one as uncertain. */
  function Newcomers(w: World, s: Step): seq<Entry> {
    match s
    case StageBy(e, ok) => if ok && |w.store.file| < 100 then [e] else []
    case KeepBy(e, ok) =>
      if ok && !Has(w.store.file, e.id) && |w.store.file| < 200
      then [e.(state := Uncertain, attempted := true, replyTo := 0)] else []
    case _ => []
  }

  lemma {:induction false} KeptAll(xs: seq<Entry>, ys: seq<Entry>, fate: Entry -> Option<Entry>)
    requires |xs| == |ys| && forall i :: 0 <= i < |xs| ==> fate(xs[i]) == Some(ys[i])
    ensures Kept(xs, fate) == ys
  {
    if xs != [] {
      var n := |xs| - 1;
      KeptAll(xs[..n], ys[..n], fate);
      assert fate(xs[n]) == Some(ys[n]) && ys == ys[..n] + [ys[n]];
    }
  }

  lemma {:induction false} KeptNone(xs: seq<Entry>, fate: Entry -> Option<Entry>)
    requires forall i :: 0 <= i < |xs| ==> fate(xs[i]) == None
    ensures Kept(xs, fate) == []
  {
    if xs != [] { KeptNone(xs[..|xs| - 1], fate); }
  }

  lemma {:induction false} KeptJoins(xs: seq<Entry>, ys: seq<Entry>, fate: Entry -> Option<Entry>)
    ensures Kept(xs + ys, fate) == Kept(xs, fate) + Kept(ys, fate)
  {
    if ys == [] {
      assert xs + ys == xs;
    } else {
      var n := |ys| - 1;
      KeptJoins(xs, ys[..n], fate);
      assert (xs + ys)[..|xs + ys| - 1] == xs + ys[..n] && (xs + ys)[|xs + ys| - 1] == ys[n];
    }
  }

  lemma KeptWithout(xs: seq<Entry>, k: nat, ys: seq<Entry>, fate: Entry -> Option<Entry>)
    requires k < |xs| && |ys| == |xs| && fate(xs[k]) == None
    requires forall i :: 0 <= i < |xs| && i != k ==> fate(xs[i]) == Some(ys[i])
    ensures Kept(xs, fate) == Without(ys, k)
  {
    KeptAll(xs[..k], ys[..k], fate);
    KeptAll(xs[k + 1..], ys[k + 1..], fate);
    KeptJoins(xs[..k], [xs[k]], fate);
    KeptJoins(xs[..k] + [xs[k]], xs[k + 1..], fate);
    assert Kept([xs[k]], fate) == [] by { assert [xs[k]][..0] == []; }
    assert xs == xs[..k] + [xs[k]] + xs[k + 1..];
  }

  /** Only what somebody sends reads as being sent. */
  predicate Settled(xs: seq<Entry>, sending: set<Id>) {
    forall i :: 0 <= i < |xs| && xs[i].state == Sending ==> xs[i].id in sending
  }

  /** Reading twice is reading once. */
  lemma ReadsBack(s: Store)
    requires Settled(s.file, s.sending)
    ensures Visible(s) == s.file
  {
  }

  lemma ShownFacts(w: World)
    requires Inv(w)
    ensures Distinct(Visible(w.store)) && Settled(Visible(w.store), w.store.sending)
    ensures |Visible(w.store)| == |w.store.file|
    ensures forall i :: 0 <= i < |w.store.file| ==> Visible(w.store)[i].id == w.store.file[i].id
  {
    VisibleOk(w);
  }

  ghost predicate SeenAs(w: World, s: Step, w': World) {
    Visible(w'.store) == Kept(Visible(w.store), Fate(w, s, w')) + Newcomers(w, s)
  }

  /** Nothing is written, and nobody starts or stops sending. */
  lemma UnchangedSeen(w: World, s: Step, w': World)
    requires w'.store == w.store && Newcomers(w, s) == []
    requires forall i :: 0 <= i < |w.store.file| ==> Fate(w, s, w')(Visible(w.store)[i]) == Some(Visible(w.store)[i])
    ensures SeenAs(w, s, w')
  {
    KeptAll(Visible(w.store), Visible(w.store), Fate(w, s, w'));
  }

  /** A list of the same entries, some rewritten, is written and reads back as written. */
  lemma RewrittenSeen(w: World, s: Step, w': World)
    requires |w'.store.file| == |w.store.file| && Settled(w'.store.file, w'.store.sending) && Newcomers(w, s) == []
    requires forall i :: 0 <= i < |w.store.file| ==> Fate(w, s, w')(Visible(w.store)[i]) == Some(w'.store.file[i])
    ensures SeenAs(w, s, w')
  {
    KeptAll(Visible(w.store), w'.store.file, Fate(w, s, w'));
    ReadsBack(w'.store);
  }

  /** A list without one entry is written. */
  lemma RemovedSeen(w: World, s: Step, w': World, k: nat)
    requires k < |w.store.file| && w'.store.file == Without(Visible(w.store), k) && Newcomers(w, s) == []
    requires Settled(w'.store.file, w'.store.sending) && Fate(w, s, w')(Visible(w.store)[k]) == None
    requires forall i :: 0 <= i < |w.store.file| && i != k ==>
               Fate(w, s, w')(Visible(w.store)[i]) == Some(Visible(w.store)[i])
    ensures SeenAs(w, s, w')
  {
    KeptWithout(Visible(w.store), k, Visible(w.store), Fate(w, s, w'));
    ReadsBack(w'.store);
  }

  /** One more entry, not being sent, is written at the end. */
  lemma AppendedSeen(w: World, s: Step, w': World, e: Entry)
    requires w'.store == w.store.(file := Visible(w.store) + [e]) && e.state != Sending && Newcomers(w, s) == [e]
    requires forall i :: 0 <= i < |w.store.file| ==> Fate(w, s, w')(Visible(w.store)[i]) == Some(Visible(w.store)[i])
    ensures SeenAs(w, s, w')
  {
    KeptAll(Visible(w.store), Visible(w.store), Fate(w, s, w'));
    ReadsBack(w'.store);
  }

  lemma WithoutSettled(xs: seq<Entry>, k: nat, sending: set<Id>, sending': set<Id>)
    requires k < |xs| && Distinct(xs) && Settled(xs, sending)
    requires sending' == sending || sending' == sending - {xs[k].id}
    ensures Settled(Without(xs, k), sending')
  {
    var ys := Without(xs, k);
    forall i | 0 <= i < |ys| ensures ys[i] == xs[if i < k then i else i + 1] {}
  }

  lemma StageSeen(w: World, s: Step, w': World)
    requires Inv(w) && Enabled(w, s) && w' == Next(w, s) && s.StageBy?
    ensures SeenAs(w, s, w')
  {
    if Newcomers(w, s) == [] { UnchangedSeen(w, s, w'); } else { AppendedSeen(w, s, w', s.e); }
  }

  lemma KeepSeen(w: World, s: Step, w': World)
    requires Inv(w) && Enabled(w, s) && w' == Next(w, s) && s.KeepBy?
    ensures SeenAs(w, s, w')
  {
    ShownFacts(w);
    var k := Position(Visible(w.store), s.e.id);
    if k < |w.store.file| {
      assert w.store.file[k].id == s.e.id;
      if s.saveOk { RewrittenSeen(w, s, w'); } else { UnchangedSeen(w, s, w'); }
    } else {
      KeepNewSeen(w, s, w');
    }
  }

  lemma KeepNewSeen(w: World, s: Step, w': World)
    requires Inv(w) && Enabled(w, s) && w' == Next(w, s) && s.KeepBy?
    requires Position(Visible(w.store), s.e.id) == |w.store.file|
    ensures SeenAs(w, s, w')
  {
    ShownFacts(w);
    var xs := Visible(w.store);
    forall i | 0 <= i < |xs| ensures w.store.file[i].id != s.e.id { assert xs[i].id != s.e.id; }
    if Newcomers(w, s) == [] { UnchangedSeen(w, s, w'); } else { AppendedSeen(w, s, w', Newcomers(w, s)[0]); }
  }

  lemma AskSeen(w: World, s: Step, w': World)
    requires Inv(w) && Enabled(w, s) && w' == Next(w, s) && s.AskBy?
    ensures SeenAs(w, s, w')
  {
    ShownFacts(w);
    var k := Position(Visible(w.store), s.id);
    if k < |w.store.file| && s.id !in w.store.sending && s.saveOk {
      RewrittenSeen(w, s, w');
    } else {
      UnchangedSeen(w, s, w');
    }
  }

  lemma RemoveSeen(w: World, s: Step, w': World)
    requires Inv(w) && Enabled(w, s) && w' == Next(w, s) && (s.CancelBy? || s.ForgetBy?)
    ensures SeenAs(w, s, w')
  {
    ShownFacts(w);
    var k := Position(Visible(w.store), s.id);
    if k < |w.store.file| && s.id !in w.store.sending && s.saveOk {
      WithoutSettled(Visible(w.store), k, w.store.sending, w.store.sending);
      RemovedSeen(w, s, w', k);
    } else {
      UnchangedSeen(w, s, w');
    }
  }

  lemma ResetSeen(w: World, w': World)
    requires Inv(w) && w' == Next(w, ResetBy)
    ensures SeenAs(w, ResetBy, w')
  {
    if w.store.sending == {} {
      KeptNone(Visible(w.store), Fate(w, ResetBy, w'));
    } else {
      UnchangedSeen(w, ResetBy, w');
    }
  }

  lemma StartSeen(w: World, s: Step, w': World)
    requires Inv(w) && Enabled(w, s) && w' == Next(w, s) && s.BeginBy? && PumpStarts(w.store, s.input)
    ensures SeenAs(w, s, w')
  {
    ShownFacts(w);
    var xs, k := Visible(w.store), PumpPick(w.store, s.input);
    assert w'.flights[s.pump].entry.id == xs[k].id;
    forall i | 0 <= i < |xs| ensures Fate(w, s, w')(xs[i]) == Some(w'.store.file[i]) {
      assert i != k ==> xs[i].id != xs[k].id;
    }
    RewrittenSeen(w, s, w');
  }

  lemma NoteSeen(w: World, s: Step, w': World)
    requires Inv(w) && Enabled(w, s) && w' == Next(w, s) && s.BeginBy? && !PumpStarts(w.store, s.input)
    ensures SeenAs(w, s, w')
  {
    ShownFacts(w);
    var xs, ys := Visible(w.store), PumpEntries(w.store, s.input);
    forall i | 0 <= i < |xs| && s.input.save1 ensures Fate(w, s, w')(xs[i]) == Some(ys[i]) {}
    if ys != xs && s.input.save1 { RewrittenSeen(w, s, w'); } else { UnchangedSeen(w, s, w'); }
  }

  /** The pump's report is lost: the entry it was sending now reads as interrupted. */
  lemma LostReportSeen(w: World, s: Step, w': World)
    requires Inv(w) && Enabled(w, s) && s.EndBy? && !(s.loadOk && s.saveOk)
    requires w'.store == w.store.(sending := w.store.sending - {w.flights[s.pump].entry.id})
    ensures SeenAs(w, s, w')
  {
    assert FlightOk(w, w.flights[s.pump]);
    KeptAll(Visible(w.store), Visible(w'.store), Fate(w, s, w'));
  }

  lemma EndSeen(w: World, s: Step, w': World)
    requires Inv(w) && Enabled(w, s) && w' == Next(w, s) && s.EndBy?
    ensures SeenAs(w, s, w')
  {
    ShownFacts(w);
    assert FlightOk(w, w.flights[s.pump]);
    var xs, id := Visible(w.store), w.flights[s.pump].entry.id;
    var k := Position(xs, id);
    if !(s.loadOk && s.saveOk) {
      LostReportSeen(w, s, w');
    } else if k == |xs| {
      KeptAll(xs, Visible(w'.store), Fate(w, s, w'));
    } else if s.outcome.Sent? {
      WithoutSettled(xs, k, w.store.sending, w'.store.sending);
      RemovedSeen(w, s, w', k);
    } else {
      RewrittenSeen(w, s, w');
    }
  }

  lemma CrashSeen(w: World, w': World)
    requires Inv(w) && w' == Next(w, Crash)
    ensures SeenAs(w, Crash, w')
  {
    KeptAll(Visible(w.store), Visible(w'.store), Fate(w, Crash, w'));
  }

  /**
   * What the user sees after any step: the entries shown before, each with its own fate and in the old
   * order, and then what the step adds.
   */
  lemma EachEntryHasItsFate(w: World, s: Step)
    requires Inv(w) && Enabled(w, s)
    ensures Visible(Next(w, s).store) == Kept(Visible(w.store), Fate(w, s, Next(w, s))) + Newcomers(w, s)
  {
    match s
    case StageBy(_, _) => StageSeen(w, s, Next(w, s));
    case CancelBy(_, _) => RemoveSeen(w, s, Next(w, s));
    case AskBy(_, _, _) => AskSeen(w, s, Next(w, s));
    case KeepBy(_, _) => KeepSeen(w, s, Next(w, s));
    case ForgetBy(_, _) => RemoveSeen(w, s, Next(w, s));
    case ResetBy => ResetSeen(w, Next(w, s));
    case BeginBy(_, i) =>
      if PumpStarts(w.store, i) { StartSeen(w, s, Next(w, s)); } else { NoteSeen(w, s, Next(w, s)); }
    case EndBy(_, _, _, _) => EndSeen(w, s, Next(w, s));
    case Crash => CrashSeen(w, Next(w, s));
  }

  // ----- sent is gone --------------------------------------------------------------------------

  function Others(xs: seq<Entry>, id: Id): seq<Entry> {
    if xs == [] then []
    else Others(xs[..|xs| - 1], id) + if xs[|xs| - 1].id == id then [] else [xs[|xs| - 1]]
  }

  lemma {:induction false} KeptOthers(xs: seq<Entry>, id: Id, fate: Entry -> Option<Entry>)
    requires forall i :: 0 <= i < |xs| ==> fate(xs[i]) == if xs[i].id == id then None else Some(xs[i])
    ensures Kept(xs, fate) == Others(xs, id)
  {
    if xs != [] { KeptOthers(xs[..|xs| - 1], id, fate); }
  }

  lemma {:induction false} OthersLack(xs: seq<Entry>, id: Id)
    ensures !Has(Others(xs, id), id)
  {
    if xs != [] {
      OthersLack(xs[..|xs| - 1], id);
      var ys := Others(xs, id);
      forall k | 0 <= k < |ys| ensures ys[k].id != id {
        assert k < |Others(xs[..|xs| - 1], id)| ==> ys[k] == Others(xs[..|xs| - 1], id)[k];
      }
    }
  }

  lemma ShownHasSame(s: Store, id: Id)
    ensures Has(Visible(s), id) <==> Has(s.file, id)
  {
    if Has(s.file, id) { ShownHave(s, PumpInput(0, false, "", false, false, false), id); }
    if Has(Visible(s), id) {
      var k :| 0 <= k < |Visible(s)| && Visible(s)[k].id == id;
      assert s.file[k].id == id;
    }
  }

  /** Once a sent entry's report is saved, the entry is out of the file; the others stay as they were shown. */
  lemma SentLeavesTheFile(w: World, p: nat)
    requires Inv(w) && p in w.flights
    ensures var id, w' := w.flights[p].entry.id, Next(w, EndBy(p, Sent, true, true));
            !Has(w'.store.file, id) && id !in w'.store.sending && Visible(w'.store) == Others(Visible(w.store), id)
  {
    var id, s := w.flights[p].entry.id, EndBy(p, Sent, true, true);
    var w' := Next(w, s);
    EachEntryHasItsFate(w, s);
    KeptOthers(Visible(w.store), id, Fate(w, s, w'));
    OthersLack(Visible(w.store), id);
    ShownHasSame(w'.store, id);
  }

  lemma {:induction false} KeptLack(xs: seq<Entry>, fate: Entry -> Option<Entry>, id: Id)
    requires !Has(xs, id)
    requires forall e :: fate(e).Some? ==> fate(e).value.id == e.id
    ensures !Has(Kept(xs, fate), id)
  {
    if xs != [] {
      var ys := xs[..|xs| - 1];
      forall k | 0 <= k < |ys| ensures ys[k].id != id { assert ys[k] == xs[k]; }
      KeptLack(ys, fate, id);
      assert xs[|xs| - 1].id != id;
      var zs := Kept(xs, fate);
      forall k | 0 <= k < |zs| ensures zs[k].id != id { assert k < |Kept(ys, fate)| ==> zs[k] == Kept(ys, fate)[k]; }
    }
  }

  /** Only keeping an operation of that very ID brings back an entry that is gone. */
  lemma GoneStaysGone(w: World, s: Step, id: Id)
    requires Inv(w) && Enabled(w, s) && id in w.used && !Has(w.store.file, id) && !(s.KeepBy? && s.e.id == id)
    ensures !Has(Next(w, s).store.file, id) && id in Next(w, s).used
  {
    var w' := Next(w, s);
    EachEntryHasItsFate(w, s);
    ShownHasSame(w.store, id);
    ShownHasSame(w'.store, id);
    var xs, fate := Visible(w.store), Fate(w, s, w');
    KeptLack(xs, fate, id);
    var zs := Visible(w'.store);
    forall k | 0 <= k < |zs| ensures zs[k].id != id { assert k < |Kept(xs, fate)| ==> zs[k] == Kept(xs, fate)[k]; }
  }

  /** In every run a message that was sent, and whose report was saved, never comes back unless it is kept again. */
  lemma {:induction false} SentStaysOut(ws: seq<World>, steps: seq<Step>, i: nat, j: nat)
    requires Run(ws, steps) && i < |steps| && i < j < |ws|
    requires steps[i].EndBy? && steps[i].outcome.Sent? && steps[i].loadOk && steps[i].saveOk
    requires steps[i].pump in ws[i].flights
    requires forall k {:trigger steps[k]} :: i < k < j ==>
               !(steps[k].KeepBy? && steps[k].e.id == ws[i].flights[steps[i].pump].entry.id)
    ensures var id := ws[i].flights[steps[i].pump].entry.id; !Has(ws[j].store.file, id) && id in ws[j].used
    decreases j
  {
    var id := ws[i].flights[steps[i].pump].entry.id;
    RunsKeepInv(ws, steps, j - 1);
    assert ws[j - 1 + 1] == Next(ws[j - 1], steps[j - 1]);
    if j == i + 1 {
      assert FlightOk(ws[i], ws[i].flights[steps[i].pump]);
      SentLeavesTheFile(ws[i], steps[i].pump);
    } else {
      SentStaysOut(ws, steps, i, j - 1);
      GoneStaysGone(ws[j - 1], steps[j - 1], id);
    }
  }

  /** With that, exactly these steps take an entry out of the file. */
  lemma LeavesExactly(w: World, s: Step, id: Id)
    requires Inv(w) && Enabled(w, s) && Has(w.store.file, id)
    ensures Has(Next(w, s).store.file, id) <==> !Leaves(w, s, id)
  {
    if !Leaves(w, s, id) {
      EntriesStayUntilSentOrRemoved(w, s, id);
    } else {
      var w' := Next(w, s);
      var xs, fate := Visible(w.store), Fate(w, s, w');
      EachEntryHasItsFate(w, s);
      ShownHasSame(w'.store, id);
      if s.ResetBy? { KeptNone(xs, fate); } else { KeptOthers(xs, id, fate); OthersLack(xs, id); }
    }
  }

  // ----- when the pump sends -------------------------------------------------------------------

  /** Entry `k` is the first that is due, may go out now and is not held up by one under way before it. */
  ghost predicate FirstDue(w: World, i: PumpInput, k: int) {
    && 0 <= k < |w.store.file|
    && (w.store.file[k].state == Held || w.store.file[k].state == Queued)
    && w.store.file[k].dueAt <= i.now && (w.store.file[k].scope == Direct ==> !i.waiting)
    && (forall j :: 0 <= j <= k ==> w.store.file[j].id !in w.store.sending)
    && (forall j :: 0 <= j < k ==>
          || (w.store.file[j].state != Held && w.store.file[j].state != Queued)
          || w.store.file[j].dueAt > i.now
          || (w.store.file[j].scope == Direct && i.waiting))
  }

  lemma {:induction false} CandidateIsFirst(xs: seq<Entry>, sending: set<Id>, waiting: bool, now: Time, k: nat)
    requires k < |xs| && Ready(xs[k], waiting, now)
    requires forall j :: 0 <= j <= k ==> xs[j].id !in sending
    requires forall j :: 0 <= j < k ==> !Ready(xs[j], waiting, now)
    ensures Candidate(xs, sending, waiting, now) == k
  {
    if k > 0 { CandidateIsFirst(xs[1..], sending, waiting, now, k - 1); }
  }

  lemma DueIsReady(w: World, i: PumpInput, k: nat)
    requires k < |w.store.file|
    ensures var e, x := w.store.file[k], PumpEntries(w.store, i)[k];
            && x.id == e.id
            && (Ready(x, i.waiting, i.now) <==>
                  (e.state == Held || e.state == Queued) && e.dueAt <= i.now && (e.scope == Direct ==> !i.waiting))
            && (Ready(x, i.waiting, i.now) ==> x == e.(error := x.error))
  {
  }

  /**
   * A pump starts sending exactly if its save succeeds and some entry is the first due one; then it
   * sends that entry, as it stands in the file.
   */
  lemma SendsTheFirstDue(w: World, p: nat, i: PumpInput)
    requires Inv(w) && p !in w.flights
    ensures var w' := Next(w, BeginBy(p, i));
            && (p in w'.flights <==> i.save2 && exists k :: FirstDue(w, i, k))
            && (p in w'.flights ==> exists k :: FirstDue(w, i, k) && SentAs(w, k, w'.flights[p].entry))
  {
    if PumpStarts(w.store, i) { PickedIsDue(w, i); }
    if k :| FirstDue(w, i, k) { DueIsPicked(w, i, k); }
  }

  predicate SentAs(w: World, k: int, e: Entry) {
    0 <= k < |w.store.file| && e == w.store.file[k].(error := e.error)
  }

  lemma PickedIsDue(w: World, i: PumpInput)
    requires PumpStarts(w.store, i)
    ensures var k := PumpPick(w.store, i); FirstDue(w, i, k) && SentAs(w, k, PumpEntries(w.store, i)[k])
  {
    var k := PumpPick(w.store, i);
    forall j | 0 <= j <= k { DueIsReady(w, i, j); }
  }

  lemma DueIsPicked(w: World, i: PumpInput, k: nat)
    requires FirstDue(w, i, k)
    ensures PumpPick(w.store, i) == k
  {
    forall j | 0 <= j <= k { DueIsReady(w, i, j); }
    CandidateIsFirst(PumpEntries(w.store, i), w.store.sending, i.waiting, i.now, k);
  }

  /** In every run, what an attempt sends was waiting, was due and could go out when the attempt began. */
  lemma NothingIsSentEarly(ws: seq<World>, steps: seq<Step>, i: nat)
    requires Run(ws, steps) && i < |steps| && steps[i].BeginBy? && steps[i].pump in ws[i + 1].flights
    ensures var e, input := ws[i + 1].flights[steps[i].pump].entry, steps[i].input;
            && (e.state == Held || e.state == Queued) && e.dueAt <= input.now && !(e.scope == Direct && input.waiting)
            && e.id !in ws[i].store.sending && e.id in ws[i + 1].store.sending
            && exists k :: SentAs(ws[i], k, e)
  {
    RunsKeepInv(ws, steps, i);
    RunsKeepInv(ws, steps, i + 1);
    assert ws[i + 1] == Next(ws[i], steps[i]);
    SendsTheFirstDue(ws[i], steps[i].pump, steps[i].input);
    assert FlightOk(ws[i + 1], ws[i + 1].flights[steps[i].pump]);
  }
}
