/**
 * Whole runs of the outbox: any interleaving of pumps, user actions, composer sends, failed loads and
 * saves, and crashes that wipe everything but the file.
 */
module OutboxRuns {
  import opened Outbox

  /** What the world sees: a user's retry or send taking effect, an attempt starting, one that sent nothing. */
  datatype Event = Asked(id: Id) | Started(id: Id) | NothingSent(id: Id)

  /** `flights` are the pumps between their two critical sections; `used` are the IDs ever taken. */
  datatype World = World(store: Store, flights: map<nat, Flight>, log: seq<Event>, used: set<Id>)

  datatype Step =
    | StageBy(e: Entry, saveOk: bool)
    | CancelBy(id: Id, saveOk: bool)
    | AskBy(id: Id, now: Time, saveOk: bool)
    | KeepBy(e: Entry, saveOk: bool)
    | ForgetBy(id: Id, saveOk: bool)
    | ResetBy
    | BeginBy(pump: nat, input: PumpInput)
    | EndBy(pump: nat, outcome: Outcome, loadOk: bool, saveOk: bool)
    | Crash

  /** Staged entries get an unused ID and wait; a pump runs its two sections in order. */
  predicate Enabled(w: World, s: Step) {
    && (s.StageBy? ==> s.e.id !in w.used && (s.e.state == Held || s.e.state == Queued))
    && (s.BeginBy? ==> s.pump !in w.flights)
    && (s.EndBy? ==> s.pump in w.flights)
  }

  predicate AskTakesEffect(s: Store, id: Id, saveOk: bool) {
    Position(Visible(s), id) < |s.file| && id !in s.sending && saveOk
  }

  function Next(w: World, s: Step): World
    requires Enabled(w, s)
  {
    match s
    case StageBy(e, ok) => w.(store := Stage(w.store, e, ok), used := w.used + {e.id})
    case CancelBy(id, ok) => w.(store := Cancel(w.store, id, ok))
    case AskBy(id, now, ok) =>
      w.(store := Ask(w.store, id, now, ok),
         log := if AskTakesEffect(w.store, id, ok) then w.log + [Asked(id)] else w.log)
    case KeepBy(e, ok) => w.(store := Keep(w.store, e, ok), used := w.used + {e.id})
    case ForgetBy(id, ok) => w.(store := Forget(w.store, id, ok))
    case ResetBy => w.(store := Reset(w.store))
    case BeginBy(p, i) =>
      if PumpStarts(w.store, i)
      then var e := PumpEntries(w.store, i)[PumpPick(w.store, i)];
           w.(store := PumpBegin(w.store, i), flights := w.flights[p := Flight(e)], log := w.log + [Started(e.id)])
      else w.(store := PumpBegin(w.store, i))
    case EndBy(p, o, loadOk, saveOk) =>
      w.(store := PumpEnd(w.store, w.flights[p], o, loadOk, saveOk),
         flights := w.flights - {p},
         log := if o.NotSent? then w.log + [NothingSent(w.flights[p].entry.id)] else w.log)
    case Crash => w.(store := w.store.(sending := {}), flights := map[])
  }

  /** Attempts that may have sent the entry since the user last asked for it. */
  function Attempts(log: seq<Event>, id: Id): int {
    if log == [] then 0
    else
      var before, e := Attempts(log[..|log| - 1], id), log[|log| - 1];
      if e.id != id then before
      else match e
           case Asked(_) => 0
           case Started(_) => before + 1
           case NothingSent(_) => before - 1
  }

  lemma AttemptsAfter(log: seq<Event>, e: Event, id: Id)
    ensures Attempts(log + [e], id) ==
            if e.id != id then Attempts(log, id)
            else if e.Asked? then 0 else if e.Started? then Attempts(log, id) + 1 else Attempts(log, id) - 1
  {
    assert (log + [e])[..|log|] == log;
  }

  // ----- the invariant -------------------------------------------------------------------------

  predicate Distinct(entries: seq<Entry>) {
    forall i, j :: 0 <= i < j < |entries| ==> entries[i].id != entries[j].id
  }

  predicate Waiting(e: Entry) {
    e.state == Held || e.state == Queued
  }

  /** A waiting entry is not being sent, and has not been attempted since the user asked for it. */
  predicate EntryOk(e: Entry, w: World) {
    e.id in w.used && (Waiting(e) ==> e.id !in w.store.sending && Attempts(w.log, e.id) == 0)
  }

  predicate EntriesOk(entries: seq<Entry>, w: World) {
    Distinct(entries) && forall i :: 0 <= i < |entries| ==> EntryOk(entries[i], w)
  }

  ghost predicate FlightsOk(w: World) {
    && (forall p :: p in w.flights ==> FlightOk(w, w.flights[p]))
    && (forall p, q :: p in w.flights && q in w.flights && w.flights[p].entry.id == w.flights[q].entry.id ==> p == q)
    && (forall id :: id in w.store.sending ==> exists p :: p in w.flights && w.flights[p].entry.id == id)
  }

  predicate FlightOk(w: World, f: Flight) {
    f.entry.id in w.store.sending && f.entry.id in w.used && Waiting(f.entry) && Attempts(w.log, f.entry.id) == 1
  }

  ghost predicate Inv(w: World) {
    && EntriesOk(w.store.file, w)
    && FlightsOk(w)
    && |w.store.file| <= UNCERTAIN_CAP
    && (forall id :: 0 <= Attempts(w.log, id) <= 1)
    && (forall id :: id !in w.used ==> Attempts(w.log, id) == 0)
  }

  // ----- lists ---------------------------------------------------------------------------------

  lemma VisibleOk(w: World)
    requires EntriesOk(w.store.file, w)
    ensures EntriesOk(Visible(w.store), w)
  {
    forall i | 0 <= i < |w.store.file| ensures EntryOk(Visible(w.store)[i], w) { assert EntryOk(w.store.file[i], w); }
  }

  lemma NotedOk(entries: seq<Entry>, w: World, reason: string)
    requires EntriesOk(entries, w)
    ensures EntriesOk(AnnotatedAll(entries, reason), w)
  {
    forall i | 0 <= i < |entries| ensures EntryOk(AnnotatedAll(entries, reason)[i], w) {
      assert EntryOk(entries[i], w);
    }
  }

  lemma WithoutOk(entries: seq<Entry>, k: nat, w: World)
    requires EntriesOk(entries, w) && k < |entries|
    ensures EntriesOk(Without(entries, k), w)
  {
    var r := Without(entries, k);
    forall i | 0 <= i < |r| ensures EntryOk(r[i], w) {
      assert r[i] == entries[if i < k then i else i + 1];
    }
    forall i, j | 0 <= i < j < |r| ensures r[i].id != r[j].id {
      assert r[i] == entries[if i < k then i else i + 1] && r[j] == entries[if j < k then j else j + 1];
    }
  }

  lemma ReplacedOk(entries: seq<Entry>, k: nat, e: Entry, w: World)
    requires EntriesOk(entries, w) && k < |entries| && e.id == entries[k].id && EntryOk(e, w)
    ensures EntriesOk(entries[k := e], w)
  {
  }

  lemma AppendedOk(entries: seq<Entry>, e: Entry, w: World)
    requires EntriesOk(entries, w) && EntryOk(e, w)
    requires forall i :: 0 <= i < |entries| ==> entries[i].id != e.id
    ensures EntriesOk(entries + [e], w)
  {
  }

  /** A list stays good when the world changes only for IDs that have no waiting entry in it. */
  lemma CarriedOver(entries: seq<Entry>, w: World, w': World)
    requires EntriesOk(entries, w) && w.used <= w'.used
    requires forall i :: 0 <= i < |entries| && Waiting(entries[i]) ==>
               (entries[i].id in w'.store.sending ==> entries[i].id in w.store.sending)
               && Attempts(w'.log, entries[i].id) == Attempts(w.log, entries[i].id)
    ensures EntriesOk(entries, w')
  {
    forall i | 0 <= i < |entries| ensures EntryOk(entries[i], w') { assert EntryOk(entries[i], w); }
  }

  // ----- every step keeps the invariant --------------------------------------------------------

  /** Actions that only rewrite the file. */
  lemma RewriteKeeps(w: World, w': World)
    requires Inv(w) && w' == w.(store := w'.store, used := w'.used) && w.used <= w'.used
    requires w'.store.sending == w.store.sending
    requires EntriesOk(w'.store.file, w') && |w'.store.file| <= UNCERTAIN_CAP
    ensures Inv(w')
  {
    forall p | p in w'.flights ensures FlightOk(w', w'.flights[p]) { assert FlightOk(w, w.flights[p]); }
  }

  lemma SendingIsUsed(w: World, id: Id)
    requires FlightsOk(w) && id in w.store.sending
    ensures id in w.used
  {
    var p :| p in w.flights && w.flights[p].entry.id == id;
    assert FlightOk(w, w.flights[p]);
  }

  lemma StageKeeps(w: World, s: Step)
    requires Inv(w) && Enabled(w, s) && s.StageBy?
    ensures Inv(Next(w, s))
  {
    var w' := Next(w, s);
    var wide := w.(used := w'.used);
    CarriedOver(w.store.file, w, wide);
    VisibleOk(wide);
    forall id | id in w.store.sending ensures id in w.used { SendingIsUsed(w, id); }
    forall i | 0 <= i < |w.store.file| ensures Visible(w.store)[i].id != s.e.id { assert EntryOk(w.store.file[i], w); }
    AppendedOk(Visible(w.store), s.e, wide);
    CarriedOver(w'.store.file, wide, w');
    RewriteKeeps(w, w');
  }

  lemma KeepKeeps(w: World, s: Step)
    requires Inv(w) && s.KeepBy?
    ensures Inv(Next(w, s))
  {
    var w' := Next(w, s);
    var wide := w.(used := w'.used);
    CarriedOver(w.store.file, w, wide);
    VisibleOk(wide);
    var entries, k := Visible(w.store), Position(Visible(w.store), s.e.id);
    if k < |entries| {
      ReplacedOk(entries, k, entries[k].(state := Uncertain, error := s.e.error, attempted := true), wide);
    } else {
      AppendedOk(entries, s.e.(state := Uncertain, attempted := true, replyTo := 0), wide);
    }
    CarriedOver(w'.store.file, wide, w');
    RewriteKeeps(w, w');
  }

  lemma RemoveKeeps(w: World, s: Step)
    requires Inv(w) && (s.CancelBy? || s.ForgetBy?)
    ensures Inv(Next(w, s))
  {
    var w' := Next(w, s);
    VisibleOk(w);
    var k := Position(Visible(w.store), s.id);
    if k < |w.store.file| { WithoutOk(Visible(w.store), k, w); }
    CarriedOver(w'.store.file, w, w');
    RewriteKeeps(w, w');
  }

  lemma ResetKeeps(w: World)
    requires Inv(w)
    ensures Inv(Next(w, ResetBy))
  {
    RewriteKeeps(w, Next(w, ResetBy).(store := Next(w, ResetBy).store));
  }

  lemma AskKeeps(w: World, s: Step)
    requires Inv(w) && s.AskBy?
    ensures Inv(Next(w, s))
  {
    var w' := Next(w, s);
    if AskTakesEffect(w.store, s.id, s.saveOk) {
      forall id ensures Attempts(w'.log, id) == if id == s.id then 0 else Attempts(w.log, id) {
        AttemptsAfter(w.log, Asked(s.id), id);
      }
      VisibleOk(w);
      var entries, k := Visible(w.store), Position(Visible(w.store), s.id);
      assert EntryOk(entries[k], w);
      CarriedOver(entries, w, w');
      ReplacedOk(entries, k, entries[k].(state := Queued, dueAt := s.now, error := ""), w');
      forall p | p in w'.flights ensures FlightOk(w', w'.flights[p]) { assert FlightOk(w, w.flights[p]); }
    }
  }

  lemma BeginKeeps(w: World, s: Step)
    requires Inv(w) && Enabled(w, s) && s.BeginBy?
    ensures Inv(Next(w, s))
  {
    var w', i := Next(w, s), s.input;
    VisibleOk(w);
    NotedOk(Visible(w.store), w, i.reason);
    var entries, k := PumpEntries(w.store, i), PumpPick(w.store, i);
    if !PumpStarts(w.store, i) {
      CarriedOver(w'.store.file, w, w');
      RewriteKeeps(w, w');
    } else {
      StartKeeps(w, w', s, entries, k);
    }
  }

  /** One more pump is sending, an entry that nobody was sending. */
  lemma StartFlights(w: World, w': World, pump: nat, e: Entry)
    requires FlightsOk(w) && pump !in w.flights && e.id !in w.store.sending && e.id in w.used && Waiting(e)
    requires w'.flights == w.flights[pump := Flight(e)] && w'.used == w.used
    requires w'.store.sending == w.store.sending + {e.id}
    requires forall id :: Attempts(w'.log, id) == if id == e.id then 1 else Attempts(w.log, id)
    ensures FlightsOk(w')
  {
    forall p | p in w.flights ensures FlightOk(w, w.flights[p]) && w.flights[p].entry.id != e.id {}
    forall p | p in w'.flights ensures FlightOk(w', w'.flights[p]) {
      if p != pump { assert FlightOk(w, w.flights[p]); }
    }
    forall id | id in w'.store.sending ensures exists p :: p in w'.flights && w'.flights[p].entry.id == id {
      if id == e.id {
        assert w'.flights[pump].entry.id == id;
      } else {
        var p :| p in w.flights && w.flights[p].entry.id == id;
        assert p in w'.flights && w'.flights[p].entry.id == id;
      }
    }
  }

  lemma StartKeeps(w: World, w': World, s: Step, entries: seq<Entry>, k: nat)
    requires Inv(w) && Enabled(w, s) && s.BeginBy? && PumpStarts(w.store, s.input) && w' == Next(w, s)
    requires entries == PumpEntries(w.store, s.input) && k == PumpPick(w.store, s.input) && EntriesOk(entries, w)
    ensures Inv(w')
  {
    var e := entries[k];
    assert EntryOk(e, w) && Waiting(e);
    forall id ensures Attempts(w'.log, id) == if id == e.id then 1 else Attempts(w.log, id) {
      AttemptsAfter(w.log, Started(e.id), id);
    }
    ReplacedOk(entries, k, MarkSending(e, s.input.ratchet), w);
    CarriedOver(entries[k := MarkSending(e, s.input.ratchet)], w, w');
    StartFlights(w, w', s.pump, e);
  }

  lemma EndFlights(w: World, s: Step)
    requires Inv(w) && Enabled(w, s) && s.EndBy?
    ensures FlightsOk(Next(w, s))
  {
    var w', id := Next(w, s), w.flights[s.pump].entry.id;
    forall q ensures Attempts(w'.log, q) ==
                     if s.outcome.NotSent? && q == id then Attempts(w.log, q) - 1 else Attempts(w.log, q) {
      AttemptsAfter(w.log, NothingSent(id), q);
    }
    forall p | p in w'.flights ensures FlightOk(w', w'.flights[p]) { assert FlightOk(w, w.flights[p]); }
    forall q | q in w'.store.sending ensures exists p :: p in w'.flights && w'.flights[p].entry.id == q {
      var p :| p in w.flights && w.flights[p].entry.id == q;
      assert p in w'.flights && w'.flights[p].entry.id == q;
    }
  }

  lemma EndKeeps(w: World, s: Step)
    requires Inv(w) && Enabled(w, s) && s.EndBy?
    ensures Inv(Next(w, s))
  {
    var w', f := Next(w, s), w.flights[s.pump];
    assert FlightOk(w, f);
    forall q ensures Attempts(w'.log, q) ==
                     if s.outcome.NotSent? && q == f.entry.id then Attempts(w.log, q) - 1 else Attempts(w.log, q) {
      AttemptsAfter(w.log, NothingSent(f.entry.id), q);
    }
    EndFlights(w, s);
    CarriedOver(w.store.file, w, w');
    VisibleOk(w);
    var entries, k := Visible(w.store), Position(Visible(w.store), f.entry.id);
    CarriedOver(entries, w, w');
    if s.loadOk && k < |entries| && s.saveOk {
      match s.outcome
      case Sent => WithoutOk(entries, k, w');
      case NotSent => ReplacedOk(entries, k, entries[k].(state := f.entry.state), w');
      case Failed(why) => ReplacedOk(entries, k, entries[k].(state := Uncertain, error := why), w');
    }
  }

  lemma CrashKeeps(w: World)
    requires Inv(w)
    ensures Inv(Next(w, Crash))
  {
    CarriedOver(w.store.file, w, Next(w, Crash));
  }

  lemma StepKeepsInv(w: World, s: Step)
    requires Inv(w) && Enabled(w, s)
    ensures Inv(Next(w, s))
  {
    match s
    case StageBy(_, _) => StageKeeps(w, s);
    case CancelBy(_, _) => RemoveKeeps(w, s);
    case AskBy(_, _, _) => AskKeeps(w, s);
    case KeepBy(_, _) => KeepKeeps(w, s);
    case ForgetBy(_, _) => RemoveKeeps(w, s);
    case ResetBy => ResetKeeps(w);
    case BeginBy(_, _) => BeginKeeps(w, s);
    case EndBy(_, _, _, _) => EndKeeps(w, s);
    case Crash => CrashKeeps(w);
  }

  // ----- what every run guarantees -------------------------------------------------------------

  ghost predicate Init(w: World) {
    w.store == Store([], {}) && w.flights == map[] && w.log == []
  }

  ghost predicate Run(ws: seq<World>, steps: seq<Step>) {
    && |ws| == |steps| + 1
    && Init(ws[0])
    && forall i {:trigger steps[i]} :: 0 <= i < |steps| ==>
         Enabled(ws[i], steps[i]) && ws[i + 1] == Next(ws[i], steps[i])
  }

  lemma {:induction false} RunsKeepInv(ws: seq<World>, steps: seq<Step>, i: nat)
    requires Run(ws, steps) && i < |ws|
    ensures Inv(ws[i])
  {
    if i > 0 {
      RunsKeepInv(ws, steps, i - 1);
      assert ws[i - 1 + 1] == Next(ws[i - 1], steps[i - 1]);
      StepKeepsInv(ws[i - 1], steps[i - 1]);
    }
  }

  /** No two pumps ever send the same entry at once, and what is being sent is not waiting. */
  lemma NeverTwiceInFlight(ws: seq<World>, steps: seq<Step>, i: nat, p: nat, q: nat)
    requires Run(ws, steps) && i < |ws| && p in ws[i].flights && q in ws[i].flights
    ensures ws[i].flights[p].entry.id == ws[i].flights[q].entry.id ==> p == q
    ensures forall k :: 0 <= k < |ws[i].store.file| && ws[i].store.file[k].id == ws[i].flights[p].entry.id ==>
              !Waiting(ws[i].store.file[k])
  {
    RunsKeepInv(ws, steps, i);
    var w := ws[i];
    assert FlightOk(w, w.flights[p]);
    forall k | 0 <= k < |w.store.file| && w.store.file[k].id == w.flights[p].entry.id
        ensures !Waiting(w.store.file[k]) {
      assert EntryOk(w.store.file[k], w);
    }
  }

  /** A log in which no entry is attempted twice without the user asking, unless nothing was sent. */
  ghost predicate Separated(log: seq<Event>) {
    forall a, b :: 0 <= a < b < |log| && log[a].Started? && log[b] == log[a] ==>
      exists k :: a < k < b && (log[k] == Asked(log[a].id) || log[k] == NothingSent(log[a].id))
  }

  /** Without an intervening event the attempt count cannot fall. */
  lemma {:induction false} AttemptsOnlyGrow(log: seq<Event>, a: nat, b: nat, id: Id)
    requires a < b <= |log| && log[a] == Started(id)
    requires forall k :: a < k < b ==> log[k] != Asked(id) && log[k] != NothingSent(id)
    ensures Attempts(log[..b], id) > Attempts(log[..a], id)
    decreases b
  {
    assert log[..b] == log[..b - 1] + [log[b - 1]];
    AttemptsAfter(log[..b - 1], log[b - 1], id);
    if a + 1 < b { AttemptsOnlyGrow(log, a, b - 1, id); }
  }

  ghost predicate NeverNegative(log: seq<Event>) {
    forall n, id :: 0 <= n <= |log| ==> Attempts(log[..n], id) >= 0
  }

  lemma SeparatedAppend(log: seq<Event>, e: Event)
    requires Separated(log) && NeverNegative(log)
    requires 0 <= Attempts(log + [e], e.id) <= 1
    ensures Separated(log + [e]) && NeverNegative(log + [e])
  {
    var log' := log + [e];
    forall n, id | 0 <= n <= |log'| ensures Attempts(log'[..n], id) >= 0 {
      assert log[..|log|] == log;
      if n <= |log| { assert log'[..n] == log[..n]; } else { assert log'[..n] == log'; AttemptsAfter(log, e, id); }
    }
    forall a, b | 0 <= a < b < |log'| && log'[a].Started? && log'[b] == log'[a]
      ensures exists k :: a < k < b && (log'[k] == Asked(log'[a].id) || log'[k] == NothingSent(log'[a].id))
    {
      var id := log'[a].id;
      if b < |log| {
        assert log[a] == log'[a] && log[b] == log'[b];
        var k :| a < k < b && (log[k] == Asked(id) || log[k] == NothingSent(id));
        assert log'[k] == log[k];
      } else {
        assert log'[..b] == log && log'[..a] == log[..a];
        AttemptsAfter(log, e, id);
        if forall k :: a < k < b ==> log'[k] != Asked(id) && log'[k] != NothingSent(id) {
          AttemptsOnlyGrow(log', a, b, id);
          assert false;
        }
      }
    }
  }

  lemma LogGrows(w: World, s: Step)
    requires Enabled(w, s)
    ensures var log := Next(w, s).log; log == w.log || (|log| == |w.log| + 1 && log == w.log + [log[|w.log|]])
  {
  }

  lemma SeparatedStep(w: World, s: Step, w': World)
    requires Inv(w) && Enabled(w, s) && w' == Next(w, s) && Separated(w.log) && NeverNegative(w.log)
    ensures Separated(w'.log) && NeverNegative(w'.log)
  {
    LogGrows(w, s);
    StepKeepsInv(w, s);
    if w'.log != w.log {
      assert 0 <= Attempts(w'.log, w'.log[|w.log|].id) <= 1;
      SeparatedAppend(w.log, w'.log[|w.log|]);
    }
  }

  /** The log of every run is separated: two attempts at an entry never follow each other unasked. */
  lemma {:induction false} SeparatedOverRuns(ws: seq<World>, steps: seq<Step>, i: nat)
    requires Run(ws, steps) && i < |ws|
    ensures Separated(ws[i].log) && NeverNegative(ws[i].log)
  {
    if i > 0 {
      SeparatedOverRuns(ws, steps, i - 1);
      RunsKeepInv(ws, steps, i - 1);
      assert ws[i - 1 + 1] == Next(ws[i - 1], steps[i - 1]);
      SeparatedStep(ws[i - 1], steps[i - 1], ws[i]);
    }
  }

  /** What identifies an entry and what it says. */
  predicate SameMessage(a: Entry, b: Entry) {
    a.scope == b.scope && a.target == b.target && a.text == b.text && a.replyTo == b.replyTo &&
        a.createdAt == b.createdAt
  }

  /** Every entry of `ys` is an entry of `xs` with the same message, or has an ID `xs` does not have. */
  ghost predicate Descends(xs: seq<Entry>, ys: seq<Entry>) {
    forall j {:trigger Descendant(xs, ys[j])} :: 0 <= j < |ys| ==> Descendant(xs, ys[j])
  }

  ghost predicate Descendant(xs: seq<Entry>, y: Entry) {
    (exists i :: 0 <= i < |xs| && xs[i].id == y.id && SameMessage(xs[i], y)) ||
        (forall i :: 0 <= i < |xs| ==> xs[i].id != y.id)
  }

  predicate Alike(xs: seq<Entry>, ys: seq<Entry>) {
    |xs| == |ys| && forall i :: 0 <= i < |xs| ==> xs[i].id == ys[i].id && SameMessage(xs[i], ys[i])
  }

  lemma ListsDescend(xs: seq<Entry>, ys: seq<Entry>, k: nat, e: Entry)
    requires Alike(xs, ys)
    ensures Descends(xs, ys)
    ensures k < |ys| ==> Descends(xs, Without(ys, k))
    ensures k < |ys| && e.id == ys[k].id && SameMessage(e, ys[k]) ==> Descends(xs, ys[k := e])
    ensures (forall i :: 0 <= i < |ys| ==> ys[i].id != e.id) ==> Descends(xs, ys + [e])
  {
    forall j | 0 <= j < |ys| ensures Descendant(xs, ys[j]) { assert xs[j].id == ys[j].id; }
    if k < |ys| {
      var zs := Without(ys, k);
      forall j | 0 <= j < |zs| ensures Descendant(xs, zs[j]) { assert zs[j] == ys[if j < k then j else j + 1]; }
      if e.id == ys[k].id && SameMessage(e, ys[k]) {
        var zs' := ys[k := e];
        forall j | 0 <= j < |zs'| ensures Descendant(xs, zs'[j]) { assert xs[j].id == zs'[j].id; }
      }
    }
  }

  lemma FileDescends(w: World, s: Step, w': World)
    requires EntriesOk(w.store.file, w) && Enabled(w, s) && w' == Next(w, s)
    ensures Descends(w.store.file, w'.store.file)
  {
    SelfDescends(w.store.file);
    match s
    case StageBy(e, ok) =>
      forall i | 0 <= i < |w.store.file| ensures w.store.file[i].id != e.id { assert EntryOk(w.store.file[i], w); }
      StageDescends(w.store, e, ok);
    case CancelBy(id, ok) => RemovalDescends(w.store, id, ok);
    case ForgetBy(id, ok) => RemovalDescends(w.store, id, ok);
    case AskBy(id, now, ok) => AskDescends(w.store, id, now, ok);
    case KeepBy(e, ok) => KeepDescends(w.store, e, ok);
    case ResetBy =>
    case BeginBy(_, i) => BeginDescends(w.store, i);
    case EndBy(p, o, loadOk, saveOk) => EndDescends(w.store, w.flights[p], o, loadOk, saveOk);
    case Crash =>
  }

  lemma StageDescends(s: Store, e: Entry, saveOk: bool)
    requires forall i :: 0 <= i < |s.file| ==> s.file[i].id != e.id
    ensures Descends(s.file, Stage(s, e, saveOk).file)
  {
    SelfDescends(s.file);
    forall i | 0 <= i < |s.file| ensures Visible(s)[i].id != e.id { assert Visible(s)[i].id == s.file[i].id; }
    ListsDescend(s.file, Visible(s), 0, e);
  }

  lemma AskDescends(s: Store, id: Id, now: Time, saveOk: bool)
    ensures Descends(s.file, Ask(s, id, now, saveOk).file)
  {
    SelfDescends(s.file);
    var shown := Visible(s);
    var k := Position(shown, id);
    if k < |shown| { ListsDescend(s.file, shown, k, shown[k].(state := Queued, dueAt := now, error := "")); }
  }

  lemma SelfDescends(xs: seq<Entry>)
    ensures Descends(xs, xs)
  {
    forall j | 0 <= j < |xs| ensures Descendant(xs, xs[j]) {}
  }

  lemma RemovalDescends(s: Store, id: Id, saveOk: bool)
    ensures Descends(s.file, Cancel(s, id, saveOk).file) && Descends(s.file, Forget(s, id, saveOk).file)
    ensures Position(Visible(s), id) < |s.file| ==> Descends(s.file, Without(Visible(s), Position(Visible(s), id)))
  {
    SelfDescends(s.file);
    var shown := Visible(s);
    var k := Position(shown, id);
    if k < |shown| { ListsDescend(s.file, shown, k, shown[k]); }
  }

  lemma KeepDescends(s: Store, e: Entry, saveOk: bool)
    ensures Descends(s.file, Keep(s, e, saveOk).file)
  {
    SelfDescends(s.file);
    var shown := Visible(s);
    var k := Position(shown, e.id);
    if k < |shown| {
      ListsDescend(s.file, shown, k, shown[k].(state := Uncertain, error := e.error, attempted := true));
    } else {
      ListsDescend(s.file, shown, 0, e.(state := Uncertain, attempted := true, replyTo := 0));
    }
  }

  lemma BeginDescends(s: Store, i: PumpInput)
    ensures Descends(s.file, PumpBegin(s, i).file)
  {
    SelfDescends(s.file);
    var entries, k := PumpEntries(s, i), PumpPick(s, i);
    assert Alike(s.file, entries);
    if k < |entries| {
      ListsDescend(s.file, entries, k, MarkSending(entries[k], i.ratchet));
    } else if entries != [] {
      ListsDescend(s.file, entries, 0, entries[0]);
    }
  }

  lemma EndDescends(s: Store, f: Flight, o: Outcome, loadOk: bool, saveOk: bool)
    ensures Descends(s.file, PumpEnd(s, f, o, loadOk, saveOk).file)
  {
    SelfDescends(s.file);
    var shown := Visible(s);
    var k := Position(shown, f.entry.id);
    if k < |shown| {
      match o
      case Sent => RemovalDescends(s, f.entry.id, saveOk);
      case NotSent => ListsDescend(s.file, shown, k, shown[k].(state := f.entry.state));
      case Failed(why) => ListsDescend(s.file, shown, k, shown[k].(state := Uncertain, error := why));
    }
  }

  /** While an entry is in the file, no step changes its text, its destination or what it replies to. */
  lemma MessagesNeverChange(w: World, s: Step, w': World, k: nat, j: nat)
    requires Inv(w) && Enabled(w, s) && w' == Next(w, s)
    requires k < |w.store.file| && j < |w'.store.file| && w.store.file[k].id == w'.store.file[j].id
    ensures SameMessage(w.store.file[k], w'.store.file[j])
  {
    FileDescends(w, s, w');
    DescentIsSame(w.store.file, w'.store.file, k, j);
  }

  lemma DescentIsSame(xs: seq<Entry>, ys: seq<Entry>, k: nat, j: nat)
    requires Distinct(xs) && Descends(xs, ys) && k < |xs| && j < |ys| && xs[k].id == ys[j].id
    ensures SameMessage(xs[k], ys[j])
  {
    assert Descendant(xs, ys[j]);
  }

  predicate Has(xs: seq<Entry>, id: Id) { exists k :: 0 <= k < |xs| && xs[k].id == id }

  /** From staging to removal, through any interleaving and any crashes, an entry is one message. */
  lemma {:induction false} MessagesNeverChangeOverRuns(ws: seq<World>, steps: seq<Step>, i: nat, j: nat, a: nat, b: nat)
    requires Run(ws, steps) && i <= j < |ws| && a < |ws[i].store.file| && b < |ws[j].store.file|
    requires ws[i].store.file[a].id == ws[j].store.file[b].id
    requires forall k :: i <= k <= j ==> Has(ws[k].store.file, ws[i].store.file[a].id)
    ensures SameMessage(ws[i].store.file[a], ws[j].store.file[b])
    decreases j
  {
    if i < j {
      var id := ws[i].store.file[a].id;
      assert Has(ws[j - 1].store.file, id);
      var c :| 0 <= c < |ws[j - 1].store.file| && ws[j - 1].store.file[c].id == id;
      MessagesNeverChangeOverRuns(ws, steps, i, j - 1, a, c);
      OneStepSame(ws, steps, j - 1, c, b);
    } else {
      OneEntryPerId(ws, steps, j, a, b);
    }
  }

  lemma OneStepSame(ws: seq<World>, steps: seq<Step>, j: nat, c: nat, b: nat)
    requires Run(ws, steps) && j < |steps| && c < |ws[j].store.file| && b < |ws[j + 1].store.file|
    requires ws[j].store.file[c].id == ws[j + 1].store.file[b].id
    ensures SameMessage(ws[j].store.file[c], ws[j + 1].store.file[b])
  {
    RunsKeepInv(ws, steps, j);
    assert ws[j + 1] == Next(ws[j], steps[j]);
    MessagesNeverChange(ws[j], steps[j], ws[j + 1], c, b);
  }

  lemma OneEntryPerId(ws: seq<World>, steps: seq<Step>, j: nat, a: nat, b: nat)
    requires Run(ws, steps) && j < |ws| && a < |ws[j].store.file| && b < |ws[j].store.file|
    requires ws[j].store.file[a].id == ws[j].store.file[b].id
    ensures a == b
  {
    RunsKeepInv(ws, steps, j);
    assert Distinct(ws[j].store.file);
  }

  // ----- an interrupted entry ------------------------------------------------------------------

  predicate AllUncertain(xs: seq<Entry>, id: Id) {
    forall k :: 0 <= k < |xs| && xs[k].id == id ==> xs[k].state == Uncertain
  }

  /** However often it is looked at, the entry reads "uncertain", and nobody is sending it. */
  ghost predicate Stuck(w: World, id: Id) {
    && AllUncertain(Visible(w.store), id)
    && id !in w.store.sending && id in w.used
    && forall p :: p in w.flights ==> w.flights[p].entry.id != id
  }

  /** A list of uncertain entries reads back so, whoever is being sent. */
  lemma ReadsBackUncertain(s: Store, id: Id)
    requires AllUncertain(s.file, id)
    ensures AllUncertain(Visible(s), id)
  {
  }

  /** Sending other entries does not change how this one reads. */
  lemma SendingOthers(s: Store, s': Store, id: Id)
    requires AllUncertain(Visible(s), id) && s'.file == s.file && id !in s.sending && id !in s'.sending
    ensures AllUncertain(Visible(s'), id)
  {
    forall k | 0 <= k < |s.file| && s.file[k].id == id ensures Visible(s')[k].state == Uncertain {
      assert Visible(s)[k].id == id;
    }
  }

  lemma UncertainLists(xs: seq<Entry>, k: nat, e: Entry, id: Id)
    requires AllUncertain(xs, id)
    ensures e.id != id || e.state == Uncertain ==>
              AllUncertain(xs + [e], id) && (k < |xs| ==> AllUncertain(xs[k := e], id))
    ensures k < |xs| ==> AllUncertain(Without(xs, k), id)
  {
  }

  lemma UserLeavesStuck(s: Store, step: Step, id: Id)
    requires AllUncertain(Visible(s), id) && id !in s.sending
    ensures step.StageBy? && step.e.id != id ==> AllUncertain(Visible(Stage(s, step.e, step.saveOk)), id)
    ensures step.AskBy? && step.id != id ==> AllUncertain(Visible(Ask(s, step.id, step.now, step.saveOk)), id)
    ensures step.CancelBy? ==> AllUncertain(Visible(Cancel(s, step.id, step.saveOk)), id)
    ensures step.ForgetBy? ==> AllUncertain(Visible(Forget(s, step.id, step.saveOk)), id)
  {
    var xs := Visible(s);
    if step.StageBy? && step.e.id != id {
      UncertainLists(xs, 0, step.e, id);
      ReadsBackUncertain(s.(file := xs + [step.e]), id);
    } else if step.AskBy? && step.id != id {
      var k := Position(xs, step.id);
      if k < |xs| {
        var e := xs[k].(state := Queued, dueAt := step.now, error := "");
        UncertainLists(xs, k, e, id);
        ReadsBackUncertain(s.(file := xs[k := e]), id);
      }
    } else if step.CancelBy? || step.ForgetBy? {
      var k := Position(xs, step.id);
      if k < |xs| {
        UncertainLists(xs, k, xs[k], id);
        ReadsBackUncertain(s.(file := Without(xs, k)), id);
      }
    }
  }

  lemma KeepLeavesStuck(s: Store, e: Entry, saveOk: bool, id: Id)
    requires AllUncertain(Visible(s), id) && id !in s.sending
    ensures AllUncertain(Visible(Keep(s, e, saveOk)), id)
  {
    var xs := Visible(s);
    var k := Position(xs, e.id);
    if k < |xs| {
      var f := xs[k].(state := Uncertain, error := e.error, attempted := true);
      UncertainLists(xs, k, f, id);
      ReadsBackUncertain(s.(file := xs[k := f]), id);
    } else {
      var f := e.(state := Uncertain, attempted := true, replyTo := 0);
      UncertainLists(xs, 0, f, id);
      ReadsBackUncertain(s.(file := xs + [f]), id);
    }
  }

  /** A pump picks only waiting entries, so it leaves this one. */
  lemma BeginLeavesStuck(s: Store, i: PumpInput, id: Id)
    requires AllUncertain(Visible(s), id) && id !in s.sending
    ensures AllUncertain(Visible(PumpBegin(s, i)), id) && id !in PumpBegin(s, i).sending
    ensures PumpStarts(s, i) ==> PumpEntries(s, i)[PumpPick(s, i)].id != id
  {
    var xs, k := PumpEntries(s, i), PumpPick(s, i);
    forall j | 0 <= j < |xs| && xs[j].id == id ensures xs[j].state == Uncertain { assert Visible(s)[j].id == id; }
    ReadsBackUncertain(s.(file := xs), id);
    if k < |xs| {
      var e := MarkSending(xs[k], i.ratchet);
      UncertainLists(xs, k, e, id);
      ReadsBackUncertain(Store(xs[k := e], s.sending + {xs[k].id}), id);
    }
  }

  lemma EndLeavesStuck(s: Store, f: Flight, o: Outcome, loadOk: bool, saveOk: bool, id: Id)
    requires AllUncertain(Visible(s), id) && id !in s.sending && f.entry.id != id
    ensures AllUncertain(Visible(PumpEnd(s, f, o, loadOk, saveOk)), id)
  {
    var xs, off := Visible(s), s.sending - {f.entry.id};
    var k := Position(xs, f.entry.id);
    SendingOthers(s, s.(sending := off), id);
    if k < |xs| {
      var e := match o case Sent => xs[k] case NotSent => xs[k].(state := f.entry.state)
                       case Failed(why) => xs[k].(state := Uncertain, error := why);
      UncertainLists(xs, k, e, id);
      ReadsBackUncertain(Store(xs[k := e], off), id);
      ReadsBackUncertain(Store(Without(xs, k), off), id);
    }
  }

  lemma StepKeepsStuck(w: World, s: Step, id: Id)
    requires Enabled(w, s) && Stuck(w, id) && !(s.AskBy? && s.id == id)
    ensures Stuck(Next(w, s), id)
  {
    match s
    case StageBy(_, _) => UserLeavesStuck(w.store, s, id);
    case AskBy(_, _, _) => UserLeavesStuck(w.store, s, id);
    case CancelBy(_, _) => UserLeavesStuck(w.store, s, id);
    case ForgetBy(_, _) => UserLeavesStuck(w.store, s, id);
    case KeepBy(e, ok) => KeepLeavesStuck(w.store, e, ok, id);
    case BeginBy(_, i) => BeginLeavesStuck(w.store, i, id);
    case EndBy(p, o, loadOk, saveOk) => EndLeavesStuck(w.store, w.flights[p], o, loadOk, saveOk, id);
    case ResetBy =>
    case Crash => SendingOthers(w.store, w.store.(sending := {}), id);
  }

  /** A crash leaves every entry that was being sent stuck. */
  lemma CrashSticks(w: World, id: Id)
    requires Inv(w)
    requires forall k :: 0 <= k < |w.store.file| && w.store.file[k].id == id ==> w.store.file[k].state == Sending
    requires id in w.used
    ensures Stuck(Next(w, Crash), id)
  {
  }

  /**
   * An entry that was being sent when the program crashed reads "uncertain" in every later state of every
   * run, through any pumps, further crashes and other user actions, until the user asks for it.
   */
  lemma {:induction false} InterruptedReadsUncertain(ws: seq<World>, steps: seq<Step>, i: nat, j: nat, k: nat)
    requires Run(ws, steps) && i < j < |ws| && steps[i] == Crash
    requires k < |ws[i].store.file| && ws[i].store.file[k].state == Sending
    requires forall n :: i < n < j ==> !(steps[n].AskBy? && steps[n].id == ws[i].store.file[k].id)
    ensures Stuck(ws[j], ws[i].store.file[k].id)
    decreases j
  {
    var id := ws[i].store.file[k].id;
    assert ws[j - 1 + 1] == Next(ws[j - 1], steps[j - 1]);
    if j == i + 1 {
      RunsKeepInv(ws, steps, i);
      forall m | 0 <= m < |ws[i].store.file| && ws[i].store.file[m].id == id ensures m == k {
        OneEntryPerId(ws, steps, i, m, k);
      }
      assert EntryOk(ws[i].store.file[k], ws[i]);
      CrashSticks(ws[i], id);
    } else {
      InterruptedReadsUncertain(ws, steps, i, j - 1, k);
      StepKeepsStuck(ws[j - 1], steps[j - 1], id);
    }
  }

  /**
   * An entry the composer marked uncertain while a pump was sending it goes back to the queue, with no
   * retry by the user, exactly when that pump reports that it sent nothing and its save succeeds.
   */
  lemma KeptInFlightRequeuedIff(w: World, p: nat, k: nat, o: Outcome, loadOk: bool, saveOk: bool)
    requires Inv(w) && p in w.flights && k < |w.store.file|
    requires w.store.file[k].id == w.flights[p].entry.id && w.store.file[k].state == Uncertain
    ensures (exists j :: 0 <= j < |Next(w, EndBy(p, o, loadOk, saveOk)).store.file|
                         && Next(w, EndBy(p, o, loadOk, saveOk)).store.file[j].id == w.store.file[k].id
                         && Waiting(Next(w, EndBy(p, o, loadOk, saveOk)).store.file[j]))
            <==> o.NotSent? && loadOk && saveOk
  {
    var f, entries := w.flights[p], Visible(w.store);
    var i := Position(entries, f.entry.id);
    assert FlightOk(w, f) && entries[k].id == w.store.file[k].id;
    assert i == k;
    var file' := Next(w, EndBy(p, o, loadOk, saveOk)).store.file;
    if o.NotSent? && loadOk && saveOk {
      assert file'[k].id == w.store.file[k].id && Waiting(file'[k]);
    } else {
      forall j | 0 <= j < |file'| && file'[j].id == w.store.file[k].id ensures !Waiting(file'[j]) {
        if j < |w.store.file| { assert w.store.file[j].id == entries[j].id; }
      }
    }
  }

  /** One entry: staged, being sent, marked uncertain by the composer, and queued again by its own pump. */
  function Requeued(i: nat): World {
    var e := Entry("a", Channel, "c", "hi", 0, 0, 0, Queued, "", false);
    var sent, kept := e.(state := Sending), e.(state := Uncertain, attempted := true);
    var flight := map[0 := Flight(e)];
    if i == 0 then World(Store([], {}), map[], [], {})
    else if i == 1 then World(Store([e], {}), map[], [], {"a"})
    else if i == 2 then World(Store([sent], {"a"}), flight, [Started("a")], {"a"})
    else if i == 3 then World(Store([kept], {"a"}), flight, [Started("a")], {"a"})
    else World(Store([kept.(state := Queued)], {}), map[], [Started("a"), NothingSent("a")], {"a"})
  }

  function RequeuedBy(i: nat): Step {
    var e := Entry("a", Channel, "c", "hi", 0, 0, 0, Queued, "", false);
    if i == 0 then StageBy(e, true)
    else if i == 1 then BeginBy(0, PumpInput(1, false, "", false, true, true))
    else if i == 2 then KeepBy(e, true)
    else EndBy(0, NotSent, true, true)
  }

  lemma RequeuedStep(i: nat)
    requires i < 4
    ensures Enabled(Requeued(i), RequeuedBy(i)) && Next(Requeued(i), RequeuedBy(i)) == Requeued(i + 1)
  {
    var s := Requeued(i).store;
    if i > 0 { assert Visible(s) == [Recovered(s.file[0], s.sending)]; } else { assert Visible(s) == []; }
  }

  /** From the start: an entry that was marked uncertain is waiting again, and nobody asked for it. */
  lemma KeptInFlightRequeuedFromTheStart() returns (ws: seq<World>, steps: seq<Step>)
    ensures Run(ws, steps) && |ws| == 5 && forall i :: 0 <= i < 4 ==> !steps[i].AskBy?
    ensures |ws[3].store.file| == 1 && |ws[4].store.file| == 1 && ws[3].store.file[0].state == Uncertain
    ensures ws[4].store.file[0].id == ws[3].store.file[0].id && Waiting(ws[4].store.file[0])
  {
    ws := [Requeued(0), Requeued(1), Requeued(2), Requeued(3), Requeued(4)];
    steps := [RequeuedBy(0), RequeuedBy(1), RequeuedBy(2), RequeuedBy(3)];
    forall i | 0 <= i < 4 ensures Enabled(ws[i], steps[i]) && ws[i + 1] == Next(ws[i], steps[i]) {
      RequeuedStep(i);
      assert ws[i] == Requeued(i) && ws[i + 1] == Requeued(i + 1) && steps[i] == RequeuedBy(i);
    }
  }

  // ----- nothing is lost -----------------------------------------------------------------------

  lemma ListsHave(xs: seq<Entry>, k: nat, e: Entry, id: Id)
    requires Has(xs, id)
    ensures Has(xs + [e], id)
    ensures k < |xs| && e.id == xs[k].id ==> Has(xs[k := e], id)
    ensures k < |xs| && xs[k].id != id ==> Has(Without(xs, k), id)
  {
    var i :| 0 <= i < |xs| && xs[i].id == id;
    assert (xs + [e])[i].id == id;
    if k < |xs| {
      assert e.id == xs[k].id ==> xs[k := e][i].id == id;
      if xs[k].id != id { assert Without(xs, k)[if i < k then i else i - 1].id == id; }
    }
  }

  lemma ShownHave(s: Store, i: PumpInput, id: Id)
    requires Has(s.file, id)
    ensures Has(Visible(s), id) && Has(PumpEntries(s, i), id)
  {
    var k :| 0 <= k < |s.file| && s.file[k].id == id;
    assert Visible(s)[k].id == id && PumpEntries(s, i)[k].id == id;
  }

  lemma BeginHas(s: Store, i: PumpInput, id: Id)
    requires Has(s.file, id)
    ensures Has(PumpBegin(s, i).file, id)
  {
    ShownHave(s, i, id);
    var entries, k := PumpEntries(s, i), PumpPick(s, i);
    if k < |entries| { ListsHave(entries, k, MarkSending(entries[k], i.ratchet), id); }
  }

  lemma EndHas(s: Store, f: Flight, o: Outcome, loadOk: bool, saveOk: bool, id: Id)
    requires Has(s.file, id) && !(f.entry.id == id && o.Sent? && loadOk && saveOk)
    ensures Has(PumpEnd(s, f, o, loadOk, saveOk).file, id)
  {
    ShownHave(s, PumpInput(0, false, "", false, false, false), id);
    var entries := Visible(s);
    var k := Position(entries, f.entry.id);
    if k < |entries| {
      match o
      case Sent => ListsHave(entries, k, entries[k], id);
      case NotSent => ListsHave(entries, k, entries[k].(state := f.entry.state), id);
      case Failed(why) => ListsHave(entries, k, entries[k].(state := Uncertain, error := why), id);
    }
  }

  lemma UserHas(s: Store, step: Step, id: Id)
    requires Has(s.file, id)
    ensures step.StageBy? ==> Has(Stage(s, step.e, step.saveOk).file, id)
    ensures step.KeepBy? ==> Has(Keep(s, step.e, step.saveOk).file, id)
    ensures step.AskBy? ==> Has(Ask(s, step.id, step.now, step.saveOk).file, id)
  {
    ShownHave(s, PumpInput(0, false, "", false, false, false), id);
    var entries := Visible(s);
    if step.StageBy? { ListsHave(entries, 0, step.e, id); }
    if step.AskBy? {
      var k := Position(entries, step.id);
      if k < |entries| { ListsHave(entries, k, entries[k].(state := Queued, dueAt := step.now, error := ""), id); }
    }
    if step.KeepBy? { KeepHas(s, step.e, step.saveOk, id); }
  }

  lemma KeepHas(s: Store, e: Entry, saveOk: bool, id: Id)
    requires Has(Visible(s), id) && Has(s.file, id)
    ensures Has(Keep(s, e, saveOk).file, id)
  {
    var entries := Visible(s);
    var k := Position(entries, e.id);
    if k < |entries| {
      ListsHave(entries, k, entries[k].(state := Uncertain, error := e.error, attempted := true), id);
    } else {
      ListsHave(entries, 0, e.(state := Uncertain, attempted := true, replyTo := 0), id);
    }
  }

  lemma RemovalHas(s: Store, gone: Id, saveOk: bool, id: Id)
    requires Has(s.file, id) && !(gone == id && saveOk && id !in s.sending)
    ensures Has(Cancel(s, gone, saveOk).file, id) && Has(Forget(s, gone, saveOk).file, id)
  {
    ShownHave(s, PumpInput(0, false, "", false, false, false), id);
    var entries := Visible(s);
    var k := Position(entries, gone);
    if k < |entries| { ListsHave(entries, k, entries[k], id); }
  }

  /** When an entry may leave the file: removed by the user while not being sent, or reported sent. */
  predicate Leaves(w: World, s: Step, id: Id) {
    match s
    case CancelBy(gone, ok) => gone == id && ok && id !in w.store.sending
    case ForgetBy(gone, ok) => gone == id && ok && id !in w.store.sending
    case ResetBy => w.store.sending == {}
    case EndBy(p, o, loadOk, saveOk) =>
      p in w.flights && w.flights[p].entry.id == id && o.Sent? && loadOk && saveOk
    case _ => false
  }

  lemma EntriesStayUntilSentOrRemoved(w: World, s: Step, id: Id)
    requires Enabled(w, s) && Has(w.store.file, id) && !Leaves(w, s, id)
    ensures Has(Next(w, s).store.file, id)
  {
    match s
    case StageBy(_, _) => UserHas(w.store, s, id);
    case KeepBy(_, _) => UserHas(w.store, s, id);
    case AskBy(_, _, _) => UserHas(w.store, s, id);
    case CancelBy(gone, ok) => RemovalHas(w.store, gone, ok, id);
    case ForgetBy(gone, ok) => RemovalHas(w.store, gone, ok, id);
    case BeginBy(_, i) => BeginHas(w.store, i, id);
    case EndBy(p, o, loadOk, saveOk) => EndHas(w.store, w.flights[p], o, loadOk, saveOk, id);
    case ResetBy =>
    case Crash =>
  }

  /**
   * No message is lost: in every run, through any pumps, failed saves and crashes, an entry stays in the
   * file until it is reported sent or the user removes it.
   */
  lemma {:induction false} NoMessageIsLost(ws: seq<World>, steps: seq<Step>, i: nat, j: nat, id: Id)
    requires Run(ws, steps) && i <= j < |ws| && Has(ws[i].store.file, id)
    requires forall k {:trigger steps[k]} :: i <= k < j ==> !Leaves(ws[k], steps[k], id)
    ensures Has(ws[j].store.file, id)
    decreases j
  {
    if i < j {
      NoMessageIsLost(ws, steps, i, j - 1, id);
      StaysForOneStep(ws, steps, j - 1, id);
    }
  }

  lemma StaysForOneStep(ws: seq<World>, steps: seq<Step>, k: nat, id: Id)
    requires Run(ws, steps) && k < |steps| && Has(ws[k].store.file, id) && !Leaves(ws[k], steps[k], id)
    ensures Has(ws[k + 1].store.file, id)
  {
    assert ws[k + 1] == Next(ws[k], steps[k]);
    EntriesStayUntilSentOrRemoved(ws[k], steps[k], id);
  }
}
