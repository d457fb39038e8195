/**
 * The sealed outbox of one server and identity (client/chat_outbox.go): its file, the in-memory set of
 * entries being sent, and the critical sections under `outboxMu`.
 */
module Outbox {
  import opened Common

  type Id = string
  type Time = int

  datatype Scope = Global | Channel | Direct
  datatype State = Held | Queued | Sending | Uncertain

  datatype Entry = Entry(
    id: Id, scope: Scope, target: string, text: string, replyTo: int, createdAt: Time,
    dueAt: Time, state: State, error: string, attempted: bool)

  /** `file` is what is on disk (a missing file is empty); `sending` lives only in memory. */
  datatype Store = Store(file: seq<Entry>, sending: set<Id>)

  const STAGE_LIMIT := 100
  const UNCERTAIN_CAP := 200
  const INTERRUPTED := "Delivery was interrupted. Check history before retrying."

  // ----- loading -------------------------------------------------------------------------------

  /** An entry whose sending was interrupted comes back as uncertain. */
  function Recovered(e: Entry, sending: set<Id>): Entry {
    if e.state == Sending && e.id !in sending then e.(state := Uncertain, error := INTERRUPTED) else e
  }

  function Visible(s: Store): seq<Entry> {
    seq(|s.file|, i requires 0 <= i < |s.file| => Recovered(s.file[i], s.sending))
  }

  function Position(entries: seq<Entry>, id: Id): (k: nat)
    ensures k <= |entries|
    ensures k < |entries| ==> entries[k].id == id
    ensures forall i :: 0 <= i < k ==> entries[i].id != id
  {
    if entries == [] then 0 else if entries[0].id == id then 0 else 1 + Position(entries[1..], id)
  }

  // ----- critical sections ---------------------------------------------------------------------

  function Saved(s: Store, entries: seq<Entry>, saveOk: bool): Store {
    if saveOk then s.(file := entries) else s
  }

  function Stage(s: Store, e: Entry, saveOk: bool): Store {
    if |s.file| >= STAGE_LIMIT then s else Saved(s, Visible(s) + [e], saveOk)
  }

  function Without(entries: seq<Entry>, k: nat): seq<Entry>
    requires k < |entries|
  {
    entries[..k] + entries[k + 1..]
  }

  function Cancel(s: Store, id: Id, saveOk: bool): Store {
    var k := Position(Visible(s), id);
    if k == |s.file| || id in s.sending then s else Saved(s, Without(Visible(s), k), saveOk)
  }

  /** The user's explicit "retry" or "send". */
  function Ask(s: Store, id: Id, now: Time, saveOk: bool): Store {
    var k := Position(Visible(s), id);
    if k == |s.file| || id in s.sending then s
    else Saved(s, Visible(s)[k := Visible(s)[k].(state := Queued, dueAt := now, error := "")], saveOk)
  }

  /** keepOutboxOperation: an uncertain send of the composer becomes an uncertain entry. */
  function Keep(s: Store, e: Entry, saveOk: bool): Store {
    var k := Position(Visible(s), e.id);
    if k < |s.file|
    then Saved(s, Visible(s)[k := Visible(s)[k].(state := Uncertain, error := e.error, attempted := true)], saveOk)
    else if |s.file| >= UNCERTAIN_CAP then s
    else Saved(s, Visible(s) + [e.(state := Uncertain, attempted := true, replyTo := 0)], saveOk)
  }

  function Forget(s: Store, id: Id, saveOk: bool): Store {
    var k := Position(Visible(s), id);
    if id in s.sending || k == |s.file| then s else Saved(s, Without(Visible(s), k), saveOk)
  }

  function Reset(s: Store): Store {
    if s.sending == {} then s.(file := []) else s
  }

  // ----- the pump ------------------------------------------------------------------------------

  predicate Ready(e: Entry, waiting: bool, now: Time) {
    !(waiting && e.scope == Direct) && (e.state == Held || e.state == Queued) && e.dueAt <= now
  }

  /** The entry the pump picks: the first ready one, unless one being sent comes before it. */
  function Candidate(entries: seq<Entry>, sending: set<Id>, waiting: bool, now: Time): (k: nat)
    ensures k <= |entries|
    ensures k < |entries| ==> Ready(entries[k], waiting, now) && entries[k].id !in sending
    ensures k < |entries| ==> forall i :: 0 <= i < k ==> entries[i].id !in sending && !Ready(entries[i], waiting, now)
  {
    if entries == [] || entries[0].id in sending then |entries|
    else if Ready(entries[0], waiting, now) then 0
    else 1 + Candidate(entries[1..], sending, waiting, now)
  }

  /** Waiting direct entries show why they wait. */
  function Annotated(e: Entry, reason: string): Entry {
    if e.scope == Direct && (e.state == Held || e.state == Queued) then e.(error := reason) else e
  }

  function AnnotatedAll(entries: seq<Entry>, reason: string): seq<Entry> {
    seq(|entries|, i requires 0 <= i < |entries| => Annotated(entries[i], reason))
  }

  /** What the pump is told: the time, whether direct entries wait and why, and which saves succeed. */
  datatype PumpInput = PumpInput(now: Time, waiting: bool, reason: string, ratchet: bool, save1: bool, save2: bool)

  function PumpEntries(s: Store, i: PumpInput): seq<Entry> {
    if i.waiting && i.reason != "" then AnnotatedAll(Visible(s), i.reason) else Visible(s)
  }

  /** The store once waiting entries have been annotated; an unchanged list is not written. */
  function PumpNoted(s: Store, i: PumpInput): Store {
    if PumpEntries(s, i) != Visible(s) then Saved(s, PumpEntries(s, i), i.save1) else s
  }

  function PumpPick(s: Store, i: PumpInput): nat {
    Candidate(PumpEntries(s, i), s.sending, i.waiting, i.now)
  }

  predicate PumpStarts(s: Store, i: PumpInput) {
    PumpPick(s, i) < |s.file| && i.save2
  }

  function MarkSending(e: Entry, ratchet: bool): Entry {
    e.(state := Sending, error := "", attempted := e.attempted || (e.scope == Direct && ratchet))
  }

  function PumpBegin(s: Store, i: PumpInput): Store {
    if !PumpStarts(s, i) then PumpNoted(s, i)
    else
      var entries, k := PumpEntries(s, i), PumpPick(s, i);
      Store(entries[k := MarkSending(entries[k], i.ratchet)], s.sending + {entries[k].id})
  }

  /** How an attempt to send ended. `NotSent` means nothing was committed or sent. */
  datatype Outcome = Sent | NotSent | Failed(why: string)

  /** An entry under way: the entry as picked. */
  datatype Flight = Flight(entry: Entry)

  function PumpEnd(s: Store, f: Flight, o: Outcome, loadOk: bool, saveOk: bool): Store {
    var entries, k := Visible(s), Position(Visible(s), f.entry.id);
    var s' := if !loadOk || k == |entries| then s
              else Saved(s, match o
                            case Sent => Without(entries, k)
                            case NotSent => entries[k := entries[k].(state := f.entry.state)]
                            case Failed(why) => entries[k := entries[k].(state := Uncertain, error := why)],
                         saveOk);
    s'.(sending := s'.sending - {f.entry.id})
  }

  /** The outbox in place. A failed save leaves the file alone. */
  class ChatOutbox {
    var file: seq<Entry>
    var sending: set<Id>

    ghost function View(): Store reads this { Store(file, sending) }

    method Load() returns (entries: seq<Entry>)
      ensures entries == Visible(View())
    {
      entries := [];
      for i := 0 to |file|
        invariant |entries| == i
        invariant forall j :: 0 <= j < i ==> entries[j] == Recovered(file[j], sending)
      {
        var e := file[i];
        if e.state == Sending && e.id !in sending {
          e := e.(state := Uncertain, error := INTERRUPTED);
        }
        entries := entries + [e];
      }
    }

    method Find(entries: seq<Entry>, id: Id) returns (k: nat)
      ensures k == Position(entries, id)
    {
      k := 0;
      while k < |entries| && entries[k].id != id
        invariant k <= |entries| && Position(entries, id) == k + Position(entries[k..], id)
      {
        k := k + 1;
      }
    }

    method StageEntry(e: Entry, saveOk: bool)
      modifies this
      ensures View() == Stage(old(View()), e, saveOk)
    {
      var entries := Load();
      if |entries| >= STAGE_LIMIT { return; }
      if saveOk { file := entries + [e]; }
    }

    method CancelEntry(id: Id, saveOk: bool)
      modifies this
      ensures View() == Cancel(old(View()), id, saveOk)
    {
      var entries := Load();
      var k := Find(entries, id);
      if k == |entries| || id in sending { return; }
      if saveOk { file := entries[..k] + entries[k + 1..]; }
    }

    method AskEntry(id: Id, now: Time, saveOk: bool)
      modifies this
      ensures View() == Ask(old(View()), id, now, saveOk)
    {
      var entries := Load();
      var k := Find(entries, id);
      if k == |entries| || id in sending { return; }
      entries := entries[k := entries[k].(state := Queued, dueAt := now, error := "")];
      if saveOk { file := entries; }
    }

    method KeepOperation(e: Entry, saveOk: bool)
      modifies this
      ensures View() == Keep(old(View()), e, saveOk)
    {
      var entries := Load();
      var k := Find(entries, e.id);
      if k < |entries| {
        entries := entries[k := entries[k].(state := Uncertain, error := e.error, attempted := true)];
      } else if |entries| >= UNCERTAIN_CAP {
        return;
      } else {
        entries := entries + [e.(state := Uncertain, attempted := true, replyTo := 0)];
      }
      if saveOk { file := entries; }
    }

    method ForgetOperation(id: Id, saveOk: bool)
      modifies this
      ensures View() == Forget(old(View()), id, saveOk)
    {
      if id in sending { return; }
      var entries := Load();
      var k := Find(entries, id);
      if k < |entries| && saveOk { file := entries[..k] + entries[k + 1..]; }
    }

    method ResetFile()
      modifies this
      ensures View() == Reset(old(View()))
    {
      if sending == {} { file := []; }
    }

    /** The entries as the pump sees them, with the reason noted on waiting ones. */
    method Note(entries: seq<Entry>, reason: string) returns (noted: seq<Entry>, changed: bool)
      ensures noted == AnnotatedAll(entries, reason)
      ensures changed <==> noted != entries
    {
      noted, changed := entries, false;
      for i := 0 to |entries|
        invariant |noted| == |entries|
        invariant forall j :: 0 <= j < i ==> noted[j] == Annotated(entries[j], reason)
        invariant forall j :: i <= j < |entries| ==> noted[j] == entries[j]
        invariant changed <==> noted != entries
      {
        var e := entries[i];
        if e.scope == Direct && (e.state == Held || e.state == Queued) && e.error != reason {
          noted := noted[i := e.(error := reason)];
          assert noted[i] != entries[i];
          changed := true;
        }
      }
    }

    method Pick(entries: seq<Entry>, waiting: bool, now: Time) returns (k: nat)
      ensures k == Candidate(entries, sending, waiting, now)
    {
      k := 0;
      while k < |entries|
        invariant k <= |entries|
        invariant Candidate(entries, sending, waiting, now) == k + Candidate(entries[k..], sending, waiting, now)
      {
        if entries[k].id in sending { return |entries|; }
        if Ready(entries[k], waiting, now) { return; }
        k := k + 1;
      }
    }

    /** The pump up to the moment it starts sending, which it does only after the durable mark. */
    method BeginPump(i: PumpInput) returns (flight: Option<Flight>)
      modifies this
      ensures View() == PumpBegin(old(View()), i)
      ensures flight == if PumpStarts(old(View()), i)
                        then Some(Flight(PumpEntries(old(View()), i)[PumpPick(old(View()), i)])) else None
    {
      var entries := Load();
      ghost var visible := entries;
      if i.waiting && i.reason != "" {
        var changed;
        entries, changed := Note(entries, i.reason);
        if changed && i.save1 { file := entries; }
      }
      assert entries == PumpEntries(old(View()), i);
      var k := Pick(entries, i.waiting, i.now);
      if k == |entries| || !i.save2 { return None; }
      flight := Some(Flight(entries[k]));
      file := entries[k := MarkSending(entries[k], i.ratchet)];
      sending := sending + {entries[k].id};
    }

    method EndPump(f: Flight, o: Outcome, loadOk: bool, saveOk: bool)
      modifies this
      ensures View() == PumpEnd(old(View()), f, o, loadOk, saveOk)
    {
      if loadOk {
        var entries := Load();
        var k := Find(entries, f.entry.id);
        if k < |entries| {
          match o {
            case Sent => entries := entries[..k] + entries[k + 1..];
            case NotSent => entries := entries[k := entries[k].(state := f.entry.state)];
            case Failed(why) => entries := entries[k := entries[k].(state := Uncertain, error := why)];
          }
          if saveOk { file := entries; }
        }
      }
      sending := sending - {f.entry.id};
    }
  }
}
