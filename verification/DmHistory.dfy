/**
 * Appending to and changing a conversation's log, and why the order in which messages and
 * changes arrive does not show in the log.
 */
module DmHistory {
  import opened DmChanges

  type Log = seq<Entry>

  /** Logs by conversation, and the changes waiting for their message. */
  datatype State = State(logs: map<string, Log>, waiting: Table)

  function LogOf(s: State, peer: string): Log { if peer in s.logs then s.logs[peer] else [] }

  function Trim(l: Log): Log { if |l| > HISTORY_MAX then l[|l| - HISTORY_MAX..] else l }

  predicate SameMessage(a: Entry, b: Entry) { a.id == b.id && a.self == b.self && a.protocol == b.protocol }

  predicate Duplicate(l: Log, e: Entry) { e.id != "" && exists i :: 0 <= i < |l| && SameMessage(l[i], e) }

  /** The record as stored: numbered, dated and with an unambiguous encryption marker. */
  function Prepared(l: Log, e: Entry, now: int): Entry {
    var next := if l == [] then 1 else l[|l| - 1].seqNo + 1;
    Normalize(e.(seqNo := if e.seqNo == 0 then next else e.seqNo, sentAt := if e.sentAt == 0 then now else e.sentAt))
  }

  /** The waiting changes an arriving message meets. */
  function Met(s: State, peer: string, id: string, now: int): seq<Change> {
    if id == "" then [] else Changes(Alive(At(s.waiting, (peer, id)), now))
  }

  function Taken(s: State, peer: string, id: string): Table {
    if id == "" then s.waiting else s.waiting - {(peer, id)}
  }

  function Append(s: State, peer: string, e: Entry, now: int): State {
    var l := LogOf(s, peer);
    var p := Prepared(l, e, now);
    if peer == "" || Duplicate(l, p) then s
    else State(s.logs[peer := Trim(l + [Fold(p, Met(s, peer, p.id, now))])], Taken(s, peer, p.id))
  }

  /** An append whose log could not be written: the waiting changes are gone all the same. */
  function FailedAppend(s: State, peer: string, e: Entry, now: int): State {
    var l := LogOf(s, peer);
    if peer == "" || Duplicate(l, Prepared(l, e, now)) then s else s.(waiting := Taken(s, peer, Prepared(l, e, now).id))
  }

  predicate Concerns(e: Entry, c: Change) { e.id == c.ref && e.protocol == "" }

  /** The first record the change may touch, or the log's length. */
  function Target(l: Log, c: Change): (i: nat)
    ensures i <= |l|
    ensures i < |l| ==> Concerns(l[i], c) && l[i].from == c.from
    ensures forall j :: 0 <= j < i ==> !(Concerns(l[j], c) && l[j].from == c.from)
  {
    if l == [] then 0
    else
      var i := Target(l[..|l| - 1], c);
      if i < |l| - 1 || (Concerns(l[|l| - 1], c) && l[|l| - 1].from == c.from) then i else |l|
  }

  predicate Known(l: Log, c: Change) { exists i :: 0 <= i < |l| && Concerns(l[i], c) }

  predicate WellFormed(peer: string, c: Change) { peer != "" && c.ref != "" && c.from != "" }

  ghost function Amend(s: State, peer: string, c: Change, now: int): State {
    var l := LogOf(s, peer);
    var i := Target(l, c);
    if !WellFormed(peer, c) then s
    else if i < |l| then s.(logs := s.logs[peer := Trim(l[i := Apply(l[i], c)])])
    else if Known(l, c) then s
    else s.(waiting := Added(s.waiting, (peer, c.ref), c, now))
  }

  predicate HasId(l: Log, id: string) { exists i :: 0 <= i < |l| && l[i].id == id }

  /** The change finds no legacy record of its message, and so has to wait for it. */
  predicate Waits(s: State, peer: string, c: Change) { WellFormed(peer, c) && !Known(LogOf(s, peer), c) }

  /** A change that has to wait, with room in the table, does so. */
  lemma AmendsLater(s: State, peer: string, c: Change, now: int)
    requires Waits(s, peer, c) && Size(s.waiting) < MAX_PENDING
    ensures Amend(s, peer, c, now)
            == s.(waiting := s.waiting[(peer, c.ref) := At(s.waiting, (peer, c.ref)) + [Waiting(c, now + PENDING_TTL)]])
  {
    AddedWithRoom(s.waiting, (peer, c.ref), c, now);
  }

  class DirectHistory {
    var logs: map<string, Log>
    const pending: PendingChanges

    ghost predicate Valid()
      reads this, pending
    {
      pending.Valid()
    }

    ghost function View(): State
      reads this, pending
    {
      State(logs, pending.entries)
    }

    constructor ()
      ensures Valid() && fresh(pending) && View() == State(map[], map[])
    {
      logs := map[];
      pending := new PendingChanges();
    }

    method HasDuplicate(l: Log, e: Entry) returns (found: bool)
      ensures found <==> Duplicate(l, e)
    {
      if e.id == "" { return false; }
      for i := 0 to |l|
        invariant forall j :: 0 <= j < i ==> !SameMessage(l[j], e)
      {
        if l[i].id == e.id && l[i].self == e.self && l[i].protocol == e.protocol {
          assert SameMessage(l[i], e);
          return true;
        }
      }
      found := false;
    }

    method ApplyWaiting(p: Entry, changes: seq<Change>) returns (last: Entry)
      ensures last == Fold(p, changes)
    {
      last := p;
      for i := 0 to |changes|
        invariant last == Fold(p, changes[..i])
      {
        FoldEvolves(p, changes[..i]);
        assert changes[..i + 1][..i] == changes[..i];
        if changes[i].from == last.from { last := Apply(last, changes[i]); }
      }
      assert changes[..|changes|] == changes;
    }

    /** `loads` and `saves` are the outcomes of reading and of rewriting the log file. */
    method AppendEntry(peer: string, e: Entry, now: int, loads: bool, saves: bool) returns (ok: bool)
      requires Valid()
      modifies this, pending
      ensures Valid()
      ensures peer == "" || !loads ==> !ok && View() == old(View())
      ensures peer != "" && loads && saves ==> ok && View() == Append(old(View()), peer, e, now)
      ensures peer != "" && loads && !saves ==>
                && View() == FailedAppend(old(View()), peer, e, now)
                && (ok <==> Duplicate(LogOf(old(View()), peer), Prepared(LogOf(old(View()), peer), e, now)))
    {
      if peer == "" || !loads { return false; }
      var l := if peer in logs then logs[peer] else [];
      var p := Prepared(l, e, now);
      ghost var s := View();
      assert l == LogOf(s, peer);
      var again := HasDuplicate(l, p);
      if again { return true; }
      var changes := pending.Take(peer, p.id, now);
      assert changes == Met(s, peer, p.id, now) && View() == s.(waiting := Taken(s, peer, p.id));
      var last := ApplyWaiting(p, changes);
      if !saves { return false; }
      logs := logs[peer := Trim(l + [last])];
      ok := true;
    }

    /** Reports whether the log was to change, and whether an error was returned. */
    method ApplyChange(peer: string, c: Change, now: int, loads: bool, saves: bool)
        returns (changed: bool, failed: bool)
      requires Valid()
      modifies this, pending
      ensures Valid()
      ensures !WellFormed(peer, c) || !loads ==> (changed, failed) == (false, true) && View() == old(View())
      ensures WellFormed(peer, c) && loads ==>
                && (changed <==> Target(LogOf(old(View()), peer), c) < |LogOf(old(View()), peer)|)
                && (failed <==> changed && !saves)
                && View() == if failed then old(View()) else Amend(old(View()), peer, c, now)
    {
      if peer == "" || c.ref == "" || c.from == "" || !loads { return false, true; }
      var l := if peer in logs then logs[peer] else [];
      var known := false;
      for i := 0 to |l|
        invariant known <==> exists j :: 0 <= j < i && Concerns(l[j], c)
        invariant forall j :: 0 <= j < i ==> !(Concerns(l[j], c) && l[j].from == c.from)
        invariant View() == old(View()) && Valid()
      {
        if Concerns(l[i], c) {
          known := true;
          if l[i].from == c.from {
            var t := Target(l, c);
            assert t == i;
            if !saves { return true, true; }
            logs := logs[peer := Trim(l[i := Apply(l[i], c)])];
            return true, false;
          }
        }
      }
      assert Target(l, c) == |l|;
      if known { return false, false; }
      pending.Add(peer, c, now);
      return false, false;
    }
  }

  /* Runs: messages and changes in the order in which they arrive. */

  datatype Event = Message(peer: string, entry: Entry, now: int) | Changed(peer: string, change: Change, now: int)

  ghost function Receive(s: State, ev: Event): State {
    match ev
    case Message(peer, e, now) => Append(s, peer, e, now)
    case Changed(peer, c, now) => Amend(s, peer, c, now)
  }

  ghost function Replay(s: State, evs: seq<Event>): State {
    if evs == [] then s else Receive(Replay(s, evs[..|evs| - 1]), evs[|evs| - 1])
  }

  /**
   * Every record of `a` from `gone` on is still there in `b`, in order, with at most its own
   * sender's changes made to it; only the oldest `gone` records may be trimmed away.
   */
  predicate DescendsBy(a: Log, b: Log, gone: nat) {
    |a| <= |b| + gone && forall i :: gone <= i < |a| ==> Evolves(a[i], b[i - gone])
  }

  ghost predicate Descends(a: Log, b: Log) { exists gone: nat :: DescendsBy(a, b, gone) }

  lemma TrimDescends(a: Log, b: Log)
    requires DescendsBy(a, b, 0)
    ensures Descends(a, Trim(b))
  {
    assert DescendsBy(a, Trim(b), |b| - |Trim(b)|);
  }

  lemma ReceiveDescends(s: State, ev: Event, peer: string)
    ensures Descends(LogOf(s, peer), LogOf(Receive(s, ev), peer))
  {
    var a := LogOf(s, peer);
    assert DescendsBy(a, a, 0);
    if ev.peer == peer {
      match ev
      case Message(_, e, now) =>
        var p := Prepared(a, e, now);
        TrimDescends(a, a + [Fold(p, Met(s, peer, p.id, now))]);
      case Changed(_, c, _) =>
        var i := Target(a, c);
        if i < |a| { TrimDescends(a, a[i := Apply(a[i], c)]); }
    }
  }

  lemma DescendsTransitively(a: Log, b: Log, c: Log)
    requires Descends(a, b) && Descends(b, c)
    ensures Descends(a, c)
  {
    var x: nat :| DescendsBy(a, b, x);
    var y: nat :| DescendsBy(b, c, y);
    forall i | x + y <= i < |a| ensures Evolves(a[i], c[i - (x + y)]) {
      assert Evolves(a[i], b[i - x]) && Evolves(b[i - x], c[i - x - y]);
    }
    assert DescendsBy(a, c, x + y);
  }

  /** Nothing that arrives, in any order and any number of times, undoes a deletion or loses a record. */
  lemma {:induction false} HistoryDescends(s: State, evs: seq<Event>, peer: string)
    ensures Descends(LogOf(s, peer), LogOf(Replay(s, evs), peer))
  {
    if evs == [] {
      assert DescendsBy(LogOf(s, peer), LogOf(s, peer), 0);
    } else {
      var before := Replay(s, evs[..|evs| - 1]);
      HistoryDescends(s, evs[..|evs| - 1], peer);
      ReceiveDescends(before, evs[|evs| - 1], peer);
      DescendsTransitively(LogOf(s, peer), LogOf(before, peer), LogOf(Replay(s, evs), peer));
    }
  }

  /* What the log should be, whatever the order: the messages, each with all its changes. */

  /** The conversation's messages as first received, without any change. */
  function Bare(evs: seq<Event>, peer: string): Log {
    if evs == [] then []
    else
      var l, ev := Bare(evs[..|evs| - 1], peer), evs[|evs| - 1];
      if ev.Message? && ev.peer == peer && peer != "" && !Duplicate(l, Prepared(l, ev.entry, ev.now))
      then l + [Prepared(l, ev.entry, ev.now)] else l
  }

  predicate Names(ev: Event, peer: string, ref: string) {
    ev.Changed? && ev.peer == peer && ev.change.ref == ref && WellFormed(peer, ev.change)
  }

  /** Every change to one message, with the time until which it may wait. */
  function ChangesTo(evs: seq<Event>, peer: string, ref: string): seq<Waiting> {
    if evs == [] then []
    else
      var before, ev := ChangesTo(evs[..|evs| - 1], peer, ref), evs[|evs| - 1];
      if Names(ev, peer, ref) then before + [Waiting(ev.change, ev.now + PENDING_TTL)] else before
  }

  function Canonical(evs: seq<Event>, peer: string): Log {
    var l := Bare(evs, peer);
    seq(|l|, i requires 0 <= i < |l| => Fold(l[i], Changes(ChangesTo(evs, peer, l[i].id))))
  }

  predicate IsMessage(ev: Event, peer: string, id: string) { ev.Message? && ev.peer == peer && ev.entry.id == id }

  /** Messages that some change names are legacy records, and one ID means one message. */
  predicate Legacy(evs: seq<Event>, peer: string, ref: string) {
    && (forall i :: 0 <= i < |evs| && IsMessage(evs[i], peer, ref) ==> evs[i].entry.protocol == "")
    && forall i, j ::
         0 <= i < |evs| && 0 <= j < |evs| && IsMessage(evs[i], peer, ref) && IsMessage(evs[j], peer, ref) ==>
           evs[i].entry.self == evs[j].entry.self
  }

  /** The first delivery of a message. */
  predicate IsFirst(evs: seq<Event>, j: nat, peer: string, id: string) {
    j < |evs| && IsMessage(evs[j], peer, id) && forall k :: 0 <= k < j ==> !IsMessage(evs[k], peer, id)
  }

  /** No change waits for the first delivery of its message longer than a change may. */
  predicate Timely(evs: seq<Event>, peer: string, ref: string) {
    forall i, j :: 0 <= i < j < |evs| && Names(evs[i], peer, ref) && IsFirst(evs, j, peer, ref) ==>
      evs[j].now < evs[i].now + PENDING_TTL
  }

  const EMPTY := State(map[], map[])

  /** A change that has to wait finds room: the cap on waiting changes is never met. */
  ghost predicate HasRoom(s: State, ev: Event) {
    ev.Changed? && Waits(s, ev.peer, ev.change) ==> Size(s.waiting) < MAX_PENDING
  }

  ghost predicate Ordinary(evs: seq<Event>, peer: string) {
    && (forall n {:trigger evs[n]} :: 0 <= n < |evs| ==> HasRoom(Replay(EMPTY, evs[..n]), evs[n]))
    && |Bare(evs, peer)| <= HISTORY_MAX
    && forall i {:trigger evs[i]} :: 0 <= i < |evs| && evs[i].Changed? && evs[i].peer == peer ==>
         Legacy(evs, peer, evs[i].change.ref) && Timely(evs, peer, evs[i].change.ref)
  }

  ghost predicate WaitsFor(s: State, evs: seq<Event>, peer: string, ref: string) {
    At(s.waiting, (peer, ref)) == if HasId(Bare(evs, peer), ref) then [] else ChangesTo(evs, peer, ref)
  }

  ghost predicate Matches(s: State, evs: seq<Event>, peer: string) {
    && LogOf(s, peer) == Canonical(evs, peer)
    && forall ref {:trigger WaitsFor(s, evs, peer, ref)} :: ref != "" ==> WaitsFor(s, evs, peer, ref)
  }

  /* The log matches whatever the order. */

  lemma PrefixOrdinary(evs: seq<Event>, peer: string)
    requires evs != [] && Ordinary(evs, peer)
    ensures Ordinary(evs[..|evs| - 1], peer)
  {
    var before := evs[..|evs| - 1];
    forall n | 0 <= n < |before| ensures HasRoom(Replay(EMPTY, before[..n]), before[n]) {
      assert before[n] == evs[n] && before[..n] == evs[..n];
    }
    forall i | 0 <= i < |before| && before[i].Changed? && before[i].peer == peer
      ensures Legacy(before, peer, before[i].change.ref) && Timely(before, peer, before[i].change.ref)
    {
      assert before[i] == evs[i];
      PrefixOfLegacy(evs, peer, evs[i].change.ref);
      PrefixTimely(evs, peer, evs[i].change.ref);
    }
  }

  lemma PrefixTimely(evs: seq<Event>, peer: string, ref: string)
    requires evs != [] && Timely(evs, peer, ref)
    ensures Timely(evs[..|evs| - 1], peer, ref)
  {
    var before := evs[..|evs| - 1];
    forall i, j | 0 <= i < j < |before| && Names(before[i], peer, ref) && IsFirst(before, j, peer, ref)
      ensures before[j].now < before[i].now + PENDING_TTL
    {
      assert forall k :: 0 <= k <= j ==> before[k] == evs[k];
      assert IsFirst(evs, j, peer, ref);
    }
  }

  /** Every message of a conversation leaves a record under its ID. */
  lemma {:induction false} MessagesLeaveRecords(evs: seq<Event>, peer: string, k: nat)
    requires k < |evs| && peer != "" && evs[k].Message? && evs[k].peer == peer
    ensures HasId(Bare(evs, peer), evs[k].entry.id)
  {
    var before, last := evs[..|evs| - 1], evs[|evs| - 1];
    var l, id := Bare(before, peer), evs[k].entry.id;
    if k < |before| {
      MessagesLeaveRecords(before, peer, k);
      if |Bare(evs, peer)| > |l| { OneMore(l, Prepared(l, last.entry, last.now), id); }
    } else if Duplicate(l, Prepared(l, last.entry, last.now)) {
      var i :| 0 <= i < |l| && SameMessage(l[i], Prepared(l, last.entry, last.now));
      assert l[i].id == id;
    } else {
      OneMore(l, Prepared(l, last.entry, last.now), id);
    }
  }

  lemma {:induction false} RecordsCameAsMessages(evs: seq<Event>, peer: string, i: nat)
    requires i < |Bare(evs, peer)|
    ensures exists k :: 0 <= k < |evs| && IsMessage(evs[k], peer, Bare(evs, peer)[i].id)
                        && evs[k].entry.self == Bare(evs, peer)[i].self &&
                             evs[k].entry.protocol == Bare(evs, peer)[i].protocol
  {
    var before, last := evs[..|evs| - 1], evs[|evs| - 1];
    var l := Bare(before, peer);
    if i < |l| {
      RecordsCameAsMessages(before, peer, i);
      var k :| 0 <= k < |before| && IsMessage(before[k], peer, l[i].id) && before[k].entry.self == l[i].self &&
          before[k].entry.protocol == l[i].protocol;
      assert evs[k] == before[k];
    } else {
      assert IsMessage(last, peer, Bare(evs, peer)[i].id);
    }
  }

  /** A legacy message already in the log is recognised. */
  lemma SecondIsDuplicate(evs: seq<Event>, peer: string, ref: string, i: nat)
    requires evs != [] && Legacy(evs, peer, ref) && ref != "" && IsMessage(evs[|evs| - 1], peer, ref)
    requires i < |Bare(evs[..|evs| - 1], peer)| && Bare(evs[..|evs| - 1], peer)[i].id == ref
    ensures var l := Bare(evs[..|evs| - 1], peer); Duplicate(l, Prepared(l, evs[|evs| - 1].entry, evs[|evs| - 1].now))
  {
    var before, last := evs[..|evs| - 1], evs[|evs| - 1];
    var l := Bare(before, peer);
    RecordsCameAsMessages(before, peer, i);
    var k :| 0 <= k < |before| && IsMessage(before[k], peer, ref) && before[k].entry.self == l[i].self &&
        before[k].entry.protocol == l[i].protocol;
    assert evs[k] == before[k];
    assert SameMessage(l[i], Prepared(l, last.entry, last.now));
  }

  /** A legacy ID stands for one record at most, and for a legacy record. */
  lemma {:induction false} OneRecord(evs: seq<Event>, peer: string, ref: string, i: nat, j: nat)
    requires Legacy(evs, peer, ref) && ref != "" && i <= j < |Bare(evs, peer)|
    requires Bare(evs, peer)[i].id == ref && Bare(evs, peer)[j].id == ref
    ensures i == j && Bare(evs, peer)[i].protocol == ""
  {
    RecordsCameAsMessages(evs, peer, i);
    var before := evs[..|evs| - 1];
    PrefixOfLegacy(evs, peer, ref);
    if j < |Bare(before, peer)| {
      OneRecord(before, peer, ref, i, j);
    } else if i < j {
      SecondIsDuplicate(evs, peer, ref, i);
    }
  }

  lemma PrefixOfLegacy(evs: seq<Event>, peer: string, ref: string)
    requires evs != [] && Legacy(evs, peer, ref)
    ensures Legacy(evs[..|evs| - 1], peer, ref)
  {
    var before := evs[..|evs| - 1];
    assert forall i :: 0 <= i < |before| ==> before[i] == evs[i];
  }

  lemma {:induction false} NamesCounted(evs: seq<Event>, peer: string, ref: string)
    ensures ref == "" ==> ChangesTo(evs, peer, ref) == []
    ensures |ChangesTo(evs, peer, ref)| > 0 ==> exists i :: 0 <= i < |evs| && Names(evs[i], peer, ref)
  {
    if evs != [] {
      var before := evs[..|evs| - 1];
      NamesCounted(before, peer, ref);
      if |ChangesTo(before, peer, ref)| > 0 {
        var i :| 0 <= i < |before| && Names(before[i], peer, ref);
        assert Names(evs[i], peer, ref);
      } else {
        assert |ChangesTo(evs, peer, ref)| > 0 ==> Names(evs[|evs| - 1], peer, ref);
      }
    }
  }

  /** A change is still alive when its message comes in time. */
  lemma {:induction false} AllAlive(evs: seq<Event>, peer: string, ref: string, now: int)
    requires forall i :: 0 <= i < |evs| && Names(evs[i], peer, ref) ==> now < evs[i].now + PENDING_TTL
    ensures Alive(ChangesTo(evs, peer, ref), now) == ChangesTo(evs, peer, ref)
  {
    if evs != [] {
      var before, last := evs[..|evs| - 1], evs[|evs| - 1];
      assert forall i :: 0 <= i < |before| ==> before[i] == evs[i];
      AllAlive(before, peer, ref, now);
      if Names(last, peer, ref) {
        var ws := ChangesTo(evs, peer, ref);
        assert ws[..|ws| - 1] == ChangesTo(before, peer, ref);
      }
    }
  }

  lemma CanonicalEvolves(evs: seq<Event>, peer: string, i: nat)
    requires i < |Bare(evs, peer)|
    ensures Evolves(Bare(evs, peer)[i], Canonical(evs, peer)[i])
  {
    var e := Bare(evs, peer)[i];
    FoldEvolves(e, Changes(ChangesTo(evs, peer, e.id)));
  }

  /** Changes keep what numbering and duplicate detection look at. */
  lemma CanonicalLooksBare(evs: seq<Event>, peer: string, e: Entry, now: int)
    ensures Prepared(Canonical(evs, peer), e, now) == Prepared(Bare(evs, peer), e, now)
    ensures Duplicate(Canonical(evs, peer), e) <==> Duplicate(Bare(evs, peer), e)
  {
    SameHeads(Bare(evs, peer), Canonical(evs, peer), e, now) by {
      forall i | 0 <= i < |Bare(evs, peer)|
          ensures Evolves(Bare(evs, peer)[i], Canonical(evs, peer)[i]) { CanonicalEvolves(evs, peer, i); }
    }
  }

  lemma SameHeads(l: Log, m: Log, e: Entry, now: int)
    requires |l| == |m| && forall i :: 0 <= i < |l| ==> Evolves(l[i], m[i])
    ensures Prepared(m, e, now) == Prepared(l, e, now)
    ensures Duplicate(m, e) <==> Duplicate(l, e)
  {
    assert forall i :: 0 <= i < |l| ==> (SameMessage(l[i], e) <==> SameMessage(m[i], e));
  }

  /** An arriving message meets every change made to it so far. */
  lemma MetIsAll(s: State, evs: seq<Event>, peer: string)
    requires evs != [] && Ordinary(evs, peer) && Matches(s, evs[..|evs| - 1], peer) && peer != ""
    requires evs[|evs| - 1].Message? && evs[|evs| - 1].peer == peer
    requires var l := Bare(evs[..|evs| - 1], peer); !Duplicate(l, Prepared(l, evs[|evs| - 1].entry, evs[|evs| - 1].now))
    ensures var last := evs[|evs| - 1];
              Met(s, peer, last.entry.id, last.now) == Changes(ChangesTo(evs, peer, last.entry.id))
  {
    var before, last := evs[..|evs| - 1], evs[|evs| - 1];
    var id := last.entry.id;
    NamesCounted(before, peer, id);
    if id != "" {
      assert WaitsFor(s, before, peer, id);
      if |ChangesTo(before, peer, id)| > 0 {
        var k :| 0 <= k < |before| && Names(before[k], peer, id);
        assert evs[k] == before[k];
        assert Legacy(evs, peer, id) && Timely(evs, peer, id);
        NotYetThere(evs, peer, id);
        NowFirst(evs, peer, id);
        forall i | 0 <= i < |before| && Names(before[i], peer, id) ensures last.now < before[i].now + PENDING_TTL {
          assert Names(evs[i], peer, id) && IsFirst(evs, |evs| - 1, peer, id);
        }
        AllAlive(before, peer, id, last.now);
      }
    }
  }

  lemma NowFirst(evs: seq<Event>, peer: string, id: string)
    requires evs != [] && IsMessage(evs[|evs| - 1], peer, id) && peer != "" && !HasId(Bare(evs[..|evs| - 1], peer), id)
    ensures IsFirst(evs, |evs| - 1, peer, id)
  {
    var before := evs[..|evs| - 1];
    forall k | 0 <= k < |before| ensures !IsMessage(evs[k], peer, id) {
      assert before[k] == evs[k];
      if IsMessage(before[k], peer, id) { MessagesLeaveRecords(before, peer, k); }
    }
  }

  lemma NotYetThere(evs: seq<Event>, peer: string, ref: string)
    requires evs != [] && Legacy(evs, peer, ref) && ref != "" && IsMessage(evs[|evs| - 1], peer, ref)
    requires var l := Bare(evs[..|evs| - 1], peer); !Duplicate(l, Prepared(l, evs[|evs| - 1].entry, evs[|evs| - 1].now))
    ensures !HasId(Bare(evs[..|evs| - 1], peer), ref)
  {
    var l := Bare(evs[..|evs| - 1], peer);
    forall i | 0 <= i < |l| ensures l[i].id != ref {
      if l[i].id == ref { SecondIsDuplicate(evs, peer, ref, i); }
    }
  }

  /** The message goes to the end of the log, with every change made to it so far. */
  lemma NewMessageLands(s: State, evs: seq<Event>, peer: string)
    requires evs != [] && Ordinary(evs, peer) && Matches(s, evs[..|evs| - 1], peer) && peer != ""
    requires evs[|evs| - 1].Message? && evs[|evs| - 1].peer == peer
    requires var l := Bare(evs[..|evs| - 1], peer); !Duplicate(l, Prepared(l, evs[|evs| - 1].entry, evs[|evs| - 1].now))
    ensures var before, last := evs[..|evs| - 1], evs[|evs| - 1];
            var p, s' := Prepared(Bare(before, peer), last.entry, last.now), Receive(s, last);
            && LogOf(s', peer) == Canonical(before, peer) + [Fold(p, Changes(ChangesTo(before, peer, p.id)))]
            && s'.waiting == Taken(s, peer, p.id)
  {
    var before, last := evs[..|evs| - 1], evs[|evs| - 1];
    CanonicalLooksBare(before, peer, last.entry, last.now);
    CanonicalLooksBare(before, peer, Prepared(Bare(before, peer), last.entry, last.now), last.now);
    MetIsAll(s, evs, peer);
  }

  lemma NewMessageMatches(s: State, evs: seq<Event>, peer: string)
    requires evs != [] && Ordinary(evs, peer) && Matches(s, evs[..|evs| - 1], peer) && peer != ""
    requires evs[|evs| - 1].Message? && evs[|evs| - 1].peer == peer
    requires var l := Bare(evs[..|evs| - 1], peer); !Duplicate(l, Prepared(l, evs[|evs| - 1].entry, evs[|evs| - 1].now))
    ensures Matches(Receive(s, evs[|evs| - 1]), evs, peer)
  {
    var before, last := evs[..|evs| - 1], evs[|evs| - 1];
    NewMessageLands(s, evs, peer);
    MatchesWithNew(s, Receive(s, last), evs, peer);
  }

  lemma MatchesWithNew(s: State, s': State, evs: seq<Event>, peer: string)
    requires evs != [] && Matches(s, evs[..|evs| - 1], peer) && peer != ""
    requires evs[|evs| - 1].Message? && evs[|evs| - 1].peer == peer
    requires var l := Bare(evs[..|evs| - 1], peer); !Duplicate(l, Prepared(l, evs[|evs| - 1].entry, evs[|evs| - 1].now))
    requires var before, last := evs[..|evs| - 1], evs[|evs| - 1];
             var p := Prepared(Bare(before, peer), last.entry, last.now);
             && LogOf(s', peer) == Canonical(before, peer) + [Fold(p, Changes(ChangesTo(before, peer, p.id)))]
             && s'.waiting == Taken(s, peer, p.id)
    ensures Matches(s', evs, peer)
  {
    var before, last := evs[..|evs| - 1], evs[|evs| - 1];
    var p := Prepared(Bare(before, peer), last.entry, last.now);
    assert Bare(evs, peer) == Bare(before, peer) + [p];
    assert LogOf(s', peer) == Canonical(evs, peer);
    forall ref | ref != "" ensures WaitsFor(s', evs, peer, ref) {
      assert WaitsFor(s, before, peer, ref);
      OneMore(Bare(before, peer), p, ref);
    }
  }

  lemma OneMore(l: Log, p: Entry, ref: string)
    ensures HasId(l + [p], ref) <==> HasId(l, ref) || p.id == ref
  {
    if HasId(l, ref) {
      var i :| 0 <= i < |l| && l[i].id == ref;
      assert (l + [p])[i].id == ref;
    }
    assert (l + [p])[|l|] == p;
  }

  /** An event of another conversation, a malformed one or a redelivered message changes nothing here. */
  lemma OtherEventMatches(s: State, evs: seq<Event>, peer: string)
    requires evs != [] && Ordinary(evs, peer) && Matches(s, evs[..|evs| - 1], peer) && HasRoom(s, evs[|evs| - 1])
    requires var last, l := evs[|evs| - 1], Bare(evs[..|evs| - 1], peer);
             || last.peer != peer || peer == ""
             || (last.Message? && Duplicate(l, Prepared(l, last.entry, last.now)))
             || (last.Changed? && !WellFormed(peer, last.change))
    ensures Matches(Receive(s, evs[|evs| - 1]), evs, peer)
  {
    var before, last := evs[..|evs| - 1], evs[|evs| - 1];
    var s' := Receive(s, last);
    if last.Message? { MessageElsewhere(s, evs, peer); } else { ChangeElsewhere(s, evs, peer); }
    SameCanonical(evs, peer);
    forall ref | ref != "" ensures WaitsFor(s', evs, peer, ref) {
      assert WaitsFor(s, before, peer, ref);
    }
  }

  lemma MessageElsewhere(s: State, evs: seq<Event>, peer: string)
    requires evs != [] && evs[|evs| - 1].Message? && LogOf(s, peer) == Canonical(evs[..|evs| - 1], peer)
    requires var last, l := evs[|evs| - 1], Bare(evs[..|evs| - 1], peer);
             last.peer != peer || peer == "" || Duplicate(l, Prepared(l, last.entry, last.now))
    ensures var s' := Receive(s, evs[|evs| - 1]);
            && LogOf(s', peer) == LogOf(s, peer)
            && forall ref :: At(s'.waiting, (peer, ref)) == At(s.waiting, (peer, ref))
  {
    var before, last := evs[..|evs| - 1], evs[|evs| - 1];
    if last.peer == peer {
      CanonicalLooksBare(before, peer, last.entry, last.now);
      CanonicalLooksBare(before, peer, Prepared(Bare(before, peer), last.entry, last.now), last.now);
    }
  }

  lemma ChangeElsewhere(s: State, evs: seq<Event>, peer: string)
    requires evs != [] && evs[|evs| - 1].Changed? && HasRoom(s, evs[|evs| - 1])
    requires evs[|evs| - 1].peer != peer || !WellFormed(peer, evs[|evs| - 1].change)
    ensures var s' := Receive(s, evs[|evs| - 1]);
            && LogOf(s', peer) == LogOf(s, peer)
            && forall ref :: At(s'.waiting, (peer, ref)) == At(s.waiting, (peer, ref))
  {
    var last := evs[|evs| - 1];
    if Waits(s, last.peer, last.change) { AmendsLater(s, last.peer, last.change, last.now); }
  }

  lemma SameCanonical(evs: seq<Event>, peer: string)
    requires evs != [] && Bare(evs, peer) == Bare(evs[..|evs| - 1], peer)
    requires var last := evs[|evs| - 1]; forall ref :: ref != "" ==> !Names(last, peer, ref)
    ensures Canonical(evs, peer) == Canonical(evs[..|evs| - 1], peer)
  {
    var before, l := evs[..|evs| - 1], Bare(evs, peer);
    forall i | 0 <= i < |l| ensures ChangesTo(evs, peer, l[i].id) == ChangesTo(before, peer, l[i].id) {
      NamesCounted(evs, peer, l[i].id);
    }
  }

  /** A change moves the record it names, if it is there, exactly as the canonical log says. */
  lemma CanonicalAfterChange(evs: seq<Event>, peer: string, i: nat)
    requires evs != [] && evs[|evs| - 1].Changed? && Names(evs[|evs| - 1], peer, evs[|evs| - 1].change.ref)
    requires i < |Bare(evs, peer)|
    ensures var c, e, was := evs[|evs| - 1].change, Bare(evs, peer)[i], Canonical(evs[..|evs| - 1], peer)[i];
            Canonical(evs, peer)[i] == if e.id == c.ref && e.from == c.from then Apply(was, c) else was
  {
    var before, c, e := evs[..|evs| - 1], evs[|evs| - 1].change, Bare(evs, peer)[i];
    if e.id == c.ref {
      var cs := Changes(ChangesTo(evs, peer, e.id));
      assert cs == Changes(ChangesTo(before, peer, e.id)) + [c];
      assert cs[..|cs| - 1] == Changes(ChangesTo(before, peer, e.id));
    }
  }

  lemma WaitingCanonical(evs: seq<Event>, peer: string)
    requires evs != [] && evs[|evs| - 1].Changed? && Names(evs[|evs| - 1], peer, evs[|evs| - 1].change.ref)
    requires !HasId(Bare(evs, peer), evs[|evs| - 1].change.ref)
    ensures Canonical(evs, peer) == Canonical(evs[..|evs| - 1], peer)
    ensures !HasId(Canonical(evs, peer), evs[|evs| - 1].change.ref)
  {
    var before, c, l := evs[..|evs| - 1], evs[|evs| - 1].change, Bare(evs, peer);
    forall i | 0 <= i < |l| ensures Canonical(evs, peer)[i] == Canonical(before, peer)[i] &&
        Canonical(before, peer)[i].id != c.ref {
      CanonicalAfterChange(evs, peer, i);
      CanonicalEvolves(before, peer, i);
    }
  }

  lemma StillWaits(s: State, s': State, evs: seq<Event>, peer: string, ref: string)
    requires evs != [] && evs[|evs| - 1].Changed? && Names(evs[|evs| - 1], peer, evs[|evs| - 1].change.ref)
    requires !HasId(Bare(evs, peer), evs[|evs| - 1].change.ref) && WaitsFor(s, evs[..|evs| - 1], peer, ref)
    requires var last := evs[|evs| - 1];
             var k := (peer, last.change.ref);
             s'.waiting == s.waiting[k := At(s.waiting, k) + [Waiting(last.change, last.now + PENDING_TTL)]]
    ensures WaitsFor(s', evs, peer, ref)
  {
  }

  lemma NoIdNoRecord(l: Log, c: Change)
    requires !HasId(l, c.ref)
    ensures !Known(l, c)
  {
  }

  lemma WaitingLands(s: State, evs: seq<Event>, peer: string)
    requires evs != [] && LogOf(s, peer) == Canonical(evs[..|evs| - 1], peer) && HasRoom(s, evs[|evs| - 1])
    requires evs[|evs| - 1].Changed? && Names(evs[|evs| - 1], peer, evs[|evs| - 1].change.ref)
    requires !HasId(Bare(evs, peer), evs[|evs| - 1].change.ref)
    ensures var last := evs[|evs| - 1];
            var k := (peer, last.change.ref);
            var later := Waiting(last.change, last.now + PENDING_TTL);
            Receive(s, last) == s.(waiting := s.waiting[k := At(s.waiting, k) + [later]])
  {
    var last := evs[|evs| - 1];
    WaitingCanonical(evs, peer);
    NoIdNoRecord(LogOf(s, peer), last.change);
    AmendsLater(s, peer, last.change, last.now);
  }

  lemma MatchesWithWaiting(s: State, s': State, evs: seq<Event>, peer: string)
    requires evs != [] && Matches(s, evs[..|evs| - 1], peer)
    requires evs[|evs| - 1].Changed? && Names(evs[|evs| - 1], peer, evs[|evs| - 1].change.ref)
    requires !HasId(Bare(evs, peer), evs[|evs| - 1].change.ref)
    requires var last := evs[|evs| - 1];
             var k := (peer, last.change.ref);
             s' == s.(waiting := s.waiting[k := At(s.waiting, k) + [Waiting(last.change, last.now + PENDING_TTL)]])
    ensures Matches(s', evs, peer)
  {
    WaitingCanonical(evs, peer);
    forall ref | ref != "" ensures WaitsFor(s', evs, peer, ref) {
      assert WaitsFor(s, evs[..|evs| - 1], peer, ref);
      StillWaits(s, s', evs, peer, ref);
    }
  }

  lemma KnownChangeMatches(s: State, evs: seq<Event>, peer: string, i: nat)
    requires evs != [] && Ordinary(evs, peer) && Matches(s, evs[..|evs| - 1], peer)
    requires evs[|evs| - 1].Changed? && Names(evs[|evs| - 1], peer, evs[|evs| - 1].change.ref)
    requires i < |Bare(evs, peer)| && Bare(evs, peer)[i].id == evs[|evs| - 1].change.ref
    ensures Matches(Receive(s, evs[|evs| - 1]), evs, peer)
  {
    var before, last := evs[..|evs| - 1], evs[|evs| - 1];
    var c, l, s', log := last.change, Bare(evs, peer), Receive(s, last), Canonical(before, peer);
    assert l == Bare(before, peer);
    forall j | 0 <= j < |l| ensures (Concerns(log[j], c) <==> j == i) && log[j].from == l[j].from {
      OnlyThisRecord(evs, peer, c, i, j);
    }
    OneTarget(log, c, i);
    forall j | 0 <= j < |l|
      ensures Canonical(evs, peer)[j] == if j == i && l[i].from == c.from then Apply(log[j], c) else log[j]
    {
      CanonicalAfterChange(evs, peer, j);
      OnlyThisRecord(evs, peer, c, i, j);
    }
    if l[i].from == c.from {
      assert Canonical(evs, peer) == log[i := Apply(log[i], c)];
    } else {
      assert Canonical(evs, peer) == log;
    }
    forall ref | ref != "" ensures WaitsFor(s', evs, peer, ref) {
      assert WaitsFor(s, before, peer, ref);
    }
  }

  lemma OnlyThisRecord(evs: seq<Event>, peer: string, c: Change, i: nat, j: nat)
    requires evs != [] && Legacy(evs, peer, c.ref) && c.ref != "" && i < |Bare(evs, peer)| && j < |Bare(evs, peer)|
    requires Bare(evs[..|evs| - 1], peer) == Bare(evs, peer) && Bare(evs, peer)[i].id == c.ref
    ensures var log := Canonical(evs[..|evs| - 1], peer);
            (Concerns(log[j], c) <==> j == i) && log[j].from == Bare(evs, peer)[j].from &&
                (Bare(evs, peer)[j].id == c.ref <==> j == i)
  {
    CanonicalEvolves(evs[..|evs| - 1], peer, j);
    if Bare(evs, peer)[j].id == c.ref {
      if i <= j { OneRecord(evs, peer, c.ref, i, j); } else { OneRecord(evs, peer, c.ref, j, i); }
    } 
  }

  lemma OneTarget(log: Log, c: Change, i: nat)
    requires i < |log| && forall j :: 0 <= j < |log| ==> (Concerns(log[j], c) <==> j == i)
    ensures Target(log, c) == if log[i].from == c.from then i else |log|
    ensures Known(log, c)
  {
    var t := Target(log, c);
    assert Concerns(log[i], c);
  }

  lemma StepMatches(s: State, evs: seq<Event>, peer: string)
    requires evs != [] && Ordinary(evs, peer) && Matches(s, evs[..|evs| - 1], peer) && HasRoom(s, evs[|evs| - 1])
    ensures Matches(Receive(s, evs[|evs| - 1]), evs, peer)
  {
    var last, l := evs[|evs| - 1], Bare(evs[..|evs| - 1], peer);
    if last.peer != peer || peer == "" {
      OtherEventMatches(s, evs, peer);
    } else if last.Message? {
      if Duplicate(l, Prepared(l, last.entry, last.now)) {
        OtherEventMatches(s, evs, peer);
      } else {
        NewMessageMatches(s, evs, peer);
      }
    } else if !WellFormed(peer, last.change) {
      OtherEventMatches(s, evs, peer);
    } else if HasId(Bare(evs, peer), last.change.ref) {
      var i :| 0 <= i < |Bare(evs, peer)| && Bare(evs, peer)[i].id == last.change.ref;
      KnownChangeMatches(s, evs, peer, i);
    } else {
      WaitingLands(s, evs, peer);
      MatchesWithWaiting(s, Receive(s, last), evs, peer);
    }
  }

  lemma {:induction false} ReplayMatches(evs: seq<Event>, peer: string)
    requires Ordinary(evs, peer)
    ensures Matches(Replay(EMPTY, evs), evs, peer)
  {
    if evs != [] {
      assert HasRoom(Replay(EMPTY, evs[..|evs| - 1]), evs[|evs| - 1]);
      PrefixOrdinary(evs, peer);
      ReplayMatches(evs[..|evs| - 1], peer);
      StepMatches(Replay(EMPTY, evs[..|evs| - 1]), evs, peer);
    }
  }

  /** The log is the messages in their order, each with all its sender's changes in theirs. */
  lemma LogIsCanonical(evs: seq<Event>, peer: string)
    requires Ordinary(evs, peer)
    ensures LogOf(Replay(EMPTY, evs), peer) == Canonical(evs, peer)
  {
    ReplayMatches(evs, peer);
  }

  /** Two arrivals of the same messages and, message by message, the same changes end in the same log. */
  lemma Confluence(evs: seq<Event>, evs': seq<Event>, peer: string)
    requires Ordinary(evs, peer) && Ordinary(evs', peer)
    requires Bare(evs, peer) == Bare(evs', peer)
    requires forall ref :: Changes(ChangesTo(evs, peer, ref)) == Changes(ChangesTo(evs', peer, ref))
    ensures LogOf(Replay(EMPTY, evs), peer) == LogOf(Replay(EMPTY, evs'), peer)
  {
    LogIsCanonical(evs, peer);
    LogIsCanonical(evs', peer);
  }

  /* Where the order does show. */

  /** What is left of a log when one more record is stored after it. */
  function Tail(l: Log): Log { if |l| >= HISTORY_MAX then l[|l| - HISTORY_MAX + 1..] else l }

  lemma AppendsNew(s: State, peer: string, e: Entry, now: int)
    requires peer != "" && !Duplicate(LogOf(s, peer), Prepared(LogOf(s, peer), e, now))
    ensures var l := LogOf(s, peer);
            LogOf(Append(s, peer, e, now), peer) == Tail(l) + [Fold(Prepared(l, e, now), Met(s, peer, e.id, now))]
  {
  }

  lemma FoldMore(p: Entry, cs: seq<Change>, c: Change)
    ensures Fold(p, cs + [c]) == if c.from == p.from then Apply(Fold(p, cs), c) else Fold(p, cs)
  {
    assert (cs + [c])[..|cs|] == cs;
  }

  lemma AliveMore(ws: seq<Waiting>, w: Waiting, now: int)
    requires w.expires > now
    ensures Alive(ws + [w], now) == Alive(ws, now) + [w]
  {
    assert (ws + [w])[..|ws|] == ws;
  }

  /** The record as stored once `c`, if its own sender made it, is applied last. */
  function WithChange(q: Entry, c: Change): Entry { if c.from == q.from then Apply(q, c) else q }

  lemma ChangeFirst(s: State, peer: string, e: Entry, c: Change, sent: int, now: int)
    requires Waits(s, peer, c) && Size(s.waiting) < MAX_PENDING && e.id == c.ref && now < sent + PENDING_TTL
    requires !Duplicate(LogOf(s, peer), Prepared(LogOf(s, peer), e, now))
    ensures var l := LogOf(s, peer);
            LogOf(Append(Amend(s, peer, c, sent), peer, e, now), peer)
              == Tail(l) + [WithChange(Fold(Prepared(l, e, now), Met(s, peer, e.id, now)), c)]
  {
    AmendsLater(s, peer, c, sent);
    AppendsChanged(s, Amend(s, peer, c, sent), peer, e, Waiting(c, sent + PENDING_TTL), now);
  }

  lemma MetMore(s: State, s1: State, peer: string, id: string, w: Waiting, now: int)
    requires id != "" && now < w.expires
    requires s1.waiting == s.waiting[(peer, id) := At(s.waiting, (peer, id)) + [w]]
    ensures Met(s1, peer, id, now) == Met(s, peer, id, now) + [w.change]
  {
    AliveMore(At(s.waiting, (peer, id)), w, now);
  }

  lemma AppendsChanged(s: State, s1: State, peer: string, e: Entry, w: Waiting, now: int)
    requires peer != "" && e.id != "" && now < w.expires
    requires !Duplicate(LogOf(s, peer), Prepared(LogOf(s, peer), e, now))
    requires var k := (peer, e.id); s1 == s.(waiting := s.waiting[k := At(s.waiting, k) + [w]])
    ensures var l := LogOf(s, peer);
            LogOf(Append(s1, peer, e, now), peer)
              == Tail(l) + [WithChange(Fold(Prepared(l, e, now), Met(s, peer, e.id, now)), w.change)]
  {
    var p, cs := Prepared(LogOf(s, peer), e, now), Met(s, peer, e.id, now);
    AppendsNew(s1, peer, e, now);
    MetMore(s, s1, peer, e.id, w, now);
    FoldMore(p, cs, w.change);
    FoldEvolves(p, cs);
  }

  lemma MessageFirst(s: State, peer: string, e: Entry, c: Change, sent: int, now: int)
    requires Waits(s, peer, c) && e.id == c.ref
    requires !Duplicate(LogOf(s, peer), Prepared(LogOf(s, peer), e, now))
    ensures var l := LogOf(s, peer);
            var q := Fold(Prepared(l, e, now), Met(s, peer, e.id, now));
            LogOf(Amend(Append(s, peer, e, now), peer, c, sent), peer)
              == Tail(l) + [if e.protocol == "" then WithChange(q, c) else q]
  {
    var l := LogOf(s, peer);
    var p := Prepared(l, e, now);
    AppendsNew(s, peer, e, now);
    FoldEvolves(p, Met(s, peer, e.id, now));
    forall i | 0 <= i < |Tail(l)| ensures !Concerns(Tail(l)[i], c) {
      assert Tail(l)[i] == l[|l| - |Tail(l)| + i];
    }
    AmendsLast(Append(s, peer, e, now), peer, Tail(l), Fold(p, Met(s, peer, e.id, now)), c, sent);
  }

  lemma AmendsLast(s: State, peer: string, l: Log, p: Entry, c: Change, now: int)
    requires WellFormed(peer, c) && LogOf(s, peer) == l + [p] && |l| < HISTORY_MAX && !Known(l, c) && p.id == c.ref
    ensures LogOf(Amend(s, peer, c, now), peer) == l + [if p.protocol == "" then WithChange(p, c) else p]
  {
    LastTarget(l, p, c);
    if p.protocol == "" && p.from == c.from { assert (l + [p])[|l| := Apply(p, c)] == l + [Apply(p, c)]; }
  }

  lemma LastTarget(l: Log, p: Entry, c: Change)
    requires !Known(l, c) && p.id == c.ref
    ensures Target(l + [p], c) == if p.protocol == "" && p.from == c.from then |l| else |l| + 1
    ensures Known(l + [p], c) <==> p.protocol == ""
  {
    assert (l + [p])[..|l|] == l && (l + [p])[|l|] == p;
    assert p.protocol == "" ==> Concerns((l + [p])[|l|], c);
    forall i | 0 <= i < |l| ensures !Concerns((l + [p])[i], c) { assert (l + [p])[i] == l[i]; }
  }

  /**
   * Outside legacy records the order does show: a change that overtakes a record of the newer
   * protocol is applied to it, one that follows it is not. Whatever else waits and whoever made
   * the change, the two orders agree exactly when the record is a legacy one, the change is not
   * its sender's, or the change would leave the record as it then is.
   */
  lemma OvertakingShowsUnless(s: State, peer: string, e: Entry, c: Change, sent: int, now: int)
    requires Waits(s, peer, c) && Size(s.waiting) < MAX_PENDING && e.id == c.ref && now < sent + PENDING_TTL
    requires !Duplicate(LogOf(s, peer), Prepared(LogOf(s, peer), e, now))
    ensures var q := Fold(Prepared(LogOf(s, peer), e, now), Met(s, peer, e.id, now));
            (LogOf(Append(Amend(s, peer, c, sent), peer, e, now), peer)
               == LogOf(Amend(Append(s, peer, e, now), peer, c, sent), peer))
            <==> (e.protocol == "" || c.from != e.from || Apply(q, c) == q)
  {
    var l := LogOf(s, peer);
    var p := Prepared(l, e, now);
    var q := Fold(p, Met(s, peer, e.id, now));
    FoldEvolves(p, Met(s, peer, e.id, now));
    ChangeFirst(s, peer, e, c, sent, now);
    MessageFirst(s, peer, e, c, sent, now);
    SameLast(Tail(l), q, WithChange(q, c));
  }

  lemma SameLast(l: Log, a: Entry, b: Entry)
    ensures l + [a] == l + [b] <==> a == b
  {
    assert (l + [a])[|l|] == a && (l + [b])[|l|] == b;
  }

  /** A failed write forgets the changes that waited: a repeated append differs exactly if one of them mattered. */
  lemma FailedAppendForgets(s: State, peer: string, e: Entry, now: int)
    requires peer != "" && !Duplicate(LogOf(s, peer), Prepared(LogOf(s, peer), e, now))
    ensures var p := Prepared(LogOf(s, peer), e, now);
            (LogOf(Append(FailedAppend(s, peer, e, now), peer, e, now), peer) == LogOf(Append(s, peer, e, now), peer))
            <==> Fold(p, Met(s, peer, e.id, now)) == p
  {
    var l := LogOf(s, peer);
    var p, s1 := Prepared(l, e, now), FailedAppend(s, peer, e, now);
    AppendsNew(s, peer, e, now);
    AppendsNew(s1, peer, e, now);
    assert Met(s1, peer, e.id, now) == [];
    SameLast(Tail(l), p, Fold(p, Met(s, peer, e.id, now)));
  }
}
