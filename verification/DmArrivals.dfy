/**
 * What the stored conversation says of what arrived: which record an arriving message becomes, what one
 * change does, and that over any history every stored body is one that somebody really sent.
 */
module DmArrivals {
  import opened DmChanges
  import opened DmHistory

  // ----- one arrival ---------------------------------------------------------------------------

  /** The log already has this message, delivered before. */
  predicate Redelivered(l: Log, e: Entry) {
    e.id != "" && exists i :: 0 <= i < |l| && l[i].id == e.id && l[i].self == e.self && l[i].protocol == e.protocol
  }

  /** Nothing that still counts is waiting for the message. */
  predicate NothingWaits(s: State, peer: string, id: string, now: int) {
    id == "" || (peer, id) !in s.waiting ||
    forall i :: 0 <= i < |s.waiting[(peer, id)]| ==> s.waiting[(peer, id)][i].expires <= now
  }

  /** The record is the message as it arrived, numbered after `l` and dated `now` where it came without. */
  predicate StoredAs(l: Log, e: Entry, now: int, r: Entry) {
    && r.id == e.id && r.from == e.from && r.self == e.self && r.protocol == e.protocol && r.body == e.body
    && r.edited == e.edited && r.editedAt == e.editedAt && r.deleted == e.deleted
    && (r.encVerified <==> e.encVerified && e.encMode == EndToEnd)
    && r.encMode == (if r.encVerified then EndToEnd
                     else if e.encMode == Downgraded || (e.encVerified && e.encMode == Server) then Downgraded
                     else Blank)
    && (e.seqNo != 0 ==> r.seqNo == e.seqNo)
    && (e.seqNo == 0 ==> r.seqNo == if l == [] then 1 else l[|l| - 1].seqNo + 1)
    && r.sentAt == if e.sentAt != 0 then e.sentAt else now
  }

  lemma RedeliveredIsDuplicate(l: Log, e: Entry, now: int)
    ensures Redelivered(l, e) <==> Duplicate(l, Prepared(l, e, now))
    ensures StoredAs(l, e, now, Prepared(l, e, now))
  {
    var p := Prepared(l, e, now);
    forall i | 0 <= i < |l|
      ensures SameMessage(l[i], p) <==> l[i].id == e.id && l[i].self == e.self && l[i].protocol == e.protocol {}
  }

  lemma {:induction false} NoneAlive(ws: seq<Waiting>, now: int)
    requires forall i :: 0 <= i < |ws| ==> ws[i].expires <= now
    ensures Alive(ws, now) == []
  {
    if ws != [] { NoneAlive(ws[..|ws| - 1], now); }
  }

  /**
   * A message that is no redelivery and that no change waits for becomes the last record, as it arrived,
   * after the newest 4999 records before it; other conversations and waiting changes stay.
   */
  lemma ArrivesAsSent(s: State, peer: string, e: Entry, now: int)
    requires peer != "" && !Redelivered(LogOf(s, peer), e) && NothingWaits(s, peer, e.id, now)
    ensures var l, l' := LogOf(s, peer), LogOf(Append(s, peer, e, now), peer);
            && l' != [] && StoredAs(l, e, now, l'[|l'| - 1])
            && l'[..|l'| - 1] == (if |l| < 5000 then l else l[|l| - 4999..])
    ensures forall other :: other != peer ==> LogOf(Append(s, peer, e, now), other) == LogOf(s, other)
    ensures forall k :: k != (peer, e.id) ==> At(Append(s, peer, e, now).waiting, k) == At(s.waiting, k)
  {
    var l := LogOf(s, peer);
    RedeliveredIsDuplicate(l, e, now);
    AppendsNew(s, peer, e, now);
    if e.id != "" { NoneAlive(At(s.waiting, (peer, e.id)), now); }
  }

  /** A redelivery changes nothing, and neither does a message without a conversation. */
  lemma RedeliveryIsDropped(s: State, peer: string, e: Entry, now: int)
    requires peer == "" || Redelivered(LogOf(s, peer), e)
    ensures Append(s, peer, e, now) == s
  {
    RedeliveredIsDuplicate(LogOf(s, peer), e, now);
  }

  /** The first record that the change's own author wrote under that ID, among the legacy ones. */
  predicate FirstOwn(l: Log, c: Change, i: int) {
    && 0 <= i < |l| && l[i].id == c.ref && l[i].protocol == "" && l[i].from == c.from
    && forall j :: 0 <= j < i ==> !(l[j].id == c.ref && l[j].protocol == "" && l[j].from == c.from)
  }

  /** A record that is not deleted is given the new body, marked as edited and verified, or is blanked for good. */
  predicate ChangedAs(e: Entry, c: Change, r: Entry) {
    && r.id == e.id && r.from == e.from && r.self == e.self && r.protocol == e.protocol
    && r.seqNo == e.seqNo && r.sentAt == e.sentAt
    && (e.deleted || c.action == Unknown ==> r == e)
    && (!e.deleted && c.action == Edit ==>
          && r.body == c.body && r.edited && r.editedAt == c.at && !r.deleted
          && r.encVerified && r.encMode == EndToEnd)
    && (!e.deleted && c.action == Delete ==>
          && r.deleted && r.body == "" && r.edited == e.edited && r.editedAt == e.editedAt
          && r.encVerified == e.encVerified && r.encMode == e.encMode)
  }

  lemma FirstOwnIsTarget(l: Log, c: Change, i: nat)
    requires FirstOwn(l, c, i)
    ensures Target(l, c) == i
  {
    assert Concerns(l[i], c) && l[i].from == c.from;
  }

  /** A change to a stored message changes the first legacy record of its author under that ID and no other. */
  lemma ChangesTheFirstOwn(s: State, peer: string, c: Change, now: int, i: nat)
    requires peer != "" && c.ref != "" && c.from != "" && FirstOwn(LogOf(s, peer), c, i) && |LogOf(s, peer)| <= 5000
    ensures var l, l' := LogOf(s, peer), LogOf(Amend(s, peer, c, now), peer);
            |l'| == |l| && ChangedAs(l[i], c, l'[i]) && forall j :: 0 <= j < |l| && j != i ==> l'[j] == l[j]
    ensures Amend(s, peer, c, now).waiting == s.waiting
    ensures forall other :: other != peer ==> LogOf(Amend(s, peer, c, now), other) == LogOf(s, other)
  {
    FirstOwnIsTarget(LogOf(s, peer), c, i);
  }

  /** A change that finds no legacy record waits, ten minutes; one that finds only other people's is dropped. */
  lemma ChangesNothingYet(s: State, peer: string, c: Change, now: int)
    requires peer != "" && c.ref != "" && c.from != ""
    requires forall i :: 0 <= i < |LogOf(s, peer)| ==> !FirstOwn(LogOf(s, peer), c, i)
    ensures Amend(s, peer, c, now).logs == s.logs
    ensures var known := exists i :: 0 <= i < |LogOf(s, peer)| && LogOf(s, peer)[i].id == c.ref
                                     && LogOf(s, peer)[i].protocol == "";
            && (known ==> Amend(s, peer, c, now) == s)
            && (!known ==>
                  var row := At(Amend(s, peer, c, now).waiting, (peer, c.ref));
                  row != [] && row[|row| - 1] == Waiting(c, now + 600))
  {
    var l := LogOf(s, peer);
    var t := Target(l, c);
    if t < |l| { assert FirstOwn(l, c, t); }
    assert Known(l, c) <==> exists i :: 0 <= i < |l| && l[i].id == c.ref && l[i].protocol == "" by {
      if i :| 0 <= i < |l| && l[i].id == c.ref && l[i].protocol == "" { assert Concerns(l[i], c); }
      if i :| 0 <= i < |l| && Concerns(l[i], c) { assert l[i].id == c.ref && l[i].protocol == ""; }
    }
  }

  // ----- the table of waiting changes ----------------------------------------------------------

  lemma {:induction false} AliveHas(ws: seq<Waiting>, now: int, w: Waiting)
    ensures w in Alive(ws, now) <==> w in ws && w.expires > now
  {
    if ws != [] { AliveHas(ws[..|ws| - 1], now, w); }
  }

  lemma {:induction false} AllAlive(ws: seq<Waiting>, now: int)
    requires forall i :: 0 <= i < |ws| ==> ws[i].expires > now
    ensures Alive(ws, now) == ws
  {
    if ws != [] { AllAlive(ws[..|ws| - 1], now); }
  }

  /** Some stored change has waited too long. */
  ghost predicate AnyExpired(t: Table, now: int) {
    exists k, i :: k in t && 0 <= i < |t[k]| && t[k][i].expires <= now
  }

  lemma PrunedRows(t: Table, now: int, k: Key)
    ensures At(Pruned(t, now), k) == Alive(At(t, k), now)
  {
  }

  lemma {:induction false} ShorterAlive(ws: seq<Waiting>, now: int, i: nat)
    requires i < |ws| && ws[i].expires <= now
    ensures |Alive(ws, now)| < |ws|
  {
    if i < |ws| - 1 { ShorterAlive(ws[..|ws| - 1], now, i); }
  }

  lemma PrunedSlots(t: Table, now: int)
    ensures Slots(Pruned(t, now)) <= Slots(t)
    ensures AnyExpired(t, now) ==> Slots(Pruned(t, now)) < Slots(t)
  {
    forall x | x in Slots(Pruned(t, now)) ensures x in Slots(t) { PrunedRows(t, now, x.0); }
    if k, i :| k in t && 0 <= i < |t[k]| && t[k][i].expires <= now {
      ShorterAlive(t[k], now, i);
      PrunedRows(t, now, k);
      assert (k, |t[k]| - 1) in Slots(t) && (k, |t[k]| - 1) !in Slots(Pruned(t, now));
    }
  }

  lemma FewerSlots(a: set<(Key, nat)>, b: set<(Key, nat)>)
    requires a <= b
    ensures |a| <= |b| && (a < b ==> |a| < |b|)
  {
    assert b == a + (b - a);
    if a < b { var x :| x in b - a; }
  }

  /**
   * What adding to the table costs the others: nothing below the cap of 256; at the cap the expired
   * changes, and only if none has expired all of them.
   */
  lemma WhatAddingCosts(t: Table, k: Key, c: Change, now: int, other: Key, w: Waiting)
    requires Size(t) <= 256 && w in At(t, other)
    ensures w in At(Added(t, k, c, now), other) || w == Waiting(c, now + 600)
            <==> w == Waiting(c, now + 600) || Size(t) < 256 || (w.expires > now && AnyExpired(t, now))
  {
    PrunedSlots(t, now);
    FewerSlots(Slots(Pruned(t, now)), Slots(t));
    PrunedRows(t, now, other);
    AliveHas(At(t, other), now, w);
    if !AnyExpired(t, now) { NoneExpired(t, now); }
  }

  lemma NoneExpired(t: Table, now: int)
    requires !AnyExpired(t, now)
    ensures Size(Pruned(t, now)) == Size(t)
  {
    forall x | x in Slots(t) ensures x in Slots(Pruned(t, now)) {
      AllAlive(t[x.0], now);
      PrunedRows(t, now, x.0);
    }
    PrunedSlots(t, now);
    assert Slots(Pruned(t, now)) == Slots(t);
  }

  // ----- every history -------------------------------------------------------------------------

  /** The change, as the author of the record made it to this message. */
  predicate OwnChange(ev: Event, peer: string, r: Entry) {
    ev.Changed? && ev.peer == peer && ev.change.ref == r.id && ev.change.from == r.from
  }

  /** Where a record's body comes from: the message itself, one of its author's edits, or a deletion. */
  ghost predicate BodyCame(evs: seq<Event>, peer: string, r: Entry, e: Entry) {
    || (r.body == e.body && r.deleted == e.deleted)
    || (exists j :: 0 <= j < |evs| && OwnChange(evs[j], peer, r) && evs[j].change.action == Edit
                    && r.body == evs[j].change.body)
    || (r.deleted && r.body == "" &&
        exists j :: 0 <= j < |evs| && OwnChange(evs[j], peer, r) && evs[j].change.action == Delete)
  }

  predicate SameOrigin(ev: Event, peer: string, r: Entry) {
    IsMessage(ev, peer, r.id) && ev.entry.from == r.from && ev.entry.self == r.self && ev.entry.protocol == r.protocol
  }

  ghost predicate Came(evs: seq<Event>, peer: string, r: Entry) {
    exists k :: 0 <= k < |evs| && SameOrigin(evs[k], peer, r) && BodyCame(evs, peer, r, evs[k].entry)
  }

  ghost predicate ChangeCame(evs: seq<Event>, key: Key, c: Change) {
    exists j :: 0 <= j < |evs| && evs[j].Changed? && evs[j].change == c && key == (evs[j].peer, c.ref)
  }

  lemma CameLater(evs: seq<Event>, ev: Event, peer: string, r: Entry)
    requires Came(evs, peer, r)
    ensures Came(evs + [ev], peer, r)
  {
    var k :| 0 <= k < |evs| && SameOrigin(evs[k], peer, r) && BodyCame(evs, peer, r, evs[k].entry);
    var all := evs + [ev];
    assert forall j :: 0 <= j < |evs| ==> all[j] == evs[j];
    assert SameOrigin(all[k], peer, r) && BodyCame(all, peer, r, all[k].entry);
  }

  /** One change by the record's author leaves it with a body that came. */
  lemma AppliedCame(evs: seq<Event>, peer: string, r: Entry, c: Change)
    requires Came(evs, peer, r) && c.from == r.from && ChangeCame(evs, (peer, r.id), c)
    ensures Came(evs, peer, Apply(r, c))
  {
    var k :| 0 <= k < |evs| && SameOrigin(evs[k], peer, r) && BodyCame(evs, peer, r, evs[k].entry);
    var j :| 0 <= j < |evs| && evs[j].Changed? && evs[j].change == c && (peer, r.id) == (evs[j].peer, c.ref);
    var r' := Apply(r, c);
    assert OwnChange(evs[j], peer, r');
    assert SameOrigin(evs[k], peer, r') && BodyCame(evs, peer, r', evs[k].entry);
  }

  lemma {:induction false} FoldedCame(evs: seq<Event>, peer: string, r: Entry, cs: seq<Change>)
    requires Came(evs, peer, r) && forall i :: 0 <= i < |cs| ==> ChangeCame(evs, (peer, r.id), cs[i])
    ensures Came(evs, peer, Fold(r, cs))
  {
    if cs != [] {
      var before := cs[..|cs| - 1];
      FoldedCame(evs, peer, r, before);
      FoldEvolves(r, before);
      if cs[|cs| - 1].from == r.from { AppliedCame(evs, peer, Fold(r, before), cs[|cs| - 1]); }
    }
  }

  /** Every record and every waiting change of the state came with some event. */
  ghost predicate AllCame(evs: seq<Event>, s: State) {
    && (forall peer, i {:trigger s.logs[peer][i]} :: peer in s.logs && 0 <= i < |s.logs[peer]| ==>
          Came(evs, peer, s.logs[peer][i]))
    && (forall k, i {:trigger s.waiting[k][i]} :: k in s.waiting && 0 <= i < |s.waiting[k]| ==>
          ChangeCame(evs, k, s.waiting[k][i].change))
  }

  ghost predicate LogCame(evs: seq<Event>, peer: string, l: Log) {
    forall i :: 0 <= i < |l| ==> Came(evs, peer, l[i])
  }

  ghost predicate RowCame(evs: seq<Event>, k: Key, ws: seq<Waiting>) {
    forall i :: 0 <= i < |ws| ==> ChangeCame(evs, k, ws[i].change)
  }

  lemma AllCameLater(evs: seq<Event>, ev: Event, s: State)
    requires AllCame(evs, s)
    ensures AllCame(evs + [ev], s)
  {
    var all := evs + [ev];
    forall peer, i | peer in s.logs && 0 <= i < |s.logs[peer]| ensures Came(all, peer, s.logs[peer][i]) {
      CameLater(evs, ev, peer, s.logs[peer][i]);
    }
    forall k, i | k in s.waiting && 0 <= i < |s.waiting[k]| ensures ChangeCame(all, k, s.waiting[k][i].change) {
      var j :| 0 <= j < |evs| && evs[j].Changed? && evs[j].change == s.waiting[k][i].change
               && k == (evs[j].peer, evs[j].change.ref);
      assert all[j] == evs[j];
    }
  }

  lemma {:induction false} AliveCame(evs: seq<Event>, k: Key, ws: seq<Waiting>, now: int)
    requires RowCame(evs, k, ws)
    ensures RowCame(evs, k, Alive(ws, now))
  {
    if ws != [] { AliveCame(evs, k, ws[..|ws| - 1], now); }
  }

  lemma PreparedCame(all: seq<Event>, l: Log, peer: string, e: Entry, now: int)
    requires Message(peer, e, now) in all
    ensures Came(all, peer, Prepared(l, e, now))
  {
    var p := Prepared(l, e, now);
    var k :| 0 <= k < |all| && all[k] == Message(peer, e, now);
    assert SameOrigin(all[k], peer, p) && BodyCame(all, peer, p, all[k].entry);
  }

  lemma MetCame(all: seq<Event>, s: State, peer: string, id: string, now: int)
    requires AllCame(all, s)
    ensures forall i :: 0 <= i < |Met(s, peer, id, now)| ==> ChangeCame(all, (peer, id), Met(s, peer, id, now)[i])
  {
    if id != "" { AliveCame(all, (peer, id), At(s.waiting, (peer, id)), now); }
  }

  lemma AppendedLogCame(all: seq<Event>, s: State, peer: string, e: Entry, now: int)
    requires AllCame(all, s) && Message(peer, e, now) in all && peer != ""
    requires !Duplicate(LogOf(s, peer), Prepared(LogOf(s, peer), e, now))
    ensures LogCame(all, peer, LogOf(Append(s, peer, e, now), peer))
  {
    var l := LogOf(s, peer);
    PreparedCame(all, l, peer, e, now);
    MetCame(all, s, peer, e.id, now);
    FoldedCame(all, peer, Prepared(l, e, now), Met(s, peer, e.id, now));
    AppendsNew(s, peer, e, now);
    assert LogCame(all, peer, l);
    TailCame(all, peer, l, Fold(Prepared(l, e, now), Met(s, peer, e.id, now)));
  }

  lemma AppendCame(all: seq<Event>, s: State, peer: string, e: Entry, now: int)
    requires AllCame(all, s) && Message(peer, e, now) in all
    ensures AllCame(all, Append(s, peer, e, now))
  {
    if peer != "" && !Duplicate(LogOf(s, peer), Prepared(LogOf(s, peer), e, now)) {
      AppendedLogCame(all, s, peer, e, now);
      var s' := Append(s, peer, e, now);
      assert s'.logs == s.logs[peer := LogOf(s', peer)];
    }
  }

  lemma TailCame(all: seq<Event>, peer: string, l: Log, r: Entry)
    requires LogCame(all, peer, l) && Came(all, peer, r)
    ensures LogCame(all, peer, Tail(l) + [r])
  {
    forall i | 0 <= i < |Tail(l)| ensures Came(all, peer, Tail(l)[i]) { assert Tail(l)[i] == l[|l| - |Tail(l)| + i]; }
  }

  lemma AddedCame(all: seq<Event>, t: Table, k: Key, c: Change, now: int, key: Key)
    requires forall x :: x in t ==> RowCame(all, x, t[x])
    requires ChangeCame(all, k, c)
    ensures RowCame(all, key, At(Added(t, k, c, now), key))
  {
    PrunedRows(t, now, key);
    if key in t { AliveCame(all, key, t[key], now); }
    var room := WithRoom(t, now);
    assert RowCame(all, key, At(room, key));
  }

  lemma AmendCame(all: seq<Event>, s: State, peer: string, c: Change, now: int)
    requires AllCame(all, s) && Changed(peer, c, now) in all
    ensures AllCame(all, Amend(s, peer, c, now))
  {
    var l := LogOf(s, peer);
    var t := Target(l, c);
    var j :| 0 <= j < |all| && all[j] == Changed(peer, c, now);
    assert ChangeCame(all, (peer, c.ref), c);
    var s' := Amend(s, peer, c, now);
    if WellFormed(peer, c) && t < |l| {
      AppliedCame(all, peer, l[t], c);
      var l' := l[t := Apply(l[t], c)];
      assert LogCame(all, peer, l');
      assert s'.logs == s.logs[peer := Trim(l')];
      forall i | 0 <= i < |Trim(l')| ensures Came(all, peer, Trim(l')[i]) {
        assert Trim(l')[i] == l'[|l'| - |Trim(l')| + i];
      }
    } else if WellFormed(peer, c) && !Known(l, c) {
      forall x | x in s.waiting ensures RowCame(all, x, s.waiting[x]) {}
      forall key | key in s'.waiting ensures RowCame(all, key, s'.waiting[key]) {
        AddedCame(all, s.waiting, (peer, c.ref), c, now, key);
      }
    }
  }

  lemma {:induction false} ReplayCame(evs: seq<Event>)
    ensures AllCame(evs, Replay(EMPTY, evs))
  {
    if evs != [] {
      var before, ev := evs[..|evs| - 1], evs[|evs| - 1];
      ReplayCame(before);
      AllCameLater(before, ev, Replay(EMPTY, before));
      assert before + [ev] == evs;
      match ev
      case Message(peer, e, now) => AppendCame(evs, Replay(EMPTY, before), peer, e, now);
      case Changed(peer, c, now) => AmendCame(evs, Replay(EMPTY, before), peer, c, now);
    }
  }

  /**
   * Over any history, full tables, trimmed logs and late changes included, every stored record is a
   * message that arrived in that conversation, and its body is the message's own, that of one of its
   * author's edits of it, or blank after its author's deletion.
   */
  lemma EveryBodyWasSent(evs: seq<Event>, peer: string, i: nat)
    requires i < |LogOf(Replay(EMPTY, evs), peer)|
    ensures Came(evs, peer, LogOf(Replay(EMPTY, evs), peer)[i])
  {
    ReplayCame(evs);
  }

  // ----- what each record shows ----------------------------------------------------------------

  predicate OwnEditAt(ev: Event, peer: string, r: Entry) {
    Names(ev, peer, r.id) && ev.change.from == r.from && ev.change.action == Edit
  }

  predicate OwnDeleteAt(ev: Event, peer: string, r: Entry) {
    Names(ev, peer, r.id) && ev.change.from == r.from && ev.change.action == Delete
  }

  predicate LastEdit(evs: seq<Event>, peer: string, r: Entry, j: int) {
    0 <= j < |evs| && OwnEditAt(evs[j], peer, r) && forall k :: j < k < |evs| ==> !OwnEditAt(evs[k], peer, r)
  }

  /** The record shows the author's last edit, or the body it came with, and is blank exactly if it was deleted. */
  ghost predicate Shows(evs: seq<Event>, peer: string, r: Entry, e: Entry) {
    && (r.deleted <==> e.deleted || exists j :: 0 <= j < |evs| && OwnDeleteAt(evs[j], peer, r))
    && (r.deleted && !e.deleted ==> r.body == "")
    && (forall j :: !r.deleted && LastEdit(evs, peer, r, j) ==> r.body == evs[j].change.body)
    && (!r.deleted && (forall j :: 0 <= j < |evs| ==> !OwnEditAt(evs[j], peer, r)) ==> r.body == e.body)
  }

  lemma ShowsOneMore(evs: seq<Event>, ev: Event, peer: string, r: Entry, r': Entry, e: Entry)
    requires Shows(evs, peer, r, e) && r'.id == r.id && r'.from == r.from
    requires r' == if Names(ev, peer, r.id) && ev.change.from == r.from then Apply(r, ev.change) else r
    ensures Shows(evs + [ev], peer, r', e)
  {
    var all := evs + [ev];
    forall j | 0 <= j < |evs| ensures all[j] == evs[j] {}
    assert all[|evs|] == ev;
    if !OwnEditAt(ev, peer, r) {
      forall j | !r'.deleted && LastEdit(all, peer, r', j) ensures r'.body == all[j].change.body {
        assert OwnEditAt(evs[j], peer, r);
        forall k | j < k < |evs| ensures !OwnEditAt(evs[k], peer, r) { assert !OwnEditAt(all[k], peer, r'); }
        assert LastEdit(evs, peer, r, j);
      }
    }
    DeletedOneMore(evs, ev, peer, r, r', e);
  }

  lemma DeletedOneMore(evs: seq<Event>, ev: Event, peer: string, r: Entry, r': Entry, e: Entry)
    requires Shows(evs, peer, r, e) && r'.id == r.id && r'.from == r.from
    requires r' == if Names(ev, peer, r.id) && ev.change.from == r.from then Apply(r, ev.change) else r
    ensures r'.deleted <==> e.deleted || exists j :: 0 <= j < |evs + [ev]| && OwnDeleteAt((evs + [ev])[j], peer, r')
  {
    var all := evs + [ev];
    assert all[|evs|] == ev;
    if j :| 0 <= j < |evs| && OwnDeleteAt(evs[j], peer, r) { assert OwnDeleteAt(all[j], peer, r'); }
    if j :| 0 <= j < |all| && OwnDeleteAt(all[j], peer, r') && j < |evs| { assert OwnDeleteAt(evs[j], peer, r); }
    if OwnDeleteAt(ev, peer, r) { assert OwnDeleteAt(all[|evs|], peer, r'); }
  }

  lemma {:induction false} FoldShows(evs: seq<Event>, peer: string, e: Entry)
    ensures Shows(evs, peer, Fold(e, Changes(ChangesTo(evs, peer, e.id))), e)
  {
    if evs != [] {
      var before, ev := evs[..|evs| - 1], evs[|evs| - 1];
      var cs := Changes(ChangesTo(before, peer, e.id));
      FoldShows(before, peer, e);
      FoldEvolves(e, cs);
      if Names(ev, peer, e.id) {
        assert Changes(ChangesTo(evs, peer, e.id)) == cs + [ev.change];
        FoldMore(e, cs, ev.change);
      }
      FoldEvolves(e, Changes(ChangesTo(evs, peer, e.id)));
      ShowsOneMore(before, ev, peer, Fold(e, cs), Fold(e, Changes(ChangesTo(evs, peer, e.id))), e);
      assert before + [ev] == evs;
    }
  }

  predicate BareOf(ev: Event, peer: string, b: Entry) {
    SameOrigin(ev, peer, b) && b.body == ev.entry.body && b.deleted == ev.entry.deleted
  }

  lemma {:induction false} BareAsSent(evs: seq<Event>, peer: string, i: nat)
    requires i < |Bare(evs, peer)|
    ensures exists k :: 0 <= k < |evs| && BareOf(evs[k], peer, Bare(evs, peer)[i])
  {
    var before, last := evs[..|evs| - 1], evs[|evs| - 1];
    var l := Bare(before, peer);
    if i < |l| {
      BareAsSent(before, peer, i);
      var k :| 0 <= k < |before| && BareOf(before[k], peer, l[i]);
      assert evs[k] == before[k];
    } else {
      assert BareOf(last, peer, Bare(evs, peer)[i]);
    }
  }

  /**
   * In an ordinary history each record is a message that arrived, and shows its author's last edit of it,
   * wherever that arrived, or else its own body; it is blank exactly if its author deleted it.
   */
  lemma EachRecordShows(evs: seq<Event>, peer: string, i: nat)
    requires Ordinary(evs, peer) && i < |LogOf(Replay(EMPTY, evs), peer)|
    ensures var r := LogOf(Replay(EMPTY, evs), peer)[i];
            exists k :: 0 <= k < |evs| && SameOrigin(evs[k], peer, r) && Shows(evs, peer, r, evs[k].entry)
  {
    LogIsCanonical(evs, peer);
    var b := Bare(evs, peer)[i];
    var r := Fold(b, Changes(ChangesTo(evs, peer, b.id)));
    BareAsSent(evs, peer, i);
    var k :| 0 <= k < |evs| && BareOf(evs[k], peer, b);
    FoldShows(evs, peer, b);
    FoldEvolves(b, Changes(ChangesTo(evs, peer, b.id)));
    assert LogOf(Replay(EMPTY, evs), peer)[i] == r;
    assert SameOrigin(evs[k], peer, r) && Shows(evs, peer, r, evs[k].entry);
  }
}
