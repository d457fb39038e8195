/**
 * The direct-message log and the edits and deletions made to it: a change may arrive before
 * the message it changes, and then waits, for a bounded time and in a bounded table.
 */
module DmChanges {
  const MAX_PENDING := 256
  const PENDING_TTL := 600
  const HISTORY_MAX := 5000

  datatype Action = Edit | Delete | Unknown
  datatype Change = Change(action: Action, ref: string, from: string, body: string, at: int)
  /** The recorded protection of a body: none, "e2e", "server", "downgraded" or some other text. */
  datatype EncMode = Blank | EndToEnd | Server | Downgraded | OtherMode(text: string)
  datatype Entry = Entry(id: string, from: string, self: bool, protocol: string, body: string, seqNo: int, sentAt: int,
                         edited: bool, editedAt: int, deleted: bool, encVerified: bool, encMode: EncMode)
  datatype Waiting = Waiting(change: Change, expires: int)

  /** A conversation's log file and the ID of the message waited for. */
  type Key = (string, string)
  type Table = map<Key, seq<Waiting>>

  /* The encryption marker of a record. */

  function EncState(verified: bool, mode: EncMode): (bool, EncMode) {
    if verified then
      if mode.Blank? || mode.EndToEnd? then (true, EndToEnd)
      else if mode.Server? || mode.Downgraded? then (false, Downgraded)
      else (false, Blank)
    else if mode.Downgraded? then (false, Downgraded) else (false, Blank)
  }

  function Normalize(e: Entry): (r: Entry)
    ensures r.encVerified ==> e.encVerified && e.encMode.EndToEnd?
  {
    if e.encVerified && e.encMode.Blank? then e.(encVerified := false)
    else e.(encVerified := EncState(e.encVerified, e.encMode).0, encMode := EncState(e.encVerified, e.encMode).1)
  }

  /** A stored marker is read back as stored, and is verified only if it was stored as end-to-end. */
  lemma NormalizedReadsBack(e: Entry)
    ensures var n := Normalize(e); EncState(n.encVerified, n.encMode) == (n.encVerified, n.encMode)
    ensures EncState(Normalize(e).encVerified, Normalize(e).encMode).0 <==> e.encVerified && e.encMode.EndToEnd?
  {
  }

  /* Changing one record. */

  function Apply(e: Entry, c: Change): Entry {
    if e.deleted then e
    else match c.action
      case Edit => e.(body := c.body, edited := true, editedAt := c.at, encVerified := true, encMode := EndToEnd)
      case Delete => e.(body := "", deleted := true)
      case Unknown => e
  }

  /** All changes of a list that the record's own sender made, in order. */
  function Fold(e: Entry, cs: seq<Change>): Entry {
    if cs == [] then e
    else
      var c, before := cs[|cs| - 1], Fold(e, cs[..|cs| - 1]);
      if c.from == e.from then Apply(before, c) else before
  }

  /** What may become of a stored record: its identity is fixed and its deletion is final. */
  predicate Evolves(a: Entry, b: Entry) {
    && b.id == a.id && b.from == a.from && b.self == a.self && b.protocol == a.protocol
    && b.seqNo == a.seqNo && b.sentAt == a.sentAt
    && (a.deleted ==> b == a)
    && (b == a || b.deleted || b.edited)
  }

  lemma {:induction false} FoldEvolves(e: Entry, cs: seq<Change>)
    ensures Evolves(e, Fold(e, cs))
  {
    if cs != [] { FoldEvolves(e, cs[..|cs| - 1]); }
  }

  /** Once a deletion is among the sender's changes, the record is deleted whatever follows. */
  lemma {:induction false} DeletionWins(e: Entry, cs: seq<Change>, i: nat)
    requires i < |cs| && cs[i].action == Delete && cs[i].from == e.from
    ensures Fold(e, cs).deleted && (!e.deleted ==> Fold(e, cs).body == "")
  {
    FoldEvolves(e, cs[..|cs| - 1]);
    if i < |cs| - 1 { DeletionWins(e, cs[..|cs| - 1], i); } else { BlankWhenDeleted(e, cs[..i]); }
  }

  lemma {:induction false} BlankWhenDeleted(e: Entry, cs: seq<Change>)
    ensures !e.deleted && Fold(e, cs).deleted ==> Fold(e, cs).body == ""
  {
    if cs != [] { BlankWhenDeleted(e, cs[..|cs| - 1]); }
  }

  predicate OwnDelete(e: Entry, c: Change) { c.from == e.from && c.action == Delete }
  predicate OwnEdit(e: Entry, c: Change) { c.from == e.from && c.action == Edit }

  /** A record ends up deleted exactly if it was or its sender deleted it. */
  lemma {:induction false} DeletedIff(e: Entry, cs: seq<Change>)
    ensures Fold(e, cs).deleted <==> e.deleted || exists i :: 0 <= i < |cs| && OwnDelete(e, cs[i])
  {
    if cs != [] {
      var before := cs[..|cs| - 1];
      DeletedIff(e, before);
      FoldEvolves(e, before);
      if i :| 0 <= i < |before| && OwnDelete(e, before[i]) { assert OwnDelete(e, cs[i]); }
      if OwnDelete(e, cs[|cs| - 1]) { assert Fold(e, cs).deleted; }
    }
  }

  /** Of a record that was not deleted, the sender's last edit is what shows, as a verified body. */
  lemma {:induction false} LastEditShows(e: Entry, cs: seq<Change>, i: nat)
    requires i < |cs| && OwnEdit(e, cs[i]) && !Fold(e, cs).deleted
    requires forall j :: i < j < |cs| ==> !OwnEdit(e, cs[j])
    ensures var r := Fold(e, cs);
              r.body == cs[i].body && r.edited && r.editedAt == cs[i].at && r.encVerified && r.encMode == EndToEnd
  {
    if i < |cs| - 1 { LastEditShows(e, cs[..|cs| - 1], i); }
  }

  /** Other people's changes do nothing. */
  lemma {:induction false} OthersChangeNothing(e: Entry, cs: seq<Change>)
    requires forall i :: 0 <= i < |cs| ==> cs[i].from != e.from
    ensures Fold(e, cs) == e
  {
    if cs != [] { OthersChangeNothing(e, cs[..|cs| - 1]); }
  }

  /* The table of waiting changes. */

  function At(t: Table, k: Key): seq<Waiting> { if k in t then t[k] else [] }

  function Alive(ws: seq<Waiting>, now: int): (r: seq<Waiting>)
    ensures |r| <= |ws|
  {
    if ws == [] then []
    else
      var w := ws[|ws| - 1];
      Alive(ws[..|ws| - 1], now) + (if w.expires > now then [w] else [])
  }

  function Pruned(t: Table, now: int): Table { map k | k in t && Alive(t[k], now) != [] :: Alive(t[k], now) }

  /** The table half way through pruning: the keys of `todo` are still as they were. */
  function PrunedExcept(t: Table, todo: set<Key>, now: int): Table {
    map k | k in t && (k in todo || Alive(t[k], now) != []) :: if k in todo then t[k] else Alive(t[k], now)
  }

  function PrunedAt(t: Table, k: Key, now: int): Table
    requires k in t
  {
    var kept := Alive(t[k], now);
    if kept == [] then t - {k} else t[k := kept]
  }

  lemma PruneEnds(t: Table, now: int)
    ensures PrunedExcept(t, t.Keys, now) == t && PrunedExcept(t, {}, now) == Pruned(t, now)
  {
  }

  lemma PruneStep(t: Table, todo: set<Key>, k: Key, now: int)
    requires k in todo && todo <= t.Keys
    ensures k in PrunedExcept(t, todo, now)
    ensures PrunedAt(PrunedExcept(t, todo, now), k, now) == PrunedExcept(t, todo - {k}, now)
  {
  }

  function Changes(ws: seq<Waiting>): (cs: seq<Change>)
    ensures |cs| == |ws| && forall i :: 0 <= i < |cs| ==> cs[i] == ws[i].change
  {
    seq(|ws|, i requires 0 <= i < |ws| => ws[i].change)
  }

  /** Every stored change, as its key and position; the table's size is their number. */
  ghost function Slots(t: Table): set<(Key, nat)> { set k, i: nat | k in t && 0 <= i < |t[k]| :: (k, i) }

  ghost function Size(t: Table): nat { |Slots(t)| }

  ghost function Row(k: Key, n: nat): set<(Key, nat)> { set i: nat | 0 <= i < n :: (k, i) }

  lemma {:induction false} RowSize(k: Key, n: nat)
    ensures |Row(k, n)| == n
  {
    if n > 0 {
      RowSize(k, n - 1);
      assert Row(k, n) == Row(k, n - 1) + {(k, n - 1)};
    }
  }

  lemma SizeOfRemoval(t: Table, k: Key)
    ensures Size(t - {k}) == Size(t) - |At(t, k)|
  {
    var had := Row(k, |At(t, k)|);
    assert had <= Slots(t);
    assert Slots(t - {k}) == Slots(t) - had;
    RowSize(k, |At(t, k)|);
  }

  lemma SizeOfUpdate(t: Table, k: Key, ws: seq<Waiting>)
    ensures Size(t[k := ws]) == Size(t) - |At(t, k)| + |ws|
  {
    SizeOfRemoval(t, k);
    SizeOfRemoval(t[k := ws], k);
    assert t[k := ws] - {k} == t - {k};
  }

  /** The table with room for one more: pruned when full, emptied when pruning frees nothing. */
  ghost function WithRoom(t: Table, now: int): Table {
    if Size(t) < MAX_PENDING then t
    else if Size(Pruned(t, now)) < MAX_PENDING then Pruned(t, now)
    else map[]
  }

  ghost function Added(t: Table, k: Key, c: Change, now: int): Table {
    var room := WithRoom(t, now);
    room[k := At(room, k) + [Waiting(c, now + PENDING_TTL)]]
  }

  lemma AddedSize(t: Table, k: Key, c: Change, now: int)
    ensures 0 < Size(Added(t, k, c, now)) <= MAX_PENDING
    ensures Size(t) < MAX_PENDING ==> Size(Added(t, k, c, now)) == Size(t) + 1
  {
    var room := WithRoom(t, now);
    SizeOfUpdate(room, k, At(room, k) + [Waiting(c, now + PENDING_TTL)]);
    assert Slots(map[]) == {};
  }

  lemma AddedWithRoom(t: Table, k: Key, c: Change, now: int)
    requires Size(t) < MAX_PENDING
    ensures Added(t, k, c, now) == t[k := At(t, k) + [Waiting(c, now + PENDING_TTL)]]
  {
  }

  class PendingChanges {
    var entries: Table
    var count: int

    ghost predicate Valid()
      reads this
    {
      count == Size(entries) <= MAX_PENDING
    }

    constructor ()
      ensures Valid() && entries == map[]
    {
      entries, count := map[], 0;
      assert Slots(map[]) == {};
    }

    method Keep(waiting: seq<Waiting>, now: int) returns (kept: seq<Waiting>)
      ensures kept == Alive(waiting, now)
    {
      kept := [];
      for i := 0 to |waiting|
        invariant kept == Alive(waiting[..i], now)
      {
        assert waiting[..i + 1][..i] == waiting[..i];
        if waiting[i].expires > now { kept := kept + [waiting[i]]; }
      }
      assert waiting[..|waiting|] == waiting;
    }

    method PruneKey(key: Key, now: int)
      requires key in entries && count == Size(entries)
      modifies this
      ensures count == Size(entries) <= old(count)
      ensures entries == PrunedAt(old(entries), key, now)
    {
      var kept := Keep(entries[key], now);
      count := count - (|entries[key]| - |kept|);
      if |kept| == 0 {
        SizeOfRemoval(entries, key);
        entries := entries - {key};
      } else {
        SizeOfUpdate(entries, key, kept);
        entries := entries[key := kept];
      }
    }

    method Prune(now: int)
      requires Valid()
      modifies this
      ensures Valid() && entries == Pruned(old(entries), now)
    {
      ghost var was := entries;
      var todo := entries.Keys;
      PruneEnds(was, now);
      while todo != {}
        invariant todo <= was.Keys && count == Size(entries) <= MAX_PENDING
        invariant entries == PrunedExcept(was, todo, now)
        decreases |todo|
      {
        var key :| key in todo;
        PruneStep(was, todo, key, now);
        PruneKey(key, now);
        todo := todo - {key};
      }
    }

    method Add(path: string, c: Change, now: int)
      requires Valid()
      modifies this
      ensures Valid() && entries == Added(old(entries), (path, c.ref), c, now)
    {
      AddedSize(entries, (path, c.ref), c, now);
      if count >= MAX_PENDING {
        Prune(now);
        if count >= MAX_PENDING { entries, count := map[], 0; }
      }
      assert Slots(map[]) == {};
      var key := (path, c.ref);
      var row := (if key in entries then entries[key] else []) + [Waiting(c, now + PENDING_TTL)];
      SizeOfUpdate(entries, key, row);
      entries := entries[key := row];
      count := count + 1;
    }

    method Take(path: string, ref: string, now: int) returns (out: seq<Change>)
      requires Valid()
      modifies this
      ensures Valid()
      ensures ref == "" ==> out == [] && entries == old(entries)
      ensures ref != "" ==>
                out == Changes(Alive(At(old(entries), (path, ref)), now)) && entries == old(entries) - {(path, ref)}
    {
      if ref == "" || |entries| == 0 { return []; }
      var key := (path, ref);
      var waiting := if key in entries then entries[key] else [];
      SizeOfRemoval(entries, key);
      entries := entries - {key};
      count := count - |waiting|;
      out := [];
      for i := 0 to |waiting|
        invariant out == Changes(Alive(waiting[..i], now)) && Valid() && entries == old(entries) - {key}
      {
        assert waiting[..i + 1][..i] == waiting[..i];
        if waiting[i].expires > now { out := out + [waiting[i].change]; }
      }
      assert waiting[..|waiting|] == waiting;
    }
  }
}
