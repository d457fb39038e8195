/**
 * The cache of contacts' public keys (client/e2e.go): a map with use counters, a time to live and a
 * capacity, refined here to a recency list whose first element is the least recently used.
 */
module PeerKeyCache {
  import opened Common

  type Uid = string
  type PublicKey = string
  type Time = int

  const CAPACITY := 1024
  const TTL: Time := 15 * 60

  // ----- the reference: a recency list ---------------------------------------------------------

  datatype Item = Item(uid: Uid, key: PublicKey, record: string, expiresAt: Time)

  predicate Live(x: Item, now: Time) {
    x.expiresAt > now
  }

  function Filter(rs: seq<Item>, keep: Item -> bool): (r: seq<Item>)
    ensures forall x :: x in r <==> x in rs && keep(x)
  {
    if rs == [] then [] else if keep(rs[0]) then [rs[0]] + Filter(rs[1..], keep) else Filter(rs[1..], keep)
  }

  function Lookup(rs: seq<Item>, uid: Uid): Option<Item> {
    if rs == [] then None else if rs[0].uid == uid then Some(rs[0]) else Lookup(rs[1..], uid)
  }

  function Fresh(rs: seq<Item>, now: Time): seq<Item> {
    Filter(rs, (x: Item) => Live(x, now))
  }

  function Without(rs: seq<Item>, uid: Uid): seq<Item> {
    Filter(rs, (x: Item) => x.uid != uid)
  }

  /** A hit moves the entry to the most recent end; an expired entry is dropped and misses. */
  function Get(rs: seq<Item>, uid: Uid, now: Time): (seq<Item>, Option<PublicKey>) {
    var x := Lookup(rs, uid);
    if x.None? then (rs, None)
    else if !Live(x.value, now) then (Without(rs, uid), None)
    else (Without(rs, uid) + [x.value], Some(x.value.key))
  }

  /** A new entry goes to the most recent end; a full cache first loses its least recently used entry. */
  function Put(rs: seq<Item>, uid: Uid, key: PublicKey, record: string, now: Time): seq<Item> {
    var live := Fresh(rs, now);
    var room := if Lookup(live, uid).None? && |live| >= CAPACITY then live[1..] else live;
    Without(room, uid) + [Item(uid, key, record, now + TTL)]
  }

  // ----- the map and its abstraction -----------------------------------------------------------

  datatype Entry = Entry(key: PublicKey, record: string, expiresAt: Time, used: nat)

  predicate Agrees(keys: map<Uid, Entry>, x: Item, sequence: nat) {
    && x.uid in keys
    && keys[x.uid].key == x.key && keys[x.uid].record == x.record && keys[x.uid].expiresAt == x.expiresAt
    && keys[x.uid].used <= sequence
  }

  /** The list is in order of use. */
  predicate Ordered(rs: seq<Item>, keys: map<Uid, Entry>) {
    && (forall i :: 0 <= i < |rs| ==> rs[i].uid in keys)
    && (forall i, j :: 0 <= i < j < |rs| ==> keys[rs[i].uid].used < keys[rs[j].uid].used)
  }

  ghost predicate Refines(keys: map<Uid, Entry>, sequence: nat, rs: seq<Item>) {
    && (forall x {:trigger Agrees(keys, x, sequence)} :: x in rs ==> Agrees(keys, x, sequence))
    && Ordered(rs, keys)
    && (forall u {:trigger Listed(rs, u)} :: u in keys ==> Listed(rs, u))
  }

  ghost predicate Listed(rs: seq<Item>, u: Uid) {
    exists x :: x in rs && x.uid == u
  }

  lemma {:induction false} FilterOrdered(rs: seq<Item>, keys: map<Uid, Entry>, keep: Item -> bool)
    requires Ordered(rs, keys)
    ensures Ordered(Filter(rs, keep), keys)
  {
    if rs != [] {
      FilterOrdered(rs[1..], keys, keep);
      var tail := Filter(rs[1..], keep);
      forall i | 0 <= i < |tail| ensures tail[i].uid in keys && keys[rs[0].uid].used < keys[tail[i].uid].used {
        assert tail[i] in rs[1..];
      }
      if keep(rs[0]) { OrderedFirst(rs[0], tail, keys); }
    }
  }

  lemma OrderedFirst(x: Item, tail: seq<Item>, keys: map<Uid, Entry>)
    requires Ordered(tail, keys) && x.uid in keys
    requires forall i :: 0 <= i < |tail| ==> keys[x.uid].used < keys[tail[i].uid].used
    ensures Ordered([x] + tail, keys)
  {
  }

  /** Entries of the list with the same user are the same entry. */
  lemma UidsDiffer(rs: seq<Item>, keys: map<Uid, Entry>, x: Item, y: Item)
    requires Ordered(rs, keys) && x in rs && y in rs && x.uid == y.uid
    ensures x == y
  {
  }

  lemma {:induction false} LookupFinds(rs: seq<Item>, uid: Uid)
    ensures Lookup(rs, uid).Some? ==> Lookup(rs, uid).value in rs && Lookup(rs, uid).value.uid == uid
    ensures Lookup(rs, uid).None? ==> forall x :: x in rs ==> x.uid != uid
  {
    if rs != [] { LookupFinds(rs[1..], uid); }
  }

  function Uids(rs: seq<Item>): set<Uid> {
    if rs == [] then {} else {rs[0].uid} + Uids(rs[1..])
  }

  lemma {:induction false} UidsOf(rs: seq<Item>, u: Uid)
    ensures u in Uids(rs) <==> exists i :: 0 <= i < |rs| && rs[i].uid == u
  {
    if rs != [] {
      UidsOf(rs[1..], u);
      if u in Uids(rs[1..]) {
        var i :| 0 <= i < |rs[1..]| && rs[1..][i].uid == u;
        assert rs[i + 1].uid == u;
      }
      if i :| 0 < i < |rs| && rs[i].uid == u { assert rs[1..][i - 1].uid == u; }
    }
  }

  lemma {:induction false} UidsCounted(rs: seq<Item>)
    requires forall i, j :: 0 <= i < j < |rs| ==> rs[i].uid != rs[j].uid
    ensures |Uids(rs)| == |rs|
  {
    if rs != [] {
      UidsCounted(rs[1..]);
      UidsOf(rs[1..], rs[0].uid);
      assert forall i :: 0 <= i < |rs| - 1 ==> rs[1..][i] == rs[i + 1];
    }
  }

  lemma SizesAgree(keys: map<Uid, Entry>, sequence: nat, rs: seq<Item>)
    requires Refines(keys, sequence, rs)
    ensures |rs| == |keys|
  {
    UidsCounted(rs);
    forall u | u in Uids(rs) ensures u in keys {
      UidsOf(rs, u);
      var i :| 0 <= i < |rs| && rs[i].uid == u;
      assert Agrees(keys, rs[i], sequence);
    }
    forall u | u in keys ensures u in Uids(rs) {
      assert Listed(rs, u);
      UidsOf(rs, u);
    }
    assert Uids(rs) == keys.Keys;
  }

  /** The first of the list has the smallest use counter. */
  lemma FirstIsOldest(keys: map<Uid, Entry>, sequence: nat, rs: seq<Item>, u: Uid)
    requires Refines(keys, sequence, rs) && u in keys
    ensures rs != [] && rs[0].uid in keys && (u == rs[0].uid || keys[rs[0].uid].used < keys[u].used)
  {
    assert Listed(rs, u);
    var x :| x in rs && x.uid == u;
    var i :| 0 <= i < |rs| && rs[i] == x;
  }

  lemma FilterTail(rs: seq<Item>, keys: map<Uid, Entry>)
    requires Ordered(rs, keys) && rs != []
    ensures Filter(rs, (x: Item) => x.uid != rs[0].uid) == rs[1..]
  {
    FilterAll(rs[1..], (x: Item) => x.uid != rs[0].uid);
  }

  lemma {:induction false} FilterAll(rs: seq<Item>, keep: Item -> bool)
    requires forall x :: x in rs ==> keep(x)
    ensures Filter(rs, keep) == rs
  {
    if rs != [] { FilterAll(rs[1..], keep); }
  }

  /** Keeping some entries of the map is filtering the list the same way. */
  lemma FilterRefines(keys: map<Uid, Entry>, keys': map<Uid, Entry>, sequence: nat, rs: seq<Item>, keep: Item -> bool)
    requires Refines(keys, sequence, rs)
    requires forall u :: u in keys' ==> u in keys && keys'[u] == keys[u]
    requires forall x :: x in rs ==> (x.uid in keys' <==> keep(x))
    ensures Refines(keys', sequence, Filter(rs, keep))
  {
    FilterOrdered(rs, keys, keep);
    forall x | x in Filter(rs, keep) ensures Agrees(keys', x, sequence) { assert Agrees(keys, x, sequence); }
    forall u | u in keys' ensures Listed(Filter(rs, keep), u) {
      assert Listed(rs, u);
      var x :| x in rs && x.uid == u;
      assert x in Filter(rs, keep);
    }
  }

  /** Storing an entry with the next use counter appends it to the list. */
  lemma AppendRefines(keys: map<Uid, Entry>, sequence: nat, rs: seq<Item>, x: Item)
    requires Refines(keys, sequence, rs) && x.uid !in keys
    ensures Refines(keys[x.uid := Entry(x.key, x.record, x.expiresAt, sequence + 1)], sequence + 1, rs + [x])
  {
    var keys' := keys[x.uid := Entry(x.key, x.record, x.expiresAt, sequence + 1)];
    forall y | y in rs + [x] ensures Agrees(keys', y, sequence + 1) { if y in rs { assert Agrees(keys, y, sequence); } }
    forall i | 0 <= i < |rs| ensures rs[i].uid in keys &&
        keys[rs[i].uid].used <= sequence { assert Agrees(keys, rs[i], sequence); }
    forall u | u in keys' ensures Listed(rs + [x], u) {
      if u == x.uid {
        assert (rs + [x])[|rs|] == x;
      } else {
        assert Listed(rs, u);
        var y :| y in rs && y.uid == u;
        assert y in rs + [x];
      }
    }
  }

  lemma {:induction false} FilterLength(rs: seq<Item>, keep: Item -> bool)
    ensures |Filter(rs, keep)| <= |rs|
    ensures (exists x :: x in rs && !keep(x)) ==> |Filter(rs, keep)| < |rs|
  {
    if rs != [] {
      FilterLength(rs[1..], keep);
      assert rs == [rs[0]] + rs[1..];
    }
  }

  lemma LookupAgrees(keys: map<Uid, Entry>, sequence: nat, rs: seq<Item>, uid: Uid)
    requires Refines(keys, sequence, rs)
    ensures Lookup(rs, uid).Some? <==> uid in keys
    ensures uid in keys ==>
              Lookup(rs, uid).value in rs && Lookup(rs, uid).value.uid == uid &&
              Agrees(keys, Lookup(rs, uid).value, sequence)
  {
    LookupFinds(rs, uid);
    if uid in keys { assert Listed(rs, uid); }
    if Lookup(rs, uid).Some? { assert Agrees(keys, Lookup(rs, uid).value, sequence); }
  }

  lemma RemoveRefines(keys: map<Uid, Entry>, sequence: nat, rs: seq<Item>, uid: Uid)
    requires Refines(keys, sequence, rs)
    ensures Refines(keys - {uid}, sequence, Without(rs, uid))
    ensures |Without(rs, uid)| <= |rs| && (uid in keys ==> |Without(rs, uid)| < |rs|)
  {
    forall x | x in rs ensures x.uid in keys - {uid} <==> x.uid != uid { assert Agrees(keys, x, sequence); }
    FilterRefines(keys, keys - {uid}, sequence, rs, (x: Item) => x.uid != uid);
    FilterLength(rs, (x: Item) => x.uid != uid);
    if uid in keys { assert Listed(rs, uid); }
  }

  /** Storing an entry with the next use counter makes it the most recent. */
  lemma StoreRefines(keys: map<Uid, Entry>, sequence: nat, rs: seq<Item>, x: Item)
    requires Refines(keys, sequence, rs)
    ensures Refines(keys[x.uid := Entry(x.key, x.record, x.expiresAt, sequence + 1)], sequence + 1,
              Without(rs, x.uid) + [x])
    ensures |Without(rs, x.uid)| < |rs| || x.uid !in keys
    ensures |Without(rs, x.uid)| <= |rs|
  {
    RemoveRefines(keys, sequence, rs, x.uid);
    AppendRefines(keys - {x.uid}, sequence, Without(rs, x.uid), x);
    var e := Entry(x.key, x.record, x.expiresAt, sequence + 1);
    assert (keys - {x.uid})[x.uid := e] == keys[x.uid := e];
  }
}
