/**
 * The peer-key cache told by its uses: which answers count as uses, what a stored key lasts, and that
 * the entry a full cache gives up is the live one whose last use lies furthest back.
 */
module KeyUses {
  import opened Common
  import opened PeerKeyCache

  datatype Op =
    | AskFor(uid: Uid, now: Time)
    | Store(uid: Uid, key: PublicKey, record: string, now: Time)
    | Forget(uid: Uid, rejected: PublicKey)
    | Clear

  /** The cached entries, and everybody whose key was used, by a hit or by being stored, in order. */
  datatype World = World(cached: seq<Item>, uses: seq<Uid>)

  function Answer(w: World, uid: Uid, now: Time): Option<PublicKey> { Get(w.cached, uid, now).1 }

  function Next(w: World, op: Op): World {
    match op
    case AskFor(u, now) =>
      World(Get(w.cached, u, now).0, if Answer(w, u, now).Some? then w.uses + [u] else w.uses)
    case Store(u, key, record, now) => World(Put(w.cached, u, key, record, now), w.uses + [u])
    case Forget(u, rejected) =>
      var x := Lookup(w.cached, u);
      if x.Some? && x.value.key == rejected then w.(cached := Without(w.cached, u)) else w
    case Clear => w.(cached := [])
  }

  /** When a key was last used; -1 if never. */
  function LastUse(uses: seq<Uid>, u: Uid): int {
    if uses == [] then -1 else if uses[|uses| - 1] == u then |uses| - 1 else LastUse(uses[..|uses| - 1], u)
  }

  lemma LastUseAfter(uses: seq<Uid>, u: Uid, v: Uid)
    ensures LastUse(uses + [u], v) == if v == u then |uses| else LastUse(uses, v)
  {
    assert (uses + [u])[..|uses|] == uses;
  }

  lemma {:induction false} LastUseBound(uses: seq<Uid>, u: Uid)
    ensures -1 <= LastUse(uses, u) < |uses|
  {
    if uses != [] { LastUseBound(uses[..|uses| - 1], u); }
  }

  /** Every entry was used, and they are listed by their last use. */
  predicate ByUse(rs: seq<Item>, uses: seq<Uid>) {
    && (forall i :: 0 <= i < |rs| ==> 0 <= LastUse(uses, rs[i].uid))
    && (forall i, j :: 0 <= i < j < |rs| ==> LastUse(uses, rs[i].uid) < LastUse(uses, rs[j].uid))
  }

  predicate Inv(w: World) { ByUse(w.cached, w.uses) && |w.cached| <= CAPACITY }

  lemma {:induction false} FilterByUse(rs: seq<Item>, uses: seq<Uid>, keep: Item -> bool)
    requires ByUse(rs, uses)
    ensures ByUse(Filter(rs, keep), uses)
  {
    if rs != [] {
      FilterByUse(rs[1..], uses, keep);
      var tail := Filter(rs[1..], keep);
      forall i | 0 <= i < |tail| ensures LastUse(uses, rs[0].uid) < LastUse(uses, tail[i].uid) {
        assert tail[i] in rs[1..];
      }
      if keep(rs[0]) { FirstByUse(rs[0], tail, uses); }
    }
  }

  lemma FirstByUse(x: Item, tail: seq<Item>, uses: seq<Uid>)
    requires ByUse(tail, uses) && 0 <= LastUse(uses, x.uid)
    requires forall i :: 0 <= i < |tail| ==> LastUse(uses, x.uid) < LastUse(uses, tail[i].uid)
    ensures ByUse([x] + tail, uses)
  {
  }

  /** Moving an entry to the recent end records a use of it. */
  lemma UsedByUse(rs: seq<Item>, uses: seq<Uid>, x: Item)
    requires ByUse(rs, uses) && forall y :: y in rs ==> y.uid != x.uid
    ensures ByUse(rs + [x], uses + [x.uid])
  {
    LastUseAfter(uses, x.uid, x.uid);
    forall i | 0 <= i < |rs| ensures LastUse(uses + [x.uid], rs[i].uid) == LastUse(uses, rs[i].uid) < |uses| {
      assert rs[i] in rs;
      LastUseAfter(uses, x.uid, rs[i].uid);
      LastUseBound(uses, rs[i].uid);
    }
  }

  lemma TailByUse(rs: seq<Item>, uses: seq<Uid>)
    requires ByUse(rs, uses) && rs != []
    ensures ByUse(rs[1..], uses)
  {
  }

  lemma AskKeeps(w: World, u: Uid, now: Time)
    requires Inv(w)
    ensures Inv(Next(w, AskFor(u, now)))
  {
    LookupFinds(w.cached, u);
    FilterByUse(w.cached, w.uses, (x: Item) => x.uid != u);
    FilterLength(w.cached, (x: Item) => x.uid != u);
    var x := Lookup(w.cached, u);
    if x.Some? { UsedByUse(Without(w.cached, u), w.uses, x.value); }
  }

  /** What is left for a new entry: the live ones, without the first if it needs room. */
  function Room(rs: seq<Item>, u: Uid, now: Time): seq<Item> {
    var live := Fresh(rs, now);
    if Lookup(live, u).None? && |live| >= CAPACITY then live[1..] else live
  }

  lemma StoreKeeps(w: World, u: Uid, key: PublicKey, record: string, now: Time)
    requires Inv(w)
    ensures Inv(Next(w, Store(u, key, record, now)))
  {
    var live, room := Fresh(w.cached, now), Room(w.cached, u, now);
    FilterByUse(w.cached, w.uses, (x: Item) => Live(x, now));
    FilterLength(w.cached, (x: Item) => Live(x, now));
    if live != [] { TailByUse(live, w.uses); }
    FilterByUse(room, w.uses, (x: Item) => x.uid != u);
    FilterLength(room, (x: Item) => x.uid != u);
    LookupFinds(live, u);
    UsedByUse(Without(room, u), w.uses, Item(u, key, record, now + TTL));
  }

  lemma StepKeepsInv(w: World, op: Op)
    requires Inv(w)
    ensures Inv(Next(w, op))
  {
    match op
    case AskFor(u, now) => AskKeeps(w, u, now);
    case Store(u, key, record, now) => StoreKeeps(w, u, key, record, now);
    case Forget(u, _) =>
      FilterByUse(w.cached, w.uses, (x: Item) => x.uid != u);
      FilterLength(w.cached, (x: Item) => x.uid != u);
    case Clear =>
  }

  ghost predicate Run(ws: seq<World>, ops: seq<Op>) {
    && |ws| == |ops| + 1 && ws[0] == World([], [])
    && forall i {:trigger ops[i]} :: 0 <= i < |ops| ==> ws[i + 1] == Next(ws[i], ops[i])
  }

  /** In every run the cache lists its entries by their last use, at most 1024 of them. */
  lemma {:induction false} RunsKeepInv(ws: seq<World>, ops: seq<Op>, i: nat)
    requires Run(ws, ops) && i < |ws|
    ensures Inv(ws[i])
  {
    if i > 0 {
      RunsKeepInv(ws, ops, i - 1);
      assert ws[i - 1 + 1] == Next(ws[i - 1], ops[i - 1]);
      StepKeepsInv(ws[i - 1], ops[i - 1]);
    }
  }

  // ----- what is answered ----------------------------------------------------------------------

  lemma OneItemEach(w: World, x: Item, y: Item)
    requires Inv(w) && x in w.cached && y in w.cached && x.uid == y.uid
    ensures x == y
  {
  }

  /** A key is answered exactly while it is cached and not expired; asking removes at most that expired entry. */
  lemma AnsweredIff(w: World, u: Uid, now: Time, x: Item)
    requires Inv(w)
    ensures Answer(w, u, now).Some? <==> exists y :: y in w.cached && y.uid == u && y.expiresAt > now
    ensures x in w.cached && x.uid == u && x.expiresAt > now ==> Answer(w, u, now) == Some(x.key)
    ensures x in Next(w, AskFor(u, now)).cached <==> x in w.cached && !(x.uid == u && x.expiresAt <= now)
    ensures Next(w, AskFor(u, now)).uses == if Answer(w, u, now).Some? then w.uses + [u] else w.uses
  {
    LookupFinds(w.cached, u);
    var f := Lookup(w.cached, u);
    forall y | y in w.cached && y.uid == u ensures f == Some(y) { OneItemEach(w, f.value, y); }
  }

  // ----- what is given up ----------------------------------------------------------------------

  /** The cached entries that have not expired. */
  ghost function LiveItems(w: World, now: Time): set<Item> { set x | x in w.cached && x.expiresAt > now }

  /** Storing needs room: the user is not among the live entries, and there are 1024 of those. */
  ghost predicate NeedsRoom(w: World, u: Uid, now: Time) {
    |LiveItems(w, now)| >= 1024 && forall x :: x in LiveItems(w, now) ==> x.uid != u
  }

  /** Of the live entries, the one whose last use came first. */
  ghost predicate UsedFirst(w: World, x: Item, now: Time) {
    x in LiveItems(w, now) &&
    forall y :: y in LiveItems(w, now) && y != x ==> LastUse(w.uses, x.uid) < LastUse(w.uses, y.uid)
  }

  ghost function Members(rs: seq<Item>): set<Item> { set x | x in rs }

  lemma {:induction false} MembersCounted(rs: seq<Item>)
    requires forall i, j :: 0 <= i < j < |rs| ==> rs[i] != rs[j]
    ensures |Members(rs)| == |rs|
  {
    if rs != [] {
      var tail := rs[1..];
      MembersCounted(tail);
      assert rs[0] !in tail;
      assert Members(rs) == Members(tail) + {rs[0]};
    }
  }

  lemma LiveCount(w: World, now: Time)
    requires Inv(w)
    ensures |Fresh(w.cached, now)| == |LiveItems(w, now)|
  {
    var live := Fresh(w.cached, now);
    FilterByUse(w.cached, w.uses, (x: Item) => Live(x, now));
    MembersCounted(live);
    assert Members(live) == LiveItems(w, now);
  }

  lemma FirstIsUsedFirst(w: World, now: Time, x: Item)
    requires Inv(w) && Fresh(w.cached, now) != []
    ensures UsedFirst(w, x, now) <==> x == Fresh(w.cached, now)[0]
  {
    var live := Fresh(w.cached, now);
    FilterByUse(w.cached, w.uses, (y: Item) => Live(y, now));
    assert live[0] in live;
    forall y | y in LiveItems(w, now) && y != live[0]
      ensures LastUse(w.uses, live[0].uid) < LastUse(w.uses, y.uid)
    {
      assert y in live;
      var i :| 0 <= i < |live| && live[i] == y;
    }
  }

  lemma RoomHas(w: World, u: Uid, now: Time, x: Item)
    requires Inv(w)
    ensures x in Room(w.cached, u, now)
            <==> x in LiveItems(w, now) && !(NeedsRoom(w, u, now) && UsedFirst(w, x, now))
  {
    var live := Fresh(w.cached, now);
    FilterByUse(w.cached, w.uses, (y: Item) => Live(y, now));
    LiveCount(w, now);
    LookupFinds(live, u);
    assert forall y :: y in LiveItems(w, now) <==> y in live;
    if live != [] {
      FirstIsUsedFirst(w, now, x);
      assert live == [live[0]] + live[1..];
      assert live[0] !in live[1..];
    }
  }

  /**
   * Whatever else is cached when a key is stored, it stays exactly if it has not expired and is not the one
   * that goes for room: the live entry whose last use came first, when 1024 are live and the user is new.
   */
  lemma LeastRecentlyUsedGoes(ws: seq<World>, ops: seq<Op>, i: nat, x: Item)
    requires Run(ws, ops) && i < |ops| && ops[i].Store? && x.uid != ops[i].uid
    ensures x in ws[i + 1].cached <==>
            && x in ws[i].cached && x.expiresAt > ops[i].now
            && !(NeedsRoom(ws[i], ops[i].uid, ops[i].now) && UsedFirst(ws[i], x, ops[i].now))
  {
    RunsKeepInv(ws, ops, i);
    assert ws[i + 1] == Next(ws[i], ops[i]);
    RoomHas(ws[i], ops[i].uid, ops[i].now, x);
  }

  /** The stored key itself is there, for a quarter of an hour, and nothing else of that user. */
  lemma StoredIsThere(ws: seq<World>, ops: seq<Op>, i: nat, x: Item)
    requires Run(ws, ops) && i < |ops| && ops[i].Store? && x.uid == ops[i].uid
    ensures x in ws[i + 1].cached <==> x == Item(ops[i].uid, ops[i].key, ops[i].record, ops[i].now + 900)
    ensures ws[i + 1].uses == ws[i].uses + [ops[i].uid]
  {
    assert ws[i + 1] == Next(ws[i], ops[i]);
  }

  /** So a key that was hit outlasts every live one whose last use came before that. */
  lemma HitOutlastsOlder(ws: seq<World>, ops: seq<Op>, i: nat, x: Item, y: Item)
    requires Run(ws, ops) && i < |ops| && ops[i].Store? && x.uid != ops[i].uid
    requires x in LiveItems(ws[i], ops[i].now) && y in LiveItems(ws[i], ops[i].now) && x != y
    requires LastUse(ws[i].uses, y.uid) < LastUse(ws[i].uses, x.uid)
    ensures x in ws[i + 1].cached
  {
    LeastRecentlyUsedGoes(ws, ops, i, x);
  }

  /** A rejected key is forgotten if it is still the cached one, and nothing else goes. */
  lemma ForgottenIff(w: World, u: Uid, rejected: PublicKey, x: Item)
    requires Inv(w)
    ensures x in Next(w, Forget(u, rejected)).cached <==> x in w.cached && !(x.uid == u && x.key == rejected)
  {
    LookupFinds(w.cached, u);
    if x in w.cached && x.uid == u { OneItemEach(w, x, Lookup(w.cached, u).value); }
  }
}
