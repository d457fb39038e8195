/**
 * Fetching contacts' keys once at a time (client/e2e.go): the cache in place, the single-flight table
 * around it, and all interleavings of lookups, fetches, directory answers and cache clears.
 */
module PeerKeyFetches {
  import opened Common
  import opened PeerKeyCache

  /** A "fetch done" channel, closed to wake everybody waiting on it. */
  type Chan = nat

  datatype Flight = Flight(done: Chan, epoch: nat)

  /** The fetches under way, the cache epoch, and how many channels were ever made. */
  datatype Flights = Flights(inFlight: map<Uid, Flight>, epoch: nat, made: nat)

  function Claim(fl: Flights, uid: Uid): Flights {
    if uid in fl.inFlight then fl
    else Flights(fl.inFlight[uid := Flight(fl.made, fl.epoch)], fl.epoch, fl.made + 1)
  }

  /** finishFetch acts only on a flight of the finisher's own epoch. */
  predicate Finishes(fl: Flights, uid: Uid, epoch: nat) {
    uid in fl.inFlight && fl.inFlight[uid].epoch == epoch
  }

  function Finish(fl: Flights, uid: Uid, epoch: nat): Flights {
    if Finishes(fl, uid, epoch) then fl.(inFlight := fl.inFlight - {uid}) else fl
  }

  function Clear(fl: Flights): Flights {
    Flights(map[], fl.epoch + 1, fl.made)
  }

  function Channels(fl: Flights): set<Chan> {
    set u | u in fl.inFlight :: fl.inFlight[u].done
  }

  // ----- the search for the least recently used entry ------------------------------------------

  /** The eviction scan over the map in the given order; "" doubles as "none yet". */
  function Scan(keys: map<Uid, Entry>, order: seq<Uid>, best: Uid): Uid
    requires best != "" ==> best in keys
    requires forall u :: u in order ==> u in keys
  {
    if order == [] then best
    else Scan(keys, order[1..], if best == "" || keys[order[0]].used < keys[best].used then order[0] else best)
  }

  predicate IsOldest(keys: map<Uid, Entry>, u: Uid) {
    u in keys && forall v :: v in keys && v != u ==> keys[u].used < keys[v].used
  }

  lemma {:induction false} ScanFindsOldest(keys: map<Uid, Entry>, order: seq<Uid>, best: Uid, m: Uid)
    requires IsOldest(keys, m) && m != "" && (best != "" ==> best in keys)
    requires forall u :: u in order ==> u in keys
    requires best == m || m in order
    ensures Scan(keys, order, best) == m
  {
    if order != [] {
      var next := if best == "" || keys[order[0]].used < keys[best].used then order[0] else best;
      if next != m {
        assert order[0] != m;
        assert order == [order[0]] + order[1..];
      }
      ScanFindsOldest(keys, order[1..], next, m);
    }
  }

  /** Once past the entry named "", the scan never comes back to it. */
  lemma {:induction false} ScanNeverReturnsTo(keys: map<Uid, Entry>, order: seq<Uid>, best: Uid)
    requires best in keys && best != "" && "" !in order && forall u :: u in order ==> u in keys
    ensures Scan(keys, order, best) != ""
  {
    if order != [] {
      ScanNeverReturnsTo(keys, order[1..], if keys[order[0]].used < keys[best].used then order[0] else best);
    }
  }

  /** An order of the map's keys: each exactly once. */
  ghost predicate OrderOf(keys: map<Uid, Entry>, order: seq<Uid>) {
    (forall u :: u in order <==> u in keys) && forall i, j :: 0 <= i < j < |order| ==> order[i] != order[j]
  }

  lemma {:induction false} SomeOrder(us: set<Uid>) returns (order: seq<Uid>)
    ensures forall u :: u in order <==> u in us
    ensures forall i, j :: 0 <= i < j < |order| ==> order[i] != order[j]
  {
    if us == {} {
      order := [];
    } else {
      var u :| u in us;
      var rest := SomeOrder(us - {u});
      order := [u] + rest;
    }
  }

  lemma LoneScan(keys: map<Uid, Entry>, m: Uid, order: seq<Uid>)
    requires m in keys && keys.Keys == {m} && OrderOf(keys, order)
    ensures Scan(keys, order, "") == m
  {
    assert |order| > 1 ==> order[0] != order[1];
    forall i | 0 <= i < |order| ensures order[i] == m { assert order[i] in order; }
    assert m in order;
    assert order == [m];
  }

  lemma EmptyNameFirst(keys: map<Uid, Entry>, rest: seq<Uid>)
    requires "" in keys && forall u :: u in rest <==> u in keys && u != ""
    requires forall i, j :: 0 <= i < j < |rest| ==> rest[i] != rest[j]
    ensures OrderOf(keys, [""] + rest)
  {
  }

  /** A scan that meets "" first takes the next entry instead, and never comes back. */
  lemma EmptyNamePassedOver(keys: map<Uid, Entry>, rest: seq<Uid>)
    requires "" in keys && rest != [] && forall u :: u in rest <==> u in keys && u != ""
    ensures Scan(keys, [""] + rest, "") != ""
  {
    assert ([""] + rest)[1..] == rest && rest[0] in rest;
    ScanNeverReturnsTo(keys, rest[1..], rest[0]);
  }

  /** Some order of the map, beginning with "", makes the scan pass over an oldest entry named "". */
  lemma MissingScan(keys: map<Uid, Entry>) returns (order: seq<Uid>)
    requires "" in keys && keys.Keys != {""}
    ensures OrderOf(keys, order) && Scan(keys, order, "") != ""
  {
    var rest := SomeOrder(keys.Keys - {""});
    assert keys.Keys == (keys.Keys - {""}) + {""};
    var u :| u in keys.Keys - {""};
    assert u in rest;
    EmptyNameFirst(keys, rest);
    EmptyNamePassedOver(keys, rest);
    order := [""] + rest;
  }

  /**
   * The scan evicts the least recently used entry in every order of the map if and only if that entry
   * is not named "" (or is the only one).
   */
  lemma ScanExactlyWhen(keys: map<Uid, Entry>, m: Uid)
    requires IsOldest(keys, m)
    ensures (forall order :: OrderOf(keys, order) ==> Scan(keys, order, "") == m) <==> (m != "" || keys.Keys == {m})
  {
    if m != "" {
      forall order | OrderOf(keys, order) ensures Scan(keys, order, "") == m { ScanFindsOldest(keys, order, "", m); }
    } else if keys.Keys == {m} {
      forall order | OrderOf(keys, order) ensures Scan(keys, order, "") == m { LoneScan(keys, m, order); }
    } else {
      var order := MissingScan(keys);
    }
  }

  // ----- the cache in place --------------------------------------------------------------------

  /**
   * The cache in place. Only verified key records are stored, and a record that names nobody is refused
   * (internal/e2ee/key_record.go), so "" never enters the map and the scan always finds the oldest entry.
   */
  class Cache {
    var keys: map<Uid, Entry>
    var sequence: nat
    var inFlight: map<Uid, Flight>
    var epoch: nat
    var made: nat
    ghost var recent: seq<Item>  // the recency list this map stands for

    ghost predicate Valid() reads this {
      Refines(keys, sequence, recent) && |recent| <= CAPACITY && "" !in keys
    }

    ghost function Table(): Flights reads this {
      Flights(inFlight, epoch, made)
    }

    constructor ()
      ensures Valid() && recent == [] && Table() == Flights(map[], 0, 0)
    {
      keys, sequence, inFlight, epoch, made, recent := map[], 0, map[], 0, 0, [];
    }

    method Get(uid: Uid, now: Time) returns (key: Option<PublicKey>)
      requires Valid()
      modifies this`keys, this`sequence, this`recent
      ensures Valid() && (recent, key) == PeerKeyCache.Get(old(recent), uid, now)
    {
      LookupAgrees(keys, sequence, recent, uid);
      if uid !in keys {
        return None;
      }
      ghost var x := Lookup(recent, uid).value;
      var entry := keys[uid];
      if entry.expiresAt <= now {
        RemoveRefines(keys, sequence, recent, uid);
        keys, recent := keys - {uid}, Without(recent, uid);
        return None;
      }
      StoreRefines(keys, sequence, recent, x);
      sequence := sequence + 1;
      keys, recent := keys[uid := entry.(used := sequence)], Without(recent, uid) + [x];
      key := Some(entry.key);
    }

    method EvictExpired(now: Time)
      requires Valid()
      modifies this`keys, this`recent
      ensures Valid() && recent == Fresh(old(recent), now)
    {
      var all := keys;
      var left := keys.Keys;
      while left != {}
        invariant left <= all.Keys && recent == old(recent)
        invariant keys == map u | u in all && (u in left || all[u].expiresAt > now) :: all[u]
      {
        var u :| u in left;
        if all[u].expiresAt <= now {
          keys := keys - {u};
        }
        left := left - {u};
      }
      forall x | x in recent ensures x.uid in keys <==> Live(x, now) { assert Agrees(all, x, sequence); }
      FilterRefines(all, keys, sequence, recent, (x: Item) => Live(x, now));
      FilterLength(recent, (x: Item) => Live(x, now));
      recent := Fresh(recent, now);
    }

    /** The eviction scan, in whatever order the map yields its entries. */
    method Oldest() returns (oldest: Uid)
      requires keys != map[] && "" !in keys
      ensures oldest in keys
      ensures forall m :: IsOldest(keys, m) ==> oldest == m
    {
      oldest := "";
      var left := keys.Keys;
      while left != {}
        invariant left <= keys.Keys
        invariant oldest == "" || (oldest in keys && oldest !in left)
        invariant left != keys.Keys ==> oldest in keys
        invariant forall m :: IsOldest(keys, m) && m !in left ==> oldest == m
      {
        var u :| u in left;
        if oldest == "" || keys[u].used < keys[oldest].used {
          oldest := u;
        }
        left := left - {u};
      }
    }

    /** Storing is the reference list's store: the entry that goes for room is the least recently used. */
    method Put(uid: Uid, key: PublicKey, record: string, now: Time)
      requires Valid() && uid != ""
      modifies this`keys, this`sequence, this`recent
      ensures Valid() && recent == PeerKeyCache.Put(old(recent), uid, key, record, now)
    {
      EvictExpired(now);
      MakeRoom(uid);
      Insert(uid, key, record, now);
    }

    /** The write itself, once there is room. */
    method Insert(uid: Uid, key: PublicKey, record: string, now: Time)
      requires Valid() && uid != "" && (uid in keys || |recent| < CAPACITY)
      modifies this`keys, this`sequence, this`recent
      ensures Valid() && recent == Without(old(recent), uid) + [Item(uid, key, record, now + TTL)]
    {
      ghost var x := Item(uid, key, record, now + TTL);
      StoreRefines(keys, sequence, recent, x);
      sequence := sequence + 1;
      keys, recent := keys[uid := Entry(key, record, now + TTL, sequence)], Without(recent, uid) + [x];
    }

    method MakeRoom(uid: Uid)
      requires Valid()
      modifies this`keys, this`recent
      ensures Valid() && (uid in keys || |recent| < CAPACITY)
      ensures recent ==
              if Lookup(old(recent), uid).None? && |old(recent)| >= CAPACITY then old(recent)[1..] else old(recent)
    {
      LookupAgrees(keys, sequence, recent, uid);
      SizesAgree(keys, sequence, recent);
      if uid !in keys && |keys| >= CAPACITY {
        var oldest := Oldest();
        assert IsOldest(keys, recent[0].uid) by {
          forall u | u in keys ensures u == recent[0].uid || keys[recent[0].uid].used < keys[u].used {
            FirstIsOldest(keys, sequence, recent, u);
          }
        }
        FilterTail(recent, keys);
        RemoveRefines(keys, sequence, recent, oldest);
        keys, recent := keys - {oldest}, Without(recent, oldest);
      }
    }

    /** A rejected key is forgotten, unless a newer one has taken its place. */
    method ForgetKey(uid: Uid, rejected: PublicKey)
      requires Valid()
      modifies this`keys, this`recent
      ensures Valid()
      ensures recent == if Lookup(old(recent), uid).Some? && Lookup(old(recent), uid).value.key == rejected
                        then Without(old(recent), uid) else old(recent)
    {
      LookupAgrees(keys, sequence, recent, uid);
      if uid in keys && keys[uid].key == rejected {
        RemoveRefines(keys, sequence, recent, uid);
        keys, recent := keys - {uid}, Without(recent, uid);
      }
    }

    /** Admits a fetched key only while the epoch it was fetched under is current. */
    method PutAt(uid: Uid, key: PublicKey, e: nat, record: string, now: Time) returns (ok: bool)
      requires Valid() && uid != ""
      modifies this`keys, this`sequence, this`recent
      ensures Valid() && (ok <==> e == epoch)
      ensures ok ==> recent == PeerKeyCache.Put(old(recent), uid, key, record, now)
      ensures !ok ==> recent == old(recent) && keys == old(keys)
    {
      if epoch != e { return false; }
      Put(uid, key, record, now);
      ok := true;
    }

    method GetOrClaimFetch(uid: Uid, now: Time) returns (key: Option<PublicKey>, leader: bool, done: Chan, e: nat)
      requires Valid()
      modifies this
      ensures Valid() && (recent, key) == PeerKeyCache.Get(old(recent), uid, now)
      ensures key.Some? ==> Table() == old(Table()) && !leader
      ensures key.None? ==> Table() == Claim(old(Table()), uid) && leader == (uid !in old(inFlight))
      ensures key.None? ==> Flight(done, e) == inFlight[uid]
    {
      key := Get(uid, now);
      if key.Some? {
        return key, false, 0, epoch;
      }
      if uid in inFlight {
        return None, false, inFlight[uid].done, inFlight[uid].epoch;
      }
      inFlight := inFlight[uid := Flight(made, epoch)];
      leader, done, e := true, made, epoch;
      made := made + 1;
    }

    method FinishFetch(uid: Uid, e: nat) returns (closing: Option<Chan>)
      modifies this`inFlight
      ensures Table() == Finish(old(Table()), uid, e)
      ensures closing == if Finishes(old(Table()), uid, e) then Some(old(inFlight)[uid].done) else None
    {
      if uid in inFlight && inFlight[uid].epoch == e {
        closing := Some(inFlight[uid].done);
        inFlight := inFlight - {uid};
      } else {
        closing := None;
      }
    }

    /** Empties the cache, starts a new epoch, and hands back the channels to close. */
    method ClearAll() returns (closing: set<Chan>)
      requires Valid()
      modifies this
      ensures Valid() && recent == [] && Table() == Clear(old(Table())) && closing == Channels(old(Table()))
    {
      closing := set u | u in inFlight :: inFlight[u].done;
      keys, recent, inFlight, epoch := map[], [], map[], epoch + 1;
    }
  }

  // ----- all interleavings ---------------------------------------------------------------------

  /** A fetch between its claim and its finish: what it claimed. */
  datatype Leader = Leader(uid: Uid, flight: Flight)

  /** `closing` are channels taken under the lock and not closed yet. */
  datatype World = World(
    cached: seq<Item>, table: Flights, leaders: map<nat, Leader>, closing: set<Chan>, closed: set<Chan>)

  datatype Step =
    | LookupBy(leader: nat, uid: Uid, now: Time)
    | StoreBy(leader: nat, key: PublicKey, record: string, now: Time)
    | FinishBy(leader: nat)
    | ForgetBy(uid: Uid, key: PublicKey)
    | ClearBy
    | CloseBy(done: Chan)

  predicate Enabled(w: World, s: Step) {
    match s
    case LookupBy(l, _, _) => l !in w.leaders
    case StoreBy(l, _, _, _) => l in w.leaders
    case FinishBy(l) => l in w.leaders
    case CloseBy(c) => c in w.closing
    case _ => true
  }

  function Next(w: World, s: Step): World
    requires Enabled(w, s)
  {
    match s
    case LookupBy(l, uid, now) =>
      var (cached, key) := PeerKeyCache.Get(w.cached, uid, now);
      if key.Some? then w.(cached := cached)
      else
        var table := Claim(w.table, uid);
        w.(cached := cached, table := table,
           leaders := if uid in w.table.inFlight then w.leaders else w.leaders[l := Leader(uid, table.inFlight[uid])])
    case StoreBy(l, key, record, now) =>
      if w.leaders[l].flight.epoch == w.table.epoch
      then w.(cached := PeerKeyCache.Put(w.cached, w.leaders[l].uid, key, record, now)) else w
    case FinishBy(l) =>
      var x := w.leaders[l];
      w.(table := Finish(w.table, x.uid, x.flight.epoch),
         leaders := w.leaders - {l},
         closing := if Finishes(w.table, x.uid, x.flight.epoch) then w.closing + {w.table.inFlight[x.uid].done}
             else w.closing)
    case ForgetBy(uid, key) =>
      w.(cached := if Lookup(w.cached, uid).Some? &&
          Lookup(w.cached, uid).value.key == key then Without(w.cached, uid) else w.cached)
    case ClearBy => w.(cached := [], table := Clear(w.table), closing := w.closing + Channels(w.table))
    case CloseBy(c) => w.(closing := w.closing - {c}, closed := w.closed + {c})
  }

  /** The three places a channel can be: under way, about to be closed, closed. */
  predicate UnderWay(w: World, c: Chan) {
    c in Channels(w.table)
  }

  ghost predicate Inv(w: World) {
    && (forall u {:trigger FlightOk(w, u)} :: u in w.table.inFlight ==> FlightOk(w, u))
    && (forall l {:trigger LeaderOk(w, l)} :: l in w.leaders ==> LeaderOk(w, l))
    && (forall c {:trigger ChannelOk(w, c)} :: ChannelOk(w, c))
    && (forall u, v :: u in w.table.inFlight && v in w.table.inFlight && u != v ==>
         w.table.inFlight[u].done != w.table.inFlight[v].done)
  }

  /** Fetches under way belong to the current epoch, have a channel of their own, and one leader. */
  ghost predicate FlightOk(w: World, u: Uid)
    requires u in w.table.inFlight
  {
    && w.table.inFlight[u].epoch == w.table.epoch && w.table.inFlight[u].done < w.table.made
    && exists l :: l in w.leaders && w.leaders[l] == Leader(u, w.table.inFlight[u])
  }

  /** A leader of the current epoch still owns its flight; an older one owns nothing. */
  ghost predicate LeaderOk(w: World, l: nat)
    requires l in w.leaders
  {
    var x := w.leaders[l];
    && x.flight.epoch <= w.table.epoch && x.flight.done < w.table.made
    && (x.flight.epoch == w.table.epoch ==> x.uid in w.table.inFlight && w.table.inFlight[x.uid] == x.flight)
    && (forall k :: k in w.leaders && w.leaders[k].flight.done == x.flight.done ==> k == l)
  }

  /** Every channel ever made is in exactly one place, so it is closed at most once and never lost. */
  ghost predicate ChannelOk(w: World, c: Chan) {
    && (c < w.table.made <==> UnderWay(w, c) || c in w.closing || c in w.closed)
    && !(UnderWay(w, c) && c in w.closing) && !(UnderWay(w, c) && c in w.closed) && !(c in w.closing && c in w.closed)
  }

  lemma ClaimKeeps(w: World, l: nat, uid: Uid, now: Time)
    requires Inv(w) && Enabled(w, LookupBy(l, uid, now)) && uid !in w.table.inFlight
    requires PeerKeyCache.Get(w.cached, uid, now).1.None?
    ensures Inv(Next(w, LookupBy(l, uid, now)))
  {
    var w' := Next(w, LookupBy(l, uid, now));
    var mine := Flight(w.table.made, w.table.epoch);
    assert w'.leaders == w.leaders[l := Leader(uid, mine)] && w'.table.inFlight == w.table.inFlight[uid := mine];
    forall u | u in w'.table.inFlight ensures FlightOk(w', u) {
      if u == uid {
        assert w'.leaders[l] == Leader(u, mine);
      } else {
        assert FlightOk(w, u);
        var k :| k in w.leaders && w.leaders[k] == Leader(u, w.table.inFlight[u]);
        assert k in w'.leaders && w'.leaders[k] == Leader(u, w'.table.inFlight[u]);
      }
    }
    forall k | k in w'.leaders ensures LeaderOk(w', k) { LeadersApart(w, w', k, l, mine.done); }
    forall c ensures ChannelOk(w', c) {
      assert ChannelOk(w, c);
      assert UnderWay(w', c) <==> UnderWay(w, c) || c == mine.done by {
        assert w'.table.inFlight[uid].done == mine.done;
        if UnderWay(w, c) {
          var u :| u in w.table.inFlight && w.table.inFlight[u].done == c;
          assert w'.table.inFlight[u].done == c;
        }
      }
    }
    forall u | u in w.table.inFlight ensures w.table.inFlight[u].done < mine.done { assert FlightOk(w, u); }
  }

  /** A new leader's channel is new, so no other leader shares it. */
  lemma LeadersApart(w: World, w': World, k: nat, l: nat, done: Chan)
    requires (forall j {:trigger LeaderOk(w, j)} :: j in w.leaders ==> LeaderOk(w, j)) && l !in w.leaders &&
               k in w'.leaders
    requires done == w.table.made && w'.table.made == done + 1 && w'.table.epoch == w.table.epoch
    requires l in w'.leaders && w'.leaders[l].flight == Flight(done, w.table.epoch) &&
               w'.leaders == w.leaders[l := w'.leaders[l]]
    requires w'.leaders[l].uid !in w.table.inFlight
    requires w'.table.inFlight == w.table.inFlight[w'.leaders[l].uid := w'.leaders[l].flight]
    ensures LeaderOk(w', k)
  {
    forall j | j in w.leaders ensures w.leaders[j].flight.done < done { assert LeaderOk(w, j); }
    if k != l { assert LeaderOk(w, k); }
  }

  lemma FinishKeeps(w: World, l: nat)
    requires Inv(w) && l in w.leaders
    ensures Inv(Next(w, FinishBy(l)))
  {
    var w', x := Next(w, FinishBy(l)), w.leaders[l];
    assert LeaderOk(w, l);
    var mine := Finishes(w.table, x.uid, x.flight.epoch);
    if mine { assert FlightOk(w, x.uid); }
    assert mine ==> w.table.inFlight[x.uid] == x.flight;
    forall u | u in w'.table.inFlight ensures FlightOk(w', u) {
      assert FlightOk(w, u);
      var k :| k in w.leaders && w.leaders[k] == Leader(u, w.table.inFlight[u]);
      assert k != l;
      assert k in w'.leaders && w'.leaders[k] == Leader(u, w'.table.inFlight[u]);
    }
    forall k | k in w'.leaders ensures LeaderOk(w', k) { assert LeaderOk(w, k); OneLeader(w, l, k); }
    forall c ensures ChannelOk(w', c) {
      assert ChannelOk(w, c);
      if mine { FinishedChannel(w, w', x.uid, c); }
    }
  }

  lemma OneLeader(w: World, l: nat, k: nat)
    requires l in w.leaders && k in w.leaders && LeaderOk(w, l) && LeaderOk(w, k) && k != l
    ensures w.leaders[k].flight.epoch == w.table.epoch && w.leaders[l].flight.epoch == w.table.epoch ==>
              w.leaders[k].uid != w.leaders[l].uid
  {
  }

  lemma FinishedChannel(w: World, w': World, u: Uid, c: Chan)
    requires u in w.table.inFlight && w'.table.inFlight == w.table.inFlight - {u}
    requires forall a, b :: a in w.table.inFlight && b in w.table.inFlight && a != b ==>
               w.table.inFlight[a].done != w.table.inFlight[b].done
    ensures UnderWay(w', c) <==> UnderWay(w, c) && c != w.table.inFlight[u].done
    ensures UnderWay(w, w.table.inFlight[u].done)
  {
    if UnderWay(w, c) && c != w.table.inFlight[u].done {
      var v :| v in w.table.inFlight && w.table.inFlight[v].done == c;
      assert v in w'.table.inFlight && w'.table.inFlight[v].done == c;
    }
  }

  lemma StepKeepsInv(w: World, s: Step)
    requires Inv(w) && Enabled(w, s)
    ensures Inv(Next(w, s))
  {
    var w' := Next(w, s);
    match s
    case LookupBy(l, uid, now) =>
      if uid !in w.table.inFlight && PeerKeyCache.Get(w.cached, uid, now).1.None? {
        ClaimKeeps(w, l, uid, now);
      } else {
        SameFlights(w, w');
      }
    case FinishBy(l) => FinishKeeps(w, l);
    case ClearBy => ClearKeeps(w);
    case CloseBy(c) => CloseKeeps(w, c);
    case StoreBy(_, _, _, _) => SameFlights(w, w');
    case ForgetBy(_, _) => SameFlights(w, w');
  }

  lemma SameFlights(w: World, w': World)
    requires Inv(w) && w' == w.(cached := w'.cached)
    ensures Inv(w')
  {
    forall u | u in w'.table.inFlight ensures FlightOk(w', u) { assert FlightOk(w, u); }
    forall l | l in w'.leaders ensures LeaderOk(w', l) { assert LeaderOk(w, l); }
    forall c ensures ChannelOk(w', c) { assert ChannelOk(w, c); }
  }

  lemma ClearKeeps(w: World)
    requires Inv(w)
    ensures Inv(Next(w, ClearBy))
  {
    var w' := Next(w, ClearBy);
    forall l | l in w'.leaders ensures LeaderOk(w', l) { assert LeaderOk(w, l); }
    forall c ensures ChannelOk(w', c) { assert ChannelOk(w, c); }
  }

  lemma CloseKeeps(w: World, c: Chan)
    requires Inv(w) && c in w.closing
    ensures Inv(Next(w, CloseBy(c))) && c !in w.closed
  {
    var w' := Next(w, CloseBy(c));
    assert ChannelOk(w, c);
    forall u | u in w'.table.inFlight ensures FlightOk(w', u) { assert FlightOk(w, u); }
    forall l | l in w'.leaders ensures LeaderOk(w', l) { assert LeaderOk(w, l); }
    forall d ensures ChannelOk(w', d) { assert ChannelOk(w, d); }
  }

  ghost predicate Run(ws: seq<World>, steps: seq<Step>) {
    && |ws| == |steps| + 1
    && ws[0] == World([], Flights(map[], 0, 0), map[], {}, {})
    && forall i {:trigger steps[i]} :: 0 <= i < |steps| ==>
         Enabled(ws[i], steps[i]) && ws[i + 1] == Next(ws[i], steps[i])
  }

  lemma {:induction false} RunsKeepInv(ws: seq<World>, steps: seq<Step>, i: nat)
    requires Run(ws, steps) && i < |ws|
    ensures Inv(ws[i])
  {
    if i > 0 {
      RunsKeepInv(ws, steps, i - 1);
      assert ws[i - 1 + 1] == Next(ws[i - 1], steps[i - 1]);
      StepKeepsInv(ws[i - 1], steps[i - 1]);
    } else {
      forall c ensures ChannelOk(ws[0], c) {}
    }
  }

  /** No channel is closed twice; once its fetch is over it is closed or about to be; none is lost. */
  lemma ChannelsCloseOnce(ws: seq<World>, steps: seq<Step>, i: nat, c: Chan)
    requires Run(ws, steps) && i < |steps|
    ensures steps[i] == CloseBy(c) ==> c !in ws[i].closed && !UnderWay(ws[i], c)
    ensures c < ws[i].table.made && !UnderWay(ws[i], c) ==> c in ws[i].closing || c in ws[i].closed
  {
    RunsKeepInv(ws, steps, i);
    assert ChannelOk(ws[i], c);
  }

  /** A leader closes no channel but its own, whatever was cleared and claimed in between. */
  lemma LeadersFinishTheirOwn(ws: seq<World>, steps: seq<Step>, i: nat, l: nat)
    requires Run(ws, steps) && i < |ws| && l in ws[i].leaders
    ensures var x := ws[i].leaders[l];
            Finishes(ws[i].table, x.uid, x.flight.epoch) ==> ws[i].table.inFlight[x.uid] == x.flight
  {
    RunsKeepInv(ws, steps, i);
    assert LeaderOk(ws[i], l);
    var x := ws[i].leaders[l];
    if x.uid in ws[i].table.inFlight { assert FlightOk(ws[i], x.uid); }
  }

  lemma EpochsGrow(w: World, s: Step)
    requires Enabled(w, s)
    ensures Next(w, s).table.epoch == if s.ClearBy? then w.table.epoch + 1 else w.table.epoch
  {
  }

  lemma {:induction false} EpochsGrowOverRuns(ws: seq<World>, steps: seq<Step>, i: nat, j: nat)
    requires Run(ws, steps) && i <= j < |ws|
    ensures ws[i].table.epoch <= ws[j].table.epoch
    ensures (exists k :: i <= k < j && steps[k].ClearBy?) ==> ws[i].table.epoch < ws[j].table.epoch
    decreases j
  {
    if i < j {
      EpochsGrowOverRuns(ws, steps, i, j - 1);
      assert ws[j - 1 + 1] == Next(ws[j - 1], steps[j - 1]);
      EpochsGrow(ws[j - 1], steps[j - 1]);
    }
  }

  /** A fetch begun before a clear never puts anything into the cache afterwards. */
  lemma ClearedFetchStoresNothing(ws: seq<World>, steps: seq<Step>, i: nat, k: nat, j: nat)
    requires Run(ws, steps) && i <= k < j < |steps|
    requires steps[k].ClearBy? && steps[j].StoreBy?
    requires steps[j].leader in ws[i].leaders && ws[j].leaders[steps[j].leader] == ws[i].leaders[steps[j].leader]
    ensures ws[j + 1].cached == ws[j].cached
  {
    RunsKeepInv(ws, steps, i);
    assert LeaderOk(ws[i], steps[j].leader);
    EpochsGrowOverRuns(ws, steps, i, j);
    assert ws[j + 1] == Next(ws[j], steps[j]);
  }

  // ----- what each of them brings about --------------------------------------------------------

  /** Somebody is fetching that user's key for the current cache. */
  ghost predicate BeingFetched(w: World, uid: Uid) {
    exists l :: l in w.leaders && w.leaders[l].uid == uid && w.leaders[l].flight.epoch == w.table.epoch
  }

  lemma FetchedIsInFlight(w: World, uid: Uid)
    requires Inv(w)
    ensures BeingFetched(w, uid) <==> uid in w.table.inFlight
  {
    if l :| l in w.leaders && w.leaders[l].uid == uid && w.leaders[l].flight.epoch == w.table.epoch {
      assert LeaderOk(w, l);
    }
    if uid in w.table.inFlight { assert FlightOk(w, uid); }
  }

  /** Of one user's key there is one fetch at a time. */
  lemma OneFetchPerUser(ws: seq<World>, steps: seq<Step>, i: nat, k: nat, l: nat)
    requires Run(ws, steps) && i < |ws| && k in ws[i].leaders && l in ws[i].leaders
    requires ws[i].leaders[k].uid == ws[i].leaders[l].uid
    requires ws[i].leaders[k].flight.epoch == ws[i].table.epoch == ws[i].leaders[l].flight.epoch
    ensures k == l
  {
    RunsKeepInv(ws, steps, i);
    assert LeaderOk(ws[i], k) && LeaderOk(ws[i], l);
  }

  /**
   * In every run a lookup starts a fetch exactly if it is no hit and nobody is fetching that key; the fetch is
   * of the current epoch and has a new channel.
   */
  lemma LeadsExactlyIf(ws: seq<World>, steps: seq<Step>, i: nat)
    requires Run(ws, steps) && i < |steps| && steps[i].LookupBy?
    ensures var w, w', s := ws[i], ws[i + 1], steps[i];
            var hit := exists x :: x in w.cached && x.uid == s.uid && x.expiresAt > s.now
                                   && Lookup(w.cached, s.uid) == Some(x);
            && (s.leader in w'.leaders <==> !hit && !BeingFetched(w, s.uid))
            && (s.leader in w'.leaders ==>
                  w'.leaders == w.leaders[s.leader := Leader(s.uid, Flight(w.table.made, w.table.epoch))])
            && (s.leader !in w'.leaders ==> w'.leaders == w.leaders && w'.table == w.table)
  {
    var w, s := ws[i], steps[i];
    RunsKeepInv(ws, steps, i);
    assert ws[i + 1] == Next(w, s);
    FetchedIsInFlight(w, s.uid);
    LookupFinds(w.cached, s.uid);
  }

  /** A fetch of the current epoch stores what it fetched, and when it is over its own channel is to be closed. */
  lemma CurrentFetchDelivers(ws: seq<World>, steps: seq<Step>, i: nat)
    requires Run(ws, steps) && i < |steps| && (steps[i].StoreBy? || steps[i].FinishBy?)
    requires ws[i].leaders[steps[i].leader].flight.epoch == ws[i].table.epoch
    ensures var w, w', s := ws[i], ws[i + 1], steps[i];
            var x := w.leaders[s.leader];
            && (s.StoreBy? ==> Item(x.uid, s.key, s.record, s.now + 900) in w'.cached && w'.leaders == w.leaders)
            && (s.FinishBy? ==>
                  && w'.closing == w.closing + {x.flight.done} && x.flight.done !in w.closed
                  && !BeingFetched(w', x.uid) && s.leader !in w'.leaders)
  {
    var w, s := ws[i], steps[i];
    RunsKeepInv(ws, steps, i);
    RunsKeepInv(ws, steps, i + 1);
    assert ws[i + 1] == Next(w, s);
    assert LeaderOk(w, s.leader) && ChannelOk(w, w.leaders[s.leader].flight.done);
    var uid := w.leaders[s.leader].uid;
    if s.FinishBy? {
      FetchedIsInFlight(ws[i + 1], uid);
    } else {
      var p := PeerKeyCache.Put(w.cached, uid, s.key, s.record, s.now);
      assert p[|p| - 1] == Item(uid, s.key, s.record, s.now + 900);
    }
  }

  /** Clearing empties the cache, orphans every fetch, and hands every channel under way to be closed. */
  lemma ClearingWakesAll(ws: seq<World>, steps: seq<Step>, i: nat, l: nat)
    requires Run(ws, steps) && i < |steps| && steps[i].ClearBy? && l in ws[i].leaders
    ensures ws[i + 1].cached == [] && ws[i + 1].leaders == ws[i].leaders
    ensures ws[i + 1].leaders[l].flight.epoch < ws[i + 1].table.epoch
    ensures ws[i].leaders[l].flight.epoch == ws[i].table.epoch ==> ws[i].leaders[l].flight.done in ws[i + 1].closing
  {
    RunsKeepInv(ws, steps, i);
    assert ws[i + 1] == Next(ws[i], steps[i]);
    assert LeaderOk(ws[i], l);
  }
}
