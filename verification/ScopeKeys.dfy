/**
 * The chat keys of a scope (a channel, or the whole server): which generations are held, which
 * the server refused, and which one is sent with.
 */
module ScopeKeys {
  import opened Common

  type Scope = int
  type Gen = nat
  type Key = seq<int>
  type Name = (Scope, Gen)

  datatype Store = Store(keys: map<Name, Key>, latest: map<Scope, Gen>, refused: set<Name>)

  function Install(s: Store, scope: Scope, id: Gen, key: Key): Store {
    s.(keys := s.keys[(scope, id) := key], refused := s.refused - {(scope, id)})
  }

  function Put(s: Store, scope: Scope, id: Gen, key: Key): Store {
    var t := Install(s, scope, id, key);
    if scope !in s.latest || id > s.latest[scope] then t.(latest := s.latest[scope := id]) else t
  }

  function MarkRefused(s: Store, scope: Scope, ids: seq<Gen>): Store {
    s.(refused := s.refused + set i | 0 <= i < |ids| && (scope, ids[i]) !in s.keys :: (scope, ids[i]))
  }

  lemma RefuseOneMore(s: Store, scope: Scope, ids: seq<Gen>, i: nat)
    requires i < |ids|
    ensures MarkRefused(s, scope, ids[..i + 1]).refused
            == MarkRefused(s, scope, ids[..i]).refused + if (scope, ids[i]) in s.keys then {} else {(scope, ids[i])}
  {
    assert ids[..i + 1] == ids[..i] + [ids[i]];
    var a, b := MarkRefused(s, scope, ids[..i + 1]).refused, MarkRefused(s, scope, ids[..i]).refused;
    forall n ensures n in a <==> n in b || (n == (scope, ids[i]) && n !in s.keys) {
      if n in b && n !in s.refused {
        var j :| 0 <= j < i && n == (scope, ids[..i][j]);
        assert ids[..i + 1][j] == ids[..i][j];
      }
      assert ids[..i + 1][i] == ids[i];
    }
  }

  /* What has arrived from the server, in some order. */

  datatype Event =
    | Pushed(scope: Scope, id: Gen, key: Key)
    | Archived(scope: Scope, id: Gen, key: Key)
    | Refusal(scope: Scope, ids: seq<Gen>)

  const EMPTY := Store(map[], map[], {})

  function Receive(s: Store, ev: Event): Store {
    match ev
    case Pushed(scope, id, key) => Put(s, scope, id, key)
    case Archived(scope, id, key) => Install(s, scope, id, key)
    case Refusal(scope, ids) => MarkRefused(s, scope, ids)
  }

  function Replay(evs: seq<Event>): Store {
    if evs == [] then EMPTY else Receive(Replay(evs[..|evs| - 1]), evs[|evs| - 1])
  }

  predicate Brings(ev: Event, n: Name) { !ev.Refusal? && (ev.scope, ev.id) == n }

  predicate Refuses(ev: Event, n: Name) { ev.Refusal? && ev.scope == n.0 && n.1 in ev.ids }

  predicate Pushes(ev: Event, scope: Scope) { ev.Pushed? && ev.scope == scope }

  ghost predicate Brought(evs: seq<Event>, n: Name) { exists ev :: ev in evs && Brings(ev, n) }

  ghost predicate Withheld(evs: seq<Event>, n: Name) { exists ev :: ev in evs && Refuses(ev, n) }

  /** One key per generation: the server never sends two different ones. */
  ghost predicate OneKey(evs: seq<Event>, n: Name) {
    forall a, b :: a in evs && b in evs && Brings(a, n) && Brings(b, n) ==> a.key == b.key
  }

  lemma BroughtStep(evs: seq<Event>, n: Name)
    requires evs != []
    ensures Brought(evs, n) <==> Brought(evs[..|evs| - 1], n) || Brings(evs[|evs| - 1], n)
    ensures Withheld(evs, n) <==> Withheld(evs[..|evs| - 1], n) || Refuses(evs[|evs| - 1], n)
  {
    var before, last := evs[..|evs| - 1], evs[|evs| - 1];
    assert evs == before + [last];
    if Brought(before, n) {
      var ev :| ev in before && Brings(ev, n);
      assert ev in evs;
    }
    if Withheld(before, n) {
      var ev :| ev in before && Refuses(ev, n);
      assert ev in evs;
    }
    assert last in evs;
  }

  /** Held: everything ever brought. Refused: everything ever refused and never brought. */
  lemma {:induction false} HeldAndRefused(evs: seq<Event>, n: Name)
    ensures n in Replay(evs).keys <==> Brought(evs, n)
    ensures n in Replay(evs).refused <==> Withheld(evs, n) && !Brought(evs, n)
  {
    if evs != [] {
      HeldAndRefused(evs[..|evs| - 1], n);
      BroughtStep(evs, n);
    }
  }

  /** A held key is the one some event brought. */
  lemma {:induction false} HeldKey(evs: seq<Event>, n: Name)
    requires n in Replay(evs).keys
    ensures exists ev :: ev in evs && Brings(ev, n) && ev.key == Replay(evs).keys[n]
  {
    var before, last := evs[..|evs| - 1], evs[|evs| - 1];
    assert evs == before + [last];
    if Brings(last, n) {
      assert last in evs;
    } else {
      HeldKey(before, n);
      var ev :| ev in before && Brings(ev, n) && ev.key == Replay(before).keys[n];
      assert ev in evs;
    }
  }

  ghost predicate IsLargest(evs: seq<Event>, scope: Scope, id: Gen) {
    && (exists ev :: ev in evs && Pushes(ev, scope) && ev.id == id)
    && (forall ev :: ev in evs && Pushes(ev, scope) ==> ev.id <= id)
  }

  lemma LargestStep(evs: seq<Event>, scope: Scope, id: Gen)
    requires evs != [] && IsLargest(evs[..|evs| - 1], scope, id)
    ensures var last := evs[|evs| - 1]; IsLargest(evs, scope, if Pushes(last, scope) && last.id > id then last.id
              else id)
  {
    var before, last := evs[..|evs| - 1], evs[|evs| - 1];
    assert evs == before + [last] && last in evs;
    var ev :| ev in before && Pushes(ev, scope) && ev.id == id;
    assert ev in evs;
  }

  /** The send generation is the largest ever pushed, and its key is held. */
  lemma {:induction false} LatestIsLargest(evs: seq<Event>, scope: Scope)
    ensures scope in Replay(evs).latest <==> exists ev :: ev in evs && Pushes(ev, scope)
    ensures scope in Replay(evs).latest ==>
              IsLargest(evs, scope, Replay(evs).latest[scope]) && (scope, Replay(evs).latest[scope]) in Replay(evs).keys
  {
    if evs != [] {
      var before, last := evs[..|evs| - 1], evs[|evs| - 1];
      LatestIsLargest(before, scope);
      if scope in Replay(before).latest {
        LargestStep(evs, scope, Replay(before).latest[scope]);
      } else {
        assert evs == before + [last] && last in evs;
      }
    }
  }

  /** Any two orders, and repetitions, of the same arrivals leave the same store. */
  lemma Converges(a: seq<Event>, b: seq<Event>)
    requires forall ev :: ev in a <==> ev in b
    requires forall n :: OneKey(a, n)
    ensures Replay(a) == Replay(b)
  {
    forall n ensures (n in Replay(a).keys <==> n in Replay(b).keys) &&
        (n in Replay(a).refused <==> n in Replay(b).refused) {
      HeldAndRefused(a, n);
      HeldAndRefused(b, n);
    }
    forall n | n in Replay(a).keys ensures Replay(a).keys[n] == Replay(b).keys[n] { SameKey(a, b, n); }
    assert Replay(a).keys == Replay(b).keys;
    forall scope ensures scope in Replay(a).latest <==> scope in Replay(b).latest {
      LatestIsLargest(a, scope);
      LatestIsLargest(b, scope);
    }
    forall scope | scope in Replay(a).latest ensures Replay(a).latest[scope] == Replay(b).latest[scope] {
      LatestIsLargest(a, scope);
      LatestIsLargest(b, scope);
    }
    assert Replay(a).latest == Replay(b).latest;
    assert Replay(a).refused == Replay(b).refused;
  }

  lemma SameKey(a: seq<Event>, b: seq<Event>, n: Name)
    requires forall ev :: ev in a <==> ev in b
    requires OneKey(a, n) && n in Replay(a).keys && n in Replay(b).keys
    ensures Replay(a).keys[n] == Replay(b).keys[n]
  {
    HeldKey(a, n);
    HeldKey(b, n);
    var x :| x in a && Brings(x, n) && x.key == Replay(a).keys[n];
    var y :| y in b && Brings(y, n) && y.key == Replay(b).keys[n];
    assert y in a;
  }

  /** The store in place; `seen` is everything that arrived, in order. */
  class ScopeKeyStore {
    var keys: map<Name, Key>
    var latest: map<Scope, Gen>
    var refused: set<Name>
    ghost var seen: seq<Event>

    ghost function View(): Store
      reads this
    {
      Store(keys, latest, refused)
    }

    ghost predicate Valid()
      reads this
    {
      View() == Replay(seen)
    }

    constructor ()
      ensures Valid() && seen == []
    {
      keys, latest, refused, seen := map[], map[], {}, [];
    }

    method StoreKey(scope: Scope, id: Gen, key: Key)
      modifies this`keys, this`refused
      ensures View() == Install(old(View()), scope, id, key)
    {
      keys := keys[(scope, id) := key];
      refused := refused - {(scope, id)};
    }

    method PutGen(scope: Scope, id: Gen, key: Key)
      requires Valid()
      modifies this
      ensures Valid() && seen == old(seen) + [Archived(scope, id, key)]
    {
      StoreKey(scope, id, key);
      OneMoreSeen(seen, Archived(scope, id, key));
      seen := seen + [Archived(scope, id, key)];
    }

    method StoreCurrent(scope: Scope, id: Gen, key: Key)
      modifies this`keys, this`refused, this`latest
      ensures View() == Put(old(View()), scope, id, key)
    {
      StoreKey(scope, id, key);
      if scope !in latest || id > latest[scope] { latest := latest[scope := id]; }
    }

    method PutCurrent(scope: Scope, id: Gen, key: Key)
      requires Valid()
      modifies this
      ensures Valid() && seen == old(seen) + [Pushed(scope, id, key)]
    {
      StoreCurrent(scope, id, key);
      OneMoreSeen(seen, Pushed(scope, id, key));
      seen := seen + [Pushed(scope, id, key)];
    }

    method Refuse(scope: Scope, ids: seq<Gen>)
      requires Valid()
      modifies this
      ensures Valid() && seen == old(seen) + [Refusal(scope, ids)]
    {
      for i := 0 to |ids|
        invariant View() == MarkRefused(old(View()), scope, ids[..i]) && seen == old(seen)
      {
        if (scope, ids[i]) !in keys { refused := refused + {(scope, ids[i])}; }
        RefuseOneMore(old(View()), scope, ids, i);
      }
      assert ids[..|ids|] == ids;
      OneMoreSeen(seen, Refusal(scope, ids));
      seen := seen + [Refusal(scope, ids)];
    }

    /**
     * What to send with: the largest generation ever pushed, under a key that arrived for it; none before
     * the first push.
     */
    method Current(scope: Scope) returns (r: Option<(Gen, Key)>)
      requires Valid()
      ensures r.Some? <==> exists ev :: ev in seen && Pushes(ev, scope)
      ensures r.Some? ==> IsLargest(seen, scope, r.value.0)
      ensures r.Some? ==> exists ev :: ev in seen && Brings(ev, (scope, r.value.0)) && ev.key == r.value.1
    {
      LatestIsLargest(seen, scope);
      if scope !in latest || (scope, latest[scope]) !in keys { return None; }
      HeldKey(seen, (scope, latest[scope]));
      return Some((latest[scope], keys[(scope, latest[scope])]));
    }
  }

  lemma OneMoreSeen(evs: seq<Event>, ev: Event)
    ensures Replay(evs + [ev]) == Receive(Replay(evs), ev)
  {
    assert (evs + [ev])[..|evs|] == evs;
  }
}
