/**
 * Packing a message history into chunks for another device: newest messages first, each
 * chunk's record list within the per-chunk bound, the oldest messages left out at the limits.
 * A message is represented by the length of its encoded record.
 */
module HistoryPacking {
  const MAX_CHUNK := 262144
  const MAX_CHUNKS := 256
  const MAX_BYTES := 52428800
  const SEAL_OVERHEAD := 40
  const ENVELOPE_RESERVE := 1024
  const MAX_PLAIN := MAX_CHUNK - SEAL_OVERHEAD - ENVELOPE_RESERVE

  datatype Msg = Msg(id: nat, len: nat)
  type Group = seq<Msg>

  /** The records of a group as a list: brackets, records and the commas between them. */
  function Listed(g: Group): nat { 2 + Total(g) - if g == [] then 0 else 1 }

  /** Every record with one separator. */
  function Total(g: Group): (n: nat)
    ensures n >= |g|
  {
    if g == [] then 0 else Total(g[..|g| - 1]) + g[|g| - 1].len + 1
  }

  /** What the limits account for: each group's list and its seal. */
  function Accounted(gs: seq<Group>): nat {
    if gs == [] then 0 else Accounted(gs[..|gs| - 1]) + Listed(gs[|gs| - 1]) + SEAL_OVERHEAD
  }

  function Flatten(gs: seq<Group>): Group {
    if gs == [] then [] else Flatten(gs[..|gs| - 1]) + gs[|gs| - 1]
  }

  predicate Fits(m: Msg) { m.len + 2 <= MAX_PLAIN }

  /** The messages small enough for a chunk. */
  function Eligible(ms: seq<Msg>): seq<Msg> {
    if ms == [] then []
    else
      var m := ms[|ms| - 1];
      Eligible(ms[..|ms| - 1]) + if Fits(m) then [m] else []
  }

  /** One message more: into the last group if it fits there, otherwise into a new one. */
  function Pack(gs: seq<Group>, m: Msg): seq<Group> {
    if gs != [] && Listed(gs[|gs| - 1]) + 1 + m.len <= MAX_PLAIN
    then gs[..|gs| - 1] + [gs[|gs| - 1] + [m]]
    else gs + [[m]]
  }

  function PackAll(ms: seq<Msg>): seq<Group> {
    if ms == [] then [] else Pack(PackAll(ms[..|ms| - 1]), ms[|ms| - 1])
  }

  predicate Allowed(gs: seq<Group>) { |gs| <= MAX_CHUNKS && Accounted(gs) <= MAX_BYTES }

  function Reversed(s: seq<Msg>): seq<Msg> {
    if s == [] then [] else [s[|s| - 1]] + Reversed(s[..|s| - 1])
  }

  predicate GroupsFit(gs: seq<Group>) { forall i :: 0 <= i < |gs| ==> gs[i] != [] && Listed(gs[i]) <= MAX_PLAIN }

  lemma {:induction false} TotalJoins(a: Group, b: Group)
    ensures Total(a + b) == Total(a) + Total(b)
  {
    if b == [] {
      assert a + b == a;
    } else {
      assert (a + b)[..|a + b| - 1] == a + b[..|b| - 1];
      TotalJoins(a, b[..|b| - 1]);
    }
  }

  lemma FlattenExtends(gs: seq<Group>, g: Group)
    ensures Flatten(gs + [g]) == Flatten(gs) + g
  {
    assert (gs + [g])[..|gs|] == gs;
  }

  lemma AccountedExtends(gs: seq<Group>, g: Group)
    ensures Accounted(gs + [g]) == Accounted(gs) + Listed(g) + SEAL_OVERHEAD
  {
    assert (gs + [g])[..|gs|] == gs;
  }

  lemma ListedExtends(g: Group, m: Msg)
    ensures Listed(g + [m]) == Listed(g) + m.len + if g == [] then 0 else 1
  {
    assert (g + [m])[..|g|] == g;
  }

  /** Packing keeps the messages and their order, and every group within its bound. */
  lemma PackKeeps(gs: seq<Group>, m: Msg)
    requires GroupsFit(gs) && Fits(m)
    ensures GroupsFit(Pack(gs, m)) && Flatten(Pack(gs, m)) == Flatten(gs) + [m]
  {
    if gs == [] {
      FlattenExtends([], [m]);
    } else {
      var front, g := gs[..|gs| - 1], gs[|gs| - 1];
      ListedExtends(g, m);
      FlattenExtends(front, g + [m]);
      FlattenExtends(gs, [m]);
    }
    ListedExtends([], m);
    assert [] + [m] == [m];
  }

  lemma {:induction false} PackAllKeeps(ms: seq<Msg>)
    requires forall i :: 0 <= i < |ms| ==> Fits(ms[i])
    ensures GroupsFit(PackAll(ms)) && Flatten(PackAll(ms)) == ms
  {
    if ms != [] {
      PackAllKeeps(ms[..|ms| - 1]);
      PackKeeps(PackAll(ms[..|ms| - 1]), ms[|ms| - 1]);
    }
  }

  /** The account depends only on the messages and on the number of groups. */
  lemma {:induction false} AccountOf(gs: seq<Group>)
    requires GroupsFit(gs)
    ensures Accounted(gs) == Total(Flatten(gs)) + (1 + SEAL_OVERHEAD) * |gs|
  {
    if gs != [] {
      var front, g := gs[..|gs| - 1], gs[|gs| - 1];
      AccountOf(front);
      TotalJoins(Flatten(front), g);
    }
  }

  /** Greedy packing stays ahead of every other consecutive packing of the same messages. */
  predicate Ahead(a: seq<Group>, b: seq<Group>) {
    |a| < |b| || (|a| == |b| && (a != [] ==> Listed(a[|a| - 1]) <= Listed(b[|b| - 1])))
  }

  /** A packing of messages ending in `m`, with `m` taken off. */
  function Unpack(gs: seq<Group>): seq<Group>
    requires gs != [] && gs[|gs| - 1] != []
  {
    var front, g := gs[..|gs| - 1], gs[|gs| - 1];
    if |g| == 1 then front else front + [g[..|g| - 1]]
  }

  lemma UnpackKeeps(gs: seq<Group>)
    requires gs != [] && GroupsFit(gs)
    ensures GroupsFit(Unpack(gs)) && Flatten(gs) == Flatten(Unpack(gs)) + [gs[|gs| - 1][|gs[|gs| - 1]| - 1]]
  {
    var front, g := gs[..|gs| - 1], gs[|gs| - 1];
    var m := g[|g| - 1];
    assert g == g[..|g| - 1] + [m];
    ListedExtends(g[..|g| - 1], m);
    FlattenExtends(front, g[..|g| - 1]);
  }

  lemma PackStaysAhead(a: seq<Group>, gs: seq<Group>)
    requires gs != [] && GroupsFit(gs) && GroupsFit(a) && Ahead(a, Unpack(gs))
    ensures Ahead(Pack(a, gs[|gs| - 1][|gs[|gs| - 1]| - 1]), gs)
  {
    var front, g := gs[..|gs| - 1], gs[|gs| - 1];
    var m := g[|g| - 1];
    assert g == g[..|g| - 1] + [m];
    ListedExtends(g[..|g| - 1], m);
    ListedExtends([], m);
    assert [] + [m] == [m];
    if a != [] { ListedExtends(a[|a| - 1], m); }
  }

  lemma {:induction false} GreedyIsBest(ms: seq<Msg>, gs: seq<Group>)
    requires GroupsFit(gs) && Flatten(gs) == ms
    ensures Ahead(PackAll(ms), gs)
    decreases |ms|
  {
    if gs == [] {
    } else {
      UnpackKeeps(gs);
      var m := gs[|gs| - 1][|gs[|gs| - 1]| - 1];
      var before := Flatten(Unpack(gs));
      assert ms[..|ms| - 1] == before && ms[|ms| - 1] == m;
      GreedyIsBest(before, Unpack(gs));
      FlattenFits(Unpack(gs));
      PackAllKeeps(before);
      PackStaysAhead(PackAll(before), gs);
    }
  }

  lemma {:induction false} RecordFits(g: Group, i: nat)
    requires i < |g| && Listed(g) <= MAX_PLAIN
    ensures Fits(g[i])
  {
    if i < |g| - 1 { RecordFits(g[..|g| - 1], i); }
  }

  lemma {:induction false} FlattenFits(gs: seq<Group>)
    requires GroupsFit(gs)
    ensures forall i :: 0 <= i < |Flatten(gs)| ==> Fits(Flatten(gs)[i])
  {
    if gs != [] {
      FlattenFits(gs[..|gs| - 1]);
      var g := gs[|gs| - 1];
      forall i | 0 <= i < |g| ensures Fits(g[i]) { RecordFits(g, i); }
    }
  }

  /** If any packing of these messages is allowed, the greedy one is. */
  lemma GreedyAllowed(ms: seq<Msg>, gs: seq<Group>)
    requires GroupsFit(gs) && Flatten(gs) == ms && Allowed(gs)
    ensures Allowed(PackAll(ms))
  {
    GreedyIsBest(ms, gs);
    FlattenFits(gs);
    PackAllKeeps(ms);
    AccountOf(gs);
    AccountOf(PackAll(ms));
  }

  /** Fewer messages need no more. */
  lemma {:induction false} ShorterAllowed(ms: seq<Msg>, k: nat)
    requires k <= |ms| && Allowed(PackAll(ms))
    ensures Allowed(PackAll(ms[..k]))
    decreases |ms|
  {
    if k == |ms| {
      assert ms[..k] == ms;
    } else {
      var before := ms[..|ms| - 1];
      OneFewer(PackAll(before), ms[|ms| - 1]);
      ShorterAllowed(before, k);
      assert before[..k] == ms[..k];
    }
  }

  lemma OneFewer(gs: seq<Group>, m: Msg)
    requires Allowed(Pack(gs, m))
    ensures Allowed(gs)
  {
    if gs != [] {
      var front, g := gs[..|gs| - 1], gs[|gs| - 1];
      assert gs == front + [g];
      AccountedExtends(front, g);
      AccountedExtends(front, g + [m]);
      AccountedExtends(gs, [m]);
      ListedExtends(g, m);
    }
  }

  /**
   * No other packing of the newest messages, in any number of chunks within the limits,
   * carries more of them than stopping where the next message would break a limit.
   */
  lemma StoppingKeepsMost(ms: seq<Msg>, kept: nat, gs: seq<Group>, k: nat)
    requires kept < |ms| && !Allowed(PackAll(ms[..kept + 1]))
    requires k <= |ms| && GroupsFit(gs) && Flatten(gs) == ms[..k] && Allowed(gs)
    ensures k <= kept
  {
    assert kept < k ==> ms[..k][..kept + 1] == ms[..kept + 1];
    if kept < k {
      GreedyAllowed(ms[..k], gs);
      ShorterAllowed(ms[..k], kept + 1);
    }
  }

  /* The packer. */

  function Turned(gs: seq<Group>): seq<Group> {
    if gs == [] then [] else [Reversed(gs[|gs| - 1])] + Turned(gs[..|gs| - 1])
  }

  lemma {:induction false} ReversedTotal(g: Group)
    ensures Total(Reversed(g)) == Total(g) && |Reversed(g)| == |g|
  {
    if g != [] {
      ReversedTotal(g[..|g| - 1]);
      TotalJoins([g[|g| - 1]], Reversed(g[..|g| - 1]));
      assert [g[|g| - 1]][..0] == [];
    }
  }

  lemma {:induction false} ReversedJoins(a: Group, b: Group)
    ensures Reversed(a + b) == Reversed(b) + Reversed(a)
  {
    if b == [] {
      assert a + b == a;
    } else {
      assert (a + b)[..|a + b| - 1] == a + b[..|b| - 1];
      ReversedJoins(a, b[..|b| - 1]);
    }
  }

  lemma {:induction false} FlattenJoins(a: seq<Group>, b: seq<Group>)
    ensures Flatten(a + b) == Flatten(a) + Flatten(b)
  {
    if b == [] {
      assert a + b == a;
    } else {
      assert (a + b)[..|a + b| - 1] == a + b[..|b| - 1];
      FlattenJoins(a, b[..|b| - 1]);
    }
  }

  /** Turned chunks read, end to end, as the messages oldest first, and measure the same. */
  lemma {:induction false} TurnedReads(gs: seq<Group>)
    requires GroupsFit(gs)
    ensures Flatten(Turned(gs)) == Reversed(Flatten(gs))
    ensures GroupsFit(Turned(gs)) && |Turned(gs)| == |gs|
  {
    if gs != [] {
      var front, g := gs[..|gs| - 1], gs[|gs| - 1];
      TurnedReads(front);
      FlattenJoins([Reversed(g)], Turned(front));
      assert Flatten([Reversed(g)]) == Reversed(g) by { assert [Reversed(g)][..0] == []; }
      ReversedJoins(Flatten(front), g);
      ReversedTotal(g);
    }
  }

  lemma {:induction false} TurnedAccount(gs: seq<Group>)
    requires GroupsFit(gs)
    ensures Accounted(Turned(gs)) == Accounted(gs)
  {
    TurnedReads(gs);
    AccountOf(gs);
    AccountOf(Turned(gs));
    ReversedTotal(Flatten(gs));
  }

  method Turn(groups: seq<Group>) returns (chunks: seq<Group>)
    ensures chunks == Turned(groups)
  {
    chunks := [];
    var i := |groups|;
    assert groups[..i] == groups;
    while i > 0
      invariant 0 <= i <= |groups|
      invariant chunks + Turned(groups[..i]) == Turned(groups)
    {
      i := i - 1;
      assert groups[..i + 1][..i] == groups[..i];
      var ordered := Oldest(groups[i]);
      assert chunks + ([ordered] + Turned(groups[..i])) == chunks + [ordered] + Turned(groups[..i]);
      chunks := chunks + [ordered];
    }
    assert groups[..0] == [];
  }

  method Oldest(group: Group) returns (ordered: Group)
    ensures ordered == Reversed(group)
  {
    ordered := [];
    for j := 0 to |group|
      invariant ordered == Reversed(group[..j])
    {
      assert group[..j + 1][..j] == group[..j];
      ordered := [group[j]] + ordered;
    }
    assert group[..|group|] == group;
  }

  lemma {:induction false} EligiblePrefix(ms: seq<Msg>, i: nat)
    requires i <= |ms|
    ensures Eligible(ms[..i]) <= Eligible(ms)
    decreases |ms|
  {
    if i == |ms| {
      assert ms[..i] == ms;
    } else {
      EligiblePrefix(ms[..|ms| - 1], i);
      assert ms[..|ms| - 1][..i] == ms[..i];
    }
  }

  /** The groups finished so far and the one being filled. */
  function Whole(groups: seq<Group>, current: Group): seq<Group> { if current == [] then groups
      else groups + [current] }

  /** Packing one message, as the loop does it, and what it adds to the account. */
  lemma PackStep(groups: seq<Group>, current: Group, m: Msg)
    requires Fits(m) && (current == [] ==> groups == [])
    ensures var w, joined := Whole(groups, current), groups + [current + [m]];
            if current != [] && Listed(current) + 1 + m.len > MAX_PLAIN
            then Pack(w, m) == w + [[m]] && Accounted(w + [[m]]) == Accounted(w) + 2 + m.len + SEAL_OVERHEAD
            else Pack(w, m) == joined && Accounted(joined) == Accounted(groups) + Listed(current + [m]) + SEAL_OVERHEAD
    ensures current != [] ==> Accounted(groups + [current]) == Accounted(groups) + Listed(current) + SEAL_OVERHEAD
    ensures Listed([m]) == 2 + m.len
  {
    var w := Whole(groups, current);
    AccountedExtends(groups, current);
    AccountedExtends(groups, current + [m]);
    AccountedExtends(w, [m]);
    ListedExtends([], m);
    assert [] + [m] == [m];
    if current != [] { assert w[..|w| - 1] == groups && w[|w| - 1] == current; }
  }

  /** What holds between messages: packed so far, with the running size and account. */
  ghost predicate Running(done: seq<Msg>, groups: seq<Group>, current: Group, size: int, total: int) {
    && Whole(groups, current) == PackAll(done) && Allowed(PackAll(done))
    && size == Listed(current) && total == Accounted(groups)
    && (current == [] ==> groups == [])
  }

  lemma Taken(done: seq<Msg>, m: Msg)
    ensures PackAll(done + [m]) == Pack(PackAll(done), m)
  {
    assert (done + [m])[..|done|] == done;
  }

  /** One round of the packing loop, for a message that fits a chunk; false means stop. */
  method PackOne(ghost done: seq<Msg>, m: Msg, groups0: seq<Group>, current0: Group, size0: int, total0: int)
    returns (more: bool, groups: seq<Group>, current: Group, size: int, total: int)
    requires Running(done, groups0, current0, size0, total0) && Fits(m)
    ensures more <==> Allowed(PackAll(done + [m]))
    ensures more ==> Running(done + [m], groups, current, size, total)
    ensures !more ==> Whole(groups, current) == PackAll(done)
  {
    groups, current, size, total := groups0, current0, size0, total0;
    Taken(done, m);
    PackStep(groups, current, m);
    ListedExtends(current, m);
    var add := m.len + if |current| > 0 then 1 else 0;
    if size + add > MAX_PLAIN {
      groups, total := groups + [current], total + size + SEAL_OVERHEAD;
      current, size, add := [], 2, m.len;
    }
    if |current| == 0 && |groups| >= MAX_CHUNKS { return false, groups, current, size, total; }
    if total + size + add + SEAL_OVERHEAD > MAX_BYTES { return false, groups, current, size, total; }
    assert [] + [m] == [m];
    current, size := current + [m], size + add;
    more := true;
  }

  /**
   * The chunks are the greedy packing of the newest messages, turned oldest first; the count
   * is the largest for which that packing stays within the limits.
   */
  method BuildChunks(messages: seq<Msg>) returns (chunks: seq<Group>, kept: nat)
    ensures var all := Eligible(messages);
            && kept <= |all|
            && chunks == Turned(PackAll(all[..kept]))
            && Allowed(PackAll(all[..kept]))
            && (kept < |all| ==> !Allowed(PackAll(all[..kept + 1])))
  {
    var groups: seq<Group>, current: Group := [], [];
    var size, total := 2, 0;
    kept := 0;
    ghost var all := Eligible(messages);
    var i := 0;
    while i < |messages|
      invariant 0 <= i <= |messages|
      invariant Eligible(messages[..i]) <= all && kept == |Eligible(messages[..i])|
      invariant Running(all[..kept], groups, current, size, total)
    {
      var m := messages[i];
      EligiblePrefix(messages, i + 1);
      assert messages[..i + 1][..i] == messages[..i];
      i := i + 1;
      if m.len + 2 > MAX_PLAIN { continue; }
      assert all[..kept + 1] == all[..kept] + [m];
      var more;
      more, groups, current, size, total := PackOne(all[..kept], m, groups, current, size, total);
      if !more { break; }
      kept := kept + 1;
    }
    assert messages[..|messages|] == messages;
    if |current| > 0 { groups := groups + [current]; }
    chunks := Turn(groups);
  }

  /** What a receiver relies on: bounds, content and order. */
  lemma ChunksCarryThePrefix(messages: seq<Msg>, kept: nat, chunks: seq<Group>)
    requires kept <= |Eligible(messages)| && chunks == Turned(PackAll(Eligible(messages)[..kept]))
    requires Allowed(PackAll(Eligible(messages)[..kept]))
    ensures |chunks| <= MAX_CHUNKS && Accounted(chunks) <= MAX_BYTES
    ensures forall i :: 0 <= i < |chunks| ==>
              chunks[i] != [] && Listed(chunks[i]) + SEAL_OVERHEAD + ENVELOPE_RESERVE <= MAX_CHUNK
    ensures Flatten(chunks) == Reversed(Eligible(messages)[..kept])
    ensures |Flatten(chunks)| == kept
  {
    var ms := Eligible(messages)[..kept];
    EligibleFits(messages);
    PackAllKeeps(ms);
    TurnedReads(PackAll(ms));
    TurnedAccount(PackAll(ms));
    ReversedTotal(ms);
  }

  lemma {:induction false} EligibleFits(ms: seq<Msg>)
    ensures forall i :: 0 <= i < |Eligible(ms)| ==> Fits(Eligible(ms)[i])
  {
    if ms != [] { EligibleFits(ms[..|ms| - 1]); }
  }

  /* What the lengths stand for, and what is left out. */

  /** A group as it is written: its records between brackets, with commas. */
  function Written(g: Group, render: Msg -> string): string { "[" + Records(g, render) + "]" }

  function Records(g: Group, render: Msg -> string): string {
    if g == [] then "" else if |g| == 1 then render(g[0])
    else Records(g[..|g| - 1], render) + "," + render(g[|g| - 1])
  }

  /** The length that the limits count is the length of what is written. */
  lemma ListedIsWrittenLength(g: Group, render: Msg -> string)
    requires forall i :: 0 <= i < |g| ==> |render(g[i])| == g[i].len
    ensures |Written(g, render)| == Listed(g)
  {
    RecordsLength(g, render);
  }

  lemma {:induction false} RecordsLength(g: Group, render: Msg -> string)
    requires forall i :: 0 <= i < |g| ==> |render(g[i])| == g[i].len
    ensures |Records(g, render)| == Total(g) - if g == [] then 0 else 1
  {
    if |g| == 1 {
      assert g[..0] == [];
    } else if g != [] {
      RecordsLength(g[..|g| - 1], render);
    }
  }

  /** Left out for its size is exactly a message that no chunk can hold, and the others keep their order. */
  lemma {:induction false} EligibleExactly(ms: seq<Msg>, n: nat)
    requires n <= |ms|
    ensures |Eligible(ms[..n])| <= n && Eligible(ms[..n]) <= Eligible(ms)
    ensures n < |ms| ==>
              Eligible(ms[..n + 1]) == Eligible(ms[..n]) + if ms[n].len + 2 <= 262144 - 40 - 1024 then [ms[n]] else []
    decreases |ms| - n
  {
    if n < |ms| {
      EligibleExactly(ms, n + 1);
      assert ms[..n + 1][..n] == ms[..n];
    } else {
      assert ms[..n] == ms;
      EligibleLength(ms);
    }
    EligibleLength(ms[..n]);
  }

  lemma {:induction false} EligibleLength(ms: seq<Msg>)
    ensures |Eligible(ms)| <= |ms|
  {
    if ms != [] { EligibleLength(ms[..|ms| - 1]); }
  }

  /**
   * The packer's result is the best there is: no division of the newest eligible messages into at most 256
   * chunks, each within its bound and together within 50 MiB, carries more of them; and all of them are
   * carried where that is possible at all.
   */
  lemma NoPackingCarriesMore(messages: seq<Msg>, kept: nat, gs: seq<Group>, k: nat)
    requires kept <= |Eligible(messages)|
    requires kept < |Eligible(messages)| ==> !Allowed(PackAll(Eligible(messages)[..kept + 1]))
    requires k <= |Eligible(messages)| && Flatten(gs) == Eligible(messages)[..k]
    requires forall i :: 0 <= i < |gs| ==> gs[i] != [] && Listed(gs[i]) + 40 + 1024 <= 262144
    requires |gs| <= 256 && Accounted(gs) <= 52428800
    ensures k <= kept
  {
    if kept < |Eligible(messages)| { StoppingKeepsMost(Eligible(messages), kept, gs, k); }
  }

  /** Each chunk counts with what is written of it and the 40 bytes of its seal. */
  lemma AccountedCounts(gs: seq<Group>, g: Group, render: Msg -> string)
    requires forall i :: 0 <= i < |g| ==> |render(g[i])| == g[i].len
    ensures Accounted([]) == 0 && Accounted(gs + [g]) == Accounted(gs) + |Written(g, render)| + 40
  {
    ListedIsWrittenLength(g, render);
    AccountedExtends(gs, g);
  }
}
