/**
 * Sealed events whose key generation is missing: the first becomes the leader of one pull,
 * later ones queue as its followers, and a full queue turns an event away to a placeholder.
 */
module ScopePulls {
  const MAX_WAITERS := 64

  /** A scope and key generation. */
  type Pull = (int, nat)
  /** A submitted event, standing for its own resolver and renderer. */
  type Work = nat

  datatype Queue = Queue(inFlight: set<Pull>, waiters: map<Pull, seq<Work>>)
  datatype Verdict = Leads | Queued | TurnedAway

  function Waiting(q: Queue, p: Pull): seq<Work> { if p in q.waiters then q.waiters[p] else [] }

  function Judge(q: Queue, p: Pull): Verdict {
    if p !in q.inFlight then Leads else if |Waiting(q, p)| >= MAX_WAITERS then TurnedAway else Queued
  }

  function Join(q: Queue, p: Pull, work: Work): Queue {
    match Judge(q, p)
    case Leads => q.(inFlight := q.inFlight + {p})
    case Queued => q.(waiters := q.waiters[p := Waiting(q, p) + [work]])
    case TurnedAway => q
  }

  function Finish(q: Queue, p: Pull): Queue { Queue(q.inFlight - {p}, q.waiters - {p}) }

  class PullQueue {
    var inFlight: set<Pull>
    var waiters: map<Pull, seq<Work>>

    ghost function View(): Queue
      reads this
    {
      Queue(inFlight, waiters)
    }

    constructor ()
      ensures View() == Queue({}, map[])
    {
      inFlight, waiters := {}, map[];
    }

    method QueuePull(p: Pull, work: Work) returns (leader: bool, queued: bool)
      modifies this
      ensures View() == Join(old(View()), p, work)
      ensures leader <==> p !in old(inFlight)
      ensures queued <==> leader || |Waiting(old(View()), p)| < 64
    {
      if p in inFlight {
        if p in waiters && |waiters[p]| >= MAX_WAITERS { return false, false; }
        waiters := waiters[p := (if p in waiters then waiters[p] else []) + [work]];
        return false, true;
      }
      inFlight := inFlight + {p};
      return true, true;
    }

    method FinishQueuedPull(p: Pull) returns (callbacks: seq<Work>)
      modifies this
      ensures View() == Finish(old(View()), p) && callbacks == Waiting(old(View()), p)
    {
      callbacks := if p in waiters then waiters[p] else [];
      waiters := waiters - {p};
      inFlight := inFlight - {p};
    }
  }

  /* Runs. A leader is claimed, then has a worker (or is refused one), then has its text. */

  /** What is shown for an event: the text of somebody's resolver, or the fixed placeholder. */
  datatype Text = ResolvedBy(work: Work) | Placeholder
  datatype Phase = Claimed | Working | Resolved(text: Text)
  datatype Leader = Leader(work: Work, phase: Phase)
  /** What a worker still has to show: a text it has, or the event's own resolver's. */
  datatype Item = Ready(work: Work, text: Text) | ToResolve(work: Work)
  datatype Shown = Shown(work: Work, text: Text)
  /** Where a submitted event is; it follows the event and decides nothing. */
  datatype Place = Leading(pull: Pull) | InQueue(pull: Pull) | WithWorker(who: Work) | OwedByCaller | Done

  datatype World = World(
    q: Queue,
    leaders: map<Pull, Leader>,
    jobs: map<Work, seq<Item>>,
    owed: set<Work>,
    shown: seq<Shown>,
    place: map<Work, Place>)

  datatype Step =
    | Submit(pull: Pull, work: Work)
    | Accept(pull: Pull)
    | Refuse(pull: Pull)
    | ResolveText(pull: Pull)
    | FinishPull(pull: Pull)
    | EmitNext(who: Work)
    | ShowOwed(work: Work)

  predicate LeaderIs(w: World, p: Pull, phase: Phase) { p in w.leaders && w.leaders[p].phase == phase }

  predicate Enabled(w: World, s: Step) {
    match s
    case Submit(_, work) => work !in w.place
    case Accept(p) => LeaderIs(w, p, Claimed)
    case Refuse(p) => LeaderIs(w, p, Claimed)
    case ResolveText(p) => LeaderIs(w, p, Working)
    case FinishPull(p) => p in w.leaders && w.leaders[p].phase.Resolved?
    case EmitNext(who) => who in w.jobs && w.jobs[who] != []
    case ShowOwed(work) => work in w.owed
  }

  function Blanks(ws: seq<Work>): (r: seq<Item>)
    ensures |r| == |ws| && forall i :: 0 <= i < |r| ==> r[i] == Ready(ws[i], Placeholder)
  {
    seq(|ws|, i requires 0 <= i < |ws| => Ready(ws[i], Placeholder))
  }

  function Own(ws: seq<Work>): (r: seq<Item>)
    ensures |r| == |ws| && forall i :: 0 <= i < |r| ==> r[i] == ToResolve(ws[i])
  {
    seq(|ws|, i requires 0 <= i < |ws| => ToResolve(ws[i]))
  }

  /** The followers of `p` go to worker `who`. */
  function Handed(place: map<Work, Place>, p: Pull, who: Work): map<Work, Place> {
    map x | x in place :: if place[x] == InQueue(p) then WithWorker(who) else place[x]
  }

  function Show(i: Item): Shown { Shown(i.work, if i.Ready? then i.text else ResolvedBy(i.work)) }

  function Next(w: World, s: Step): World
    requires Enabled(w, s)
  {
    match s
    case Submit(p, x) =>
      (match Judge(w.q, p)
       case Leads => w.(q := Join(w.q, p, x), leaders := w.leaders[p := Leader(x, Claimed)],
           place := w.place[x := Leading(p)])
       case Queued => w.(q := Join(w.q, p, x), place := w.place[x := InQueue(p)])
       case TurnedAway => w.(q := Join(w.q, p, x), owed := w.owed + {x}, place := w.place[x := OwedByCaller]))
    case Accept(p) => w.(leaders := w.leaders[p := w.leaders[p].(phase := Working)])
    case Refuse(p) =>
      var x := w.leaders[p].work;
      w.(q := Finish(w.q, p), leaders := w.leaders - {p}, jobs := w.jobs[x := Blanks(Waiting(w.q, p))],
         owed := w.owed + {x}, place := Handed(w.place, p, x)[x := OwedByCaller])
    case ResolveText(p) =>
      w.(leaders := w.leaders[p := w.leaders[p].(phase := Resolved(ResolvedBy(w.leaders[p].work)))])
    case FinishPull(p) =>
      var x := w.leaders[p].work;
      w.(q := Finish(w.q, p), leaders := w.leaders - {p},
         jobs := w.jobs[x := [Ready(x, w.leaders[p].phase.text)] + Own(Waiting(w.q, p))],
         place := Handed(w.place, p, x)[x := WithWorker(x)])
    case EmitNext(who) =>
      var item := w.jobs[who][0];
      w.(jobs := w.jobs[who := w.jobs[who][1..]], shown := w.shown + [Show(item)], place := w.place[item.work := Done])
    case ShowOwed(x) => w.(owed := w.owed - {x}, shown := w.shown + [Shown(x, Placeholder)],
        place := w.place[x := Done])
  }

  predicate Distinct(ws: seq<Work>) { forall i, j :: 0 <= i < j < |ws| ==> ws[i] != ws[j] }

  predicate InJob(w: World, who: Work, x: Work) { who in w.jobs && exists i ::
      0 <= i < |w.jobs[who]| && w.jobs[who][i].work == x }

  predicate IsShown(w: World, x: Work) { exists i :: 0 <= i < |w.shown| && w.shown[i].work == x }

  /** A submitted event is where its place says. */
  predicate PlaceOk(w: World, x: Work) {
    x in w.place &&
    match w.place[x]
    case Leading(p) => p in w.leaders && w.leaders[p].work == x
    case InQueue(p) => x in Waiting(w.q, p)
    case WithWorker(who) => InJob(w, who, x)
    case OwedByCaller => x in w.owed
    case Done => IsShown(w, x)
  }

  predicate PlacedAt(w: World, x: Work, at: Place) { x in w.place && w.place[x] == at }

  predicate LeaderOk(w: World, p: Pull) {
    p in w.leaders && p in w.q.inFlight && PlacedAt(w, w.leaders[p].work, Leading(p)) && w.leaders[p].work !in w.jobs
    && (w.leaders[p].phase.Resolved? ==> w.leaders[p].phase.text == ResolvedBy(w.leaders[p].work))
  }

  predicate QueueOk(w: World, p: Pull) {
    && |Waiting(w.q, p)| <= MAX_WAITERS
    && (Waiting(w.q, p) != [] ==> p in w.q.inFlight)
    && Distinct(Waiting(w.q, p))
    && forall i :: 0 <= i < |Waiting(w.q, p)| ==> PlacedAt(w, Waiting(w.q, p)[i], InQueue(p))
  }

  predicate OwnText(x: Work, t: Text) { t == Placeholder || t == ResolvedBy(x) }

  predicate JobOk(w: World, who: Work) {
    who in w.jobs && who in w.place
    && (forall i :: 0 <= i < |w.jobs[who]| ==>
         PlacedAt(w, w.jobs[who][i].work, WithWorker(who)) &&
             OwnText(Show(w.jobs[who][i]).work, Show(w.jobs[who][i]).text))
    && (forall i, j :: 0 <= i < j < |w.jobs[who]| ==> w.jobs[who][i].work != w.jobs[who][j].work)
  }

  predicate ShownOk(w: World) {
    && (forall i :: 0 <= i < |w.shown| ==>
         PlacedAt(w, w.shown[i].work, Done) && OwnText(w.shown[i].work, w.shown[i].text))
    && (forall i, j :: 0 <= i < j < |w.shown| ==> w.shown[i].work != w.shown[j].work)
  }

  ghost predicate Inv(w: World) {
    && w.q.inFlight == w.leaders.Keys
    && (forall x {:trigger PlaceOk(w, x)} :: x in w.place ==> PlaceOk(w, x))
    && (forall p {:trigger LeaderOk(w, p)} :: p in w.leaders ==> LeaderOk(w, p))
    && (forall p {:trigger QueueOk(w, p)} :: QueueOk(w, p))
    && (forall who {:trigger JobOk(w, who)} :: who in w.jobs ==> JobOk(w, who))
    && (forall x :: x in w.owed ==> PlacedAt(w, x, OwedByCaller))
    && ShownOk(w)
  }

  /* Each step keeps each event in exactly one place. */

  lemma SubmitPlaces(w: World, p: Pull, x: Work, y: Work)
    requires Inv(w) && x !in w.place
    requires y in Next(w, Submit(p, x)).place
    ensures PlaceOk(Next(w, Submit(p, x)), y)
  {
    if y == x {
      if Judge(w.q, p).Queued? { assert (Waiting(w.q, p) + [x])[|Waiting(w.q, p)|] == x; }
    } else {
      assert PlaceOk(w, y);
    }
  }

  lemma SubmitKeeps(w: World, p: Pull, x: Work)
    requires Inv(w) && x !in w.place
    ensures Inv(Next(w, Submit(p, x)))
  {
    var w' := Next(w, Submit(p, x));
    forall y | y in w'.place ensures PlaceOk(w', y) { SubmitPlaces(w, p, x, y); }
    assert x in w.jobs ==> JobOk(w, x);
    forall r | r in w'.leaders ensures LeaderOk(w', r) {
      assert r in w.leaders ==> LeaderOk(w, r);
      SubmitLeaders(w, p, x, r);
    }
    SubmitShown(w, p, x);
    forall r ensures QueueOk(w', r) { assert QueueOk(w, r); SubmitQueues(w, p, x, r); }
    forall who | who in w'.jobs ensures JobOk(w', who) { SubmitJobs(w, p, x, who); }
  }

  lemma SubmitLeaders(w: World, p: Pull, x: Work, r: Pull)
    requires x !in w.place && x !in w.jobs && r in Next(w, Submit(p, x)).leaders
    requires r in w.leaders ==> LeaderOk(w, r)
    requires w.q.inFlight == w.leaders.Keys
    ensures LeaderOk(Next(w, Submit(p, x)), r)
  {
  }

  lemma SubmitShown(w: World, p: Pull, x: Work)
    requires x !in w.place && ShownOk(w) && forall y :: y in w.owed ==> PlacedAt(w, y, OwedByCaller)
    ensures ShownOk(Next(w, Submit(p, x)))
    ensures var w' := Next(w, Submit(p, x)); forall y :: y in w'.owed ==> PlacedAt(w', y, OwedByCaller)
  {
  }

  lemma SubmitJobs(w: World, p: Pull, x: Work, who: Work)
    requires x !in w.place && who in w.jobs && JobOk(w, who)
    ensures JobOk(Next(w, Submit(p, x)), who)
  {
  }

  lemma SubmitQueues(w: World, p: Pull, x: Work, r: Pull)
    requires QueueOk(w, r) && x !in w.place
    ensures QueueOk(Next(w, Submit(p, x)), r)
  {
  }

  lemma PhaseKeeps(w: World, w': World, p: Pull)
    requires Inv(w) && p in w.leaders && p in w'.leaders && w' == w.(leaders := w.leaders[p := w'.leaders[p]])
    requires w'.leaders[p].work == w.leaders[p].work
    requires w'.leaders[p].phase.Resolved? ==> w'.leaders[p].phase.text == ResolvedBy(w.leaders[p].work)
    ensures Inv(w')
  {
    forall y | y in w'.place ensures PlaceOk(w', y) { assert PlaceOk(w, y); }
    forall r | r in w'.leaders ensures LeaderOk(w', r) { assert LeaderOk(w, r); }
    forall r ensures QueueOk(w', r) { assert QueueOk(w, r); }
    forall who | who in w'.jobs ensures JobOk(w', who) { assert JobOk(w, who); }
  }

  /** What ending a pull has in common: its followers, and perhaps its leader, become a worker's job. */
  predicate EndsPull(w: World, w': World, p: Pull, items: seq<Item>, at: Place) {
    && p in w.leaders
    && var x := w.leaders[p].work;
    && w' == w.(q := Finish(w.q, p), leaders := w.leaders - {p}, jobs := w.jobs[x := items],
                owed := w'.owed, place := Handed(w.place, p, x)[x := at])
    && w'.owed == (if at == OwedByCaller then w.owed + {x} else w.owed)
    && (at == OwedByCaller || at == WithWorker(x))
  }

  predicate JobOf(w: World, p: Pull, items: seq<Item>, at: Place)
    requires p in w.leaders
  {
    var x, ws := w.leaders[p].work, Waiting(w.q, p);
    var off := if at == WithWorker(x) then 1 else 0;
    && |items| == |ws| + off
    && (off == 1 ==> items[0].work == x)
    && (forall i :: 0 <= i < |ws| ==> items[i + off].work == ws[i])
    && (forall i :: 0 <= i < |items| ==> OwnText(Show(items[i]).work, Show(items[i]).text))
  }

  lemma EndPlaces(w: World, w': World, p: Pull, items: seq<Item>, at: Place, y: Work)
    requires Inv(w) && EndsPull(w, w', p, items, at) && JobOf(w, p, items, at) && y in w'.place
    ensures PlaceOk(w', y)
  {
    var x, ws := w.leaders[p].work, Waiting(w.q, p);
    var off := if at == WithWorker(x) then 1 else 0;
    assert LeaderOk(w, p) && PlaceOk(w, y);
    if y == x {
    } else if w.place[y] == InQueue(p) {
      var i :| 0 <= i < |ws| && ws[i] == y;
      assert items[i + off].work == y;
    }
  }

  lemma EndItem(w: World, w': World, p: Pull, items: seq<Item>, at: Place, i: nat)
    requires LeaderOk(w, p) && QueueOk(w, p) && EndsPull(w, w', p, items, at) && JobOf(w, p, items, at) && i < |items|
    ensures PlacedAt(w', items[i].work, WithWorker(w.leaders[p].work))
    ensures var off := if at.WithWorker? then 1 else 0;
            if i < off then items[i].work == w.leaders[p].work
            else items[i].work == Waiting(w.q, p)[i - off] && items[i].work != w.leaders[p].work
  {
    var x, ws := w.leaders[p].work, Waiting(w.q, p);
    var off := if at == WithWorker(x) then 1 else 0;
    if i >= off {
      assert items[i - off + off].work == ws[i - off];
      assert PlacedAt(w, ws[i - off], InQueue(p));
    }
  }

  lemma EndJob(w: World, w': World, p: Pull, items: seq<Item>, at: Place)
    requires LeaderOk(w, p) && QueueOk(w, p) && EndsPull(w, w', p, items, at) && JobOf(w, p, items, at)
    ensures JobOk(w', w.leaders[p].work)
  {
    forall i | 0 <= i < |items| ensures PlacedAt(w', items[i].work, WithWorker(w.leaders[p].work)) {
      EndItem(w, w', p, items, at, i);
    }
    forall i, j | 0 <= i < j < |items| ensures items[i].work != items[j].work {
      EndItem(w, w', p, items, at, i);
      EndItem(w, w', p, items, at, j);
    }
  }

  lemma EndKeeps(w: World, w': World, p: Pull, items: seq<Item>, at: Place)
    requires Inv(w) && EndsPull(w, w', p, items, at) && JobOf(w, p, items, at)
    ensures Inv(w')
  {
    var x := w.leaders[p].work;
    assert LeaderOk(w, p);
    forall y | y in w'.place ensures PlaceOk(w', y) { EndPlaces(w, w', p, items, at, y); }
    forall r | r in w'.leaders ensures LeaderOk(w', r) { assert LeaderOk(w, r); }
    forall r ensures QueueOk(w', r) { EndQueues(w, w', p, items, at, r); }
    assert QueueOk(w, p);
    EndJob(w, w', p, items, at);
    forall who | who in w'.jobs ensures JobOk(w', who) { if who != x { EndOtherJobs(w, w', p, items, at, who); } }
  }

  lemma EndQueues(w: World, w': World, p: Pull, items: seq<Item>, at: Place, r: Pull)
    requires EndsPull(w, w', p, items, at) && LeaderOk(w, p) && QueueOk(w, r)
    ensures QueueOk(w', r)
  {
    if r != p {
      assert Waiting(w'.q, r) == Waiting(w.q, r);
      forall i | 0 <= i < |Waiting(w.q, r)| ensures PlacedAt(w', Waiting(w.q, r)[i], InQueue(r)) {
        assert PlacedAt(w, Waiting(w.q, r)[i], InQueue(r));
      }
    }
  }

  lemma EndOtherJobs(w: World, w': World, p: Pull, items: seq<Item>, at: Place, who: Work)
    requires EndsPull(w, w', p, items, at) && LeaderOk(w, p) && JobOk(w, who) && who != w.leaders[p].work
    ensures JobOk(w', who)
  {
    forall i | 0 <= i < |w.jobs[who]| ensures PlacedAt(w', w.jobs[who][i].work, WithWorker(who)) {
      assert PlacedAt(w, w.jobs[who][i].work, WithWorker(who));
    }
  }

  /** An event is shown: it was nowhere else, and now it is there for good. */
  predicate Shows(w: World, w': World, x: Work, t: Text) {
    && w'.q == w.q && w'.leaders == w.leaders && w'.place == w.place[x := Done] && w'.shown == w.shown + [Shown(x, t)]
    && OwnText(x, t)
  }

  lemma ShowKeeps(w: World, w': World, x: Work, t: Text)
    requires ShownOk(w) && Shows(w, w', x, t) && x in w.place && w.place[x] != Done
    ensures ShownOk(w')
  {
    forall i | 0 <= i < |w.shown| ensures w.shown[i].work != x { assert PlacedAt(w, w.shown[i].work, Done); }
    forall i | 0 <= i < |w'.shown| ensures PlacedAt(w', w'.shown[i].work, Done) &&
        OwnText(w'.shown[i].work, w'.shown[i].text) {
      if i < |w.shown| { assert PlacedAt(w, w.shown[i].work, Done); }
    }
  }

  lemma StillShown(w: World, w': World, x: Work, t: Text, y: Work)
    requires Shows(w, w', x, t)
    ensures IsShown(w', y) <==> IsShown(w, y) || y == x
  {
    if IsShown(w, y) {
      var i :| 0 <= i < |w.shown| && w.shown[i].work == y;
      assert w'.shown[i].work == y;
    }
    assert w'.shown[|w.shown|].work == x;
  }

  lemma EmitPlaces(w: World, who: Work, y: Work)
    requires Inv(w) && Enabled(w, EmitNext(who)) && y in w.place
    ensures PlaceOk(Next(w, EmitNext(who)), y)
  {
    var w', item := Next(w, EmitNext(who)), w.jobs[who][0];
    assert JobOk(w, who);
    StillShown(w, w', item.work, Show(item).text, y);
    assert PlaceOk(w, y);
    if y != item.work && w.place[y] == WithWorker(who) {
      var i :| 0 <= i < |w.jobs[who]| && w.jobs[who][i].work == y;
      assert w'.jobs[who][i - 1].work == y;
    }
  }

  lemma EmitKeeps(w: World, who: Work)
    requires Inv(w) && Enabled(w, EmitNext(who))
    ensures Inv(Next(w, EmitNext(who)))
  {
    var w', item := Next(w, EmitNext(who)), w.jobs[who][0];
    assert JobOk(w, who);
    assert PlacedAt(w, item.work, WithWorker(who));
    ShowKeeps(w, w', item.work, Show(item).text);
    forall y | y in w'.place ensures PlaceOk(w', y) { EmitPlaces(w, who, y); }
    forall p | p in w'.leaders ensures LeaderOk(w', p) { assert LeaderOk(w, p); }
    forall p ensures QueueOk(w', p) { assert QueueOk(w, p); ShowSparesQueue(w, w', item.work, Show(item).text, p); }
    forall o | o in w'.jobs ensures JobOk(w', o) { assert JobOk(w, o); EmitSparesJob(w, who, o); }
  }

  lemma ShowSparesQueue(w: World, w': World, x: Work, t: Text, p: Pull)
    requires Shows(w, w', x, t) && QueueOk(w, p) && x in w.place && !w.place[x].InQueue?
    ensures QueueOk(w', p)
  {
    forall i | 0 <= i < |Waiting(w.q, p)| ensures PlacedAt(w', Waiting(w.q, p)[i], InQueue(p)) {
      assert PlacedAt(w, Waiting(w.q, p)[i], InQueue(p));
    }
  }

  lemma EmitSparesJob(w: World, who: Work, o: Work)
    requires Enabled(w, EmitNext(who)) && JobOk(w, who) && JobOk(w, o)
    ensures JobOk(Next(w, EmitNext(who)), o)
  {
    var w', item := Next(w, EmitNext(who)), w.jobs[who][0];
    assert PlacedAt(w, item.work, WithWorker(who));
    var off := if o == who then 1 else 0;
    forall i | 0 <= i < |w'.jobs[o]|
      ensures w'.jobs[o][i] == w.jobs[o][i + off] && PlacedAt(w', w'.jobs[o][i].work, WithWorker(o))
              && OwnText(Show(w'.jobs[o][i]).work, Show(w'.jobs[o][i]).text)
    {
      assert PlacedAt(w, w.jobs[o][i + off].work, WithWorker(o));
    }
  }

  lemma OwedKeeps(w: World, x: Work)
    requires Inv(w) && x in w.owed
    ensures Inv(Next(w, ShowOwed(x)))
  {
    var w' := Next(w, ShowOwed(x));
    assert PlacedAt(w, x, OwedByCaller);
    ShowKeeps(w, w', x, Placeholder);
    forall y | y in w'.place ensures PlaceOk(w', y) { assert PlaceOk(w, y); StillShown(w, w', x, Placeholder, y); }
    forall p | p in w'.leaders ensures LeaderOk(w', p) { assert LeaderOk(w, p); }
    forall p ensures QueueOk(w', p) { assert QueueOk(w, p); ShowSparesQueue(w, w', x, Placeholder, p); }
    forall o | o in w'.jobs ensures JobOk(w', o) {
      assert JobOk(w, o);
      assert forall i :: 0 <= i < |w.jobs[o]| ==> PlacedAt(w, w.jobs[o][i].work, WithWorker(o));
    }
  }

  lemma RefuseKeeps(w: World, p: Pull)
    requires Inv(w) && Enabled(w, Refuse(p))
    ensures Inv(Next(w, Refuse(p)))
  {
    EndKeeps(w, Next(w, Refuse(p)), p, Blanks(Waiting(w.q, p)), OwedByCaller);
  }

  lemma FinishKeeps(w: World, p: Pull)
    requires Inv(w) && Enabled(w, FinishPull(p))
    ensures Inv(Next(w, FinishPull(p)))
  {
    var x := w.leaders[p].work;
    var items := [Ready(x, w.leaders[p].phase.text)] + Own(Waiting(w.q, p));
    FinishedJob(w, p, items);
    EndKeeps(w, Next(w, FinishPull(p)), p, items, WithWorker(x));
  }

  lemma FinishedJob(w: World, p: Pull, items: seq<Item>)
    requires p in w.leaders && LeaderOk(w, p) && w.leaders[p].phase.Resolved?
    requires items == [Ready(w.leaders[p].work, w.leaders[p].phase.text)] + Own(Waiting(w.q, p))
    ensures JobOf(w, p, items, WithWorker(w.leaders[p].work))
  {
    var ws := Waiting(w.q, p);
    forall i | 0 <= i < |ws| ensures items[i + 1] == Own(ws)[i] {}
    forall i | 0 <= i < |items| ensures OwnText(Show(items[i]).work, Show(items[i]).text) {
      if i > 0 { assert items[i - 1 + 1] == Own(ws)[i - 1]; }
    }
  }

  lemma StepKeepsInv(w: World, s: Step)
    requires Inv(w) && Enabled(w, s)
    ensures Inv(Next(w, s))
  {
    match s
    case Submit(p, x) => SubmitKeeps(w, p, x);
    case Accept(p) => PhaseKeeps(w, Next(w, s), p);
    case ResolveText(p) => PhaseKeeps(w, Next(w, s), p);
    case Refuse(p) => RefuseKeeps(w, p);
    case FinishPull(p) => FinishKeeps(w, p);
    case EmitNext(who) => EmitKeeps(w, who);
    case ShowOwed(x) => OwedKeeps(w, x);
  }

  const START := World(Queue({}, map[]), map[], map[], {}, [], map[])

  ghost predicate Run(ws: seq<World>, steps: seq<Step>) {
    && |ws| == |steps| + 1 && ws[0] == START
    && forall i {:trigger steps[i]} :: 0 <= i < |steps| ==>
         Enabled(ws[i], steps[i]) && ws[i + 1] == Next(ws[i], steps[i])
  }

  lemma {:induction false} RunsKeepInv(ws: seq<World>, steps: seq<Step>, i: nat)
    requires Run(ws, steps) && i < |ws|
    ensures Inv(ws[i])
  {
    if i > 0 {
      RunsKeepInv(ws, steps, i - 1);
      assert ws[i - 1 + 1] == Next(ws[i - 1], steps[i - 1]);
      StepKeepsInv(ws[i - 1], steps[i - 1]);
    } else {
      forall p ensures QueueOk(START, p) {}
    }
  }

  /** No event is shown twice, and none is shown anything but its own text or the placeholder. */
  lemma ShownAtMostOnce(ws: seq<World>, steps: seq<Step>, i: nat, a: nat, b: nat)
    requires Run(ws, steps) && i < |ws| && a < |ws[i].shown| && b < |ws[i].shown| &&
               ws[i].shown[a].work == ws[i].shown[b].work
    ensures a == b && OwnText(ws[i].shown[a].work, ws[i].shown[a].text)
  {
    RunsKeepInv(ws, steps, i);
  }

  /** The two ways an event is given up: its queue is full, or its pull gets no worker. */
  predicate GivesUp(w: World, s: Step, x: Work) {
    || (s.Submit? && s.work == x && s.pull in w.q.inFlight && |Waiting(w.q, s.pull)| >= 64)
    || (s.Refuse? && s.pull in w.leaders && (w.leaders[s.pull].work == x || x in Waiting(w.q, s.pull)))
  }

  /** The event has been, or is going to be, shown as the placeholder. */
  ghost predicate Blanked(w: World, x: Work) {
    || x in w.owed
    || Shown(x, Placeholder) in w.shown
    || exists who :: who in w.jobs && Ready(x, Placeholder) in w.jobs[who]
  }

  lemma EndBlanks(w: World, s: Step, x: Work)
    requires Inv(w) && Enabled(w, s) && (s.Refuse? || s.FinishPull?) && Blanked(Next(w, s), x)
    ensures Blanked(w, x) || GivesUp(w, s, x)
  {
    var w' := Next(w, s);
    assert LeaderOk(w, s.pull);
    if who :| who in w'.jobs && Ready(x, Placeholder) in w'.jobs[who] {
      if who == w.leaders[s.pull].work {
        var i :| 0 <= i < |w'.jobs[who]| && w'.jobs[who][i] == Ready(x, Placeholder);
        assert s.Refuse? ==> Waiting(w.q, s.pull)[i] == x;
      } else {
        assert who in w.jobs && Ready(x, Placeholder) in w.jobs[who];
      }
    }
  }

  lemma EmitBlanks(w: World, who: Work, x: Work)
    requires Enabled(w, EmitNext(who)) && Blanked(Next(w, EmitNext(who)), x)
    ensures Blanked(w, x)
  {
    var w', item := Next(w, EmitNext(who)), w.jobs[who][0];
    assert item in w.jobs[who];
    if o :| o in w'.jobs && Ready(x, Placeholder) in w'.jobs[o] {
      assert o in w.jobs && Ready(x, Placeholder) in w.jobs[o];
    } else if Shown(x, Placeholder) in w'.shown && Shown(x, Placeholder) !in w.shown {
      assert Show(item) == Shown(x, Placeholder);
      assert item == Ready(x, Placeholder);
    }
  }

  lemma StepBlanks(w: World, s: Step, x: Work)
    requires Inv(w) && Enabled(w, s) && Blanked(Next(w, s), x)
    ensures Blanked(w, x) || GivesUp(w, s, x)
  {
    match s
    case Refuse(_) => EndBlanks(w, s, x);
    case FinishPull(_) => EndBlanks(w, s, x);
    case EmitNext(who) => EmitBlanks(w, who, x);
    case _ =>
  }

  lemma {:induction false} BlankedWasGivenUp(ws: seq<World>, steps: seq<Step>, i: nat, x: Work)
    requires Run(ws, steps) && i < |ws| && Blanked(ws[i], x)
    ensures exists k :: 0 <= k < i && GivesUp(ws[k], steps[k], x)
  {
    if i > 0 {
      RunsKeepInv(ws, steps, i - 1);
      assert ws[i - 1 + 1] == Next(ws[i - 1], steps[i - 1]);
      StepBlanks(ws[i - 1], steps[i - 1], x);
      if Blanked(ws[i - 1], x) { BlankedWasGivenUp(ws, steps, i - 1, x); }
    }
  }

  /** The placeholder is shown only for an event turned away from a full queue, or whose pull got no worker. */
  lemma PlaceholderOnlyIfGivenUp(ws: seq<World>, steps: seq<Step>, i: nat, a: nat)
    requires Run(ws, steps) && i < |ws| && a < |ws[i].shown| && ws[i].shown[a].text == Placeholder
    ensures exists k :: 0 <= k < i && GivesUp(ws[k], steps[k], ws[i].shown[a].work)
  {
    assert Shown(ws[i].shown[a].work, Placeholder) in ws[i].shown;
    BlankedWasGivenUp(ws, steps, i, ws[i].shown[a].work);
  }

  /** Nothing is left to do: no pull under way, no worker with items, no caller with a placeholder. */
  predicate Quiet(w: World) {
    w.leaders == map[] && w.owed == {} && forall who :: who in w.jobs ==> w.jobs[who] == []
  }

  /** Once quiet, every event ever submitted has been shown. */
  lemma NoneLost(ws: seq<World>, steps: seq<Step>, i: nat, x: Work)
    requires Run(ws, steps) && i < |ws| && Quiet(ws[i]) && x in ws[i].place
    ensures IsShown(ws[i], x)
  {
    RunsKeepInv(ws, steps, i);
    var at := ws[i].place[x];
    assert at.InQueue? ==> QueueOk(ws[i], at.pull);
    assert PlaceOk(ws[i], x);
  }

  /** While an event is not shown there is a step to take: no follower is stranded. */
  lemma SomeStepToTake(w: World, x: Work)
    requires Inv(w) && x in w.place && !IsShown(w, x)
    ensures exists s: Step :: !s.Submit? && Enabled(w, s)
  {
    assert PlaceOk(w, x);
    match w.place[x]
    case Leading(p) => LeaderMoves(w, p);
    case InQueue(p) => assert QueueOk(w, p); LeaderMoves(w, p);
    case WithWorker(who) => assert Enabled(w, EmitNext(who));
    case OwedByCaller => assert Enabled(w, ShowOwed(x));
  }

  lemma LeaderMoves(w: World, p: Pull)
    requires p in w.leaders
    ensures exists s: Step :: !s.Submit? && Enabled(w, s)
  {
    match w.leaders[p].phase
    case Claimed => assert Enabled(w, Accept(p));
    case Working => assert Enabled(w, ResolveText(p));
    case Resolved(_) => assert Enabled(w, FinishPull(p));
  }

  /* Every event is shown in the end. */

  /** Events not shown; pulls under way; pulls without a worker yet; pulls without their text yet. */
  ghost function Unshown(w: World): set<Work> { set x | x in w.place && w.place[x] != Done }
  ghost function Unworked(w: World): set<Pull> { set p | p in w.leaders && w.leaders[p].phase == Claimed }
  ghost function Unresolved(w: World): set<Pull> { set p | p in w.leaders && !w.leaders[p].phase.Resolved? }

  /** Less is left to do. */
  ghost predicate Lower(w': World, w: World) {
    || |Unshown(w')| < |Unshown(w)|
    || (|Unshown(w')| == |Unshown(w)| && |w'.leaders| < |w.leaders|)
    || (|Unshown(w')| == |Unshown(w)| && |w'.leaders| == |w.leaders|
        && |Unworked(w')| + |Unresolved(w')| < |Unworked(w)| + |Unresolved(w)|)
  }

  lemma ShowLowers(w: World, w': World, x: Work)
    requires x in w.place && w.place[x] != Done && w'.place == w.place[x := Done]
    ensures |Unshown(w')| < |Unshown(w)|
  {
    assert Unshown(w') == Unshown(w) - {x} && x in Unshown(w);
  }

  lemma EndLowers(w: World, w': World, p: Pull, at: Place)
    requires p in w.leaders && w.leaders[p].work in w.place && !w.place[w.leaders[p].work].Done? && !at.Done?
    requires w'.leaders == w.leaders - {p}
    requires w'.place == Handed(w.place, p, w.leaders[p].work)[w.leaders[p].work := at]
    ensures Lower(w', w)
  {
    assert Unshown(w') == Unshown(w);
    assert w'.leaders.Keys == w.leaders.Keys - {p};
    assert |w'.leaders.Keys| < |w.leaders.Keys|;
  }

  lemma PhaseLowers(w: World, w': World, p: Pull)
    requires p in w.leaders && p in w'.leaders && w'.place == w.place && w'.leaders == w.leaders[p := w'.leaders[p]]
    requires (w.leaders[p].phase == Claimed && w'.leaders[p].phase == Working)
             || (w.leaders[p].phase == Working && w'.leaders[p].phase.Resolved?)
    ensures Lower(w', w)
  {
    assert Unshown(w') == Unshown(w) && w'.leaders.Keys == w.leaders.Keys;
    assert |w'.leaders| == |w'.leaders.Keys| && |w.leaders| == |w.leaders.Keys|;
    if w.leaders[p].phase == Claimed {
      assert Unworked(w') == Unworked(w) - {p} && p in Unworked(w) && Unresolved(w') == Unresolved(w);
    } else {
      assert Unresolved(w') == Unresolved(w) - {p} && p in Unresolved(w) && Unworked(w') == Unworked(w);
    }
  }

  /** Every step but a new submission leaves less to do, so no sequence of them goes on for ever. */
  lemma StepLowers(w: World, s: Step)
    requires Inv(w) && Enabled(w, s) && !s.Submit?
    ensures Lower(Next(w, s), w)
  {
    var w' := Next(w, s);
    match s
    case Accept(p) => PhaseLowers(w, w', p);
    case ResolveText(p) => PhaseLowers(w, w', p);
    case Refuse(p) =>
      assert LeaderOk(w, p);
      EndLowers(w, w', p, OwedByCaller);
    case FinishPull(p) =>
      assert LeaderOk(w, p);
      EndLowers(w, w', p, WithWorker(w.leaders[p].work));
    case EmitNext(who) =>
      assert JobOk(w, who);
      assert PlacedAt(w, w.jobs[who][0].work, WithWorker(who));
      ShowLowers(w, w', w.jobs[who][0].work);
    case ShowOwed(x) =>
      assert PlacedAt(w, x, OwedByCaller);
      ShowLowers(w, w', x);
  }

  /** Whichever steps are taken, with no new submission they come to an end with every event shown. */
  ghost predicate Completes(w: World)
    requires Inv(w)
    decreases |Unshown(w)|, |w.leaders|, |Unworked(w)| + |Unresolved(w)|
  {
    && ((forall s: Step :: !s.Submit? ==> !Enabled(w, s)) ==> forall x :: x in w.place ==> IsShown(w, x))
    && forall s: Step :: !s.Submit? && Enabled(w, s) ==>
         (StepKeepsInv(w, s); StepLowers(w, s); Completes(Next(w, s)))
  }

  lemma {:induction false} EveryEventIsShown(w: World)
    requires Inv(w)
    ensures Completes(w)
    decreases |Unshown(w)|, |w.leaders|, |Unworked(w)| + |Unresolved(w)|
  {
    if forall s: Step :: !s.Submit? ==> !Enabled(w, s) {
      forall x | x in w.place ensures IsShown(w, x) {
        if !IsShown(w, x) { SomeStepToTake(w, x); }
      }
    }
    forall s: Step | !s.Submit? && Enabled(w, s)
      ensures (StepKeepsInv(w, s); StepLowers(w, s); Completes(Next(w, s)))
    {
      StepKeepsInv(w, s);
      StepLowers(w, s);
      EveryEventIsShown(Next(w, s));
    }
  }

  /** One pull per generation, with its leader; at most 64 followers; no follower without a leader. */
  lemma OnePullPerGeneration(ws: seq<World>, steps: seq<Step>, i: nat, p: Pull)
    requires Run(ws, steps) && i < |ws|
    ensures p in ws[i].q.inFlight <==> p in ws[i].leaders
    ensures |Waiting(ws[i].q, p)| <= MAX_WAITERS
    ensures Waiting(ws[i].q, p) != [] ==> p in ws[i].leaders
    ensures i < |steps| && steps[i].Submit? && steps[i].pull == p && p in ws[i].leaders ==>
              ws[i + 1].leaders == ws[i].leaders
  {
    RunsKeepInv(ws, steps, i);
    assert QueueOk(ws[i], p);
    if i < |steps| { assert ws[i + 1] == Next(ws[i], steps[i]); }
  }
}
