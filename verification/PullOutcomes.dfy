/**
 * What becomes of a submitted event: whether it leads, queues or is turned away, told by where the other
 * events are; what is shown for it; and in which order the followers of a pull are shown.
 */
module PullOutcomes {
  import opened ScopePulls

  /** The events that wait for the generation, and whether somebody is fetching it. */
  function Followers(w: World, p: Pull): set<Work> { set x | x in w.place && w.place[x] == InQueue(p) }

  ghost predicate UnderWay(w: World, p: Pull) { exists x :: x in w.place && w.place[x] == Leading(p) }

  ghost function Members(ws: seq<Work>): set<Work> { set x | x in ws }

  lemma {:induction false} MembersCounted(ws: seq<Work>)
    requires Distinct(ws)
    ensures |Members(ws)| == |ws|
  {
    if ws != [] {
      MembersCounted(ws[1..]);
      assert Members(ws) == Members(ws[1..]) + {ws[0]} && ws[0] !in ws[1..];
    }
  }

  lemma FollowersAreWaiting(w: World, p: Pull)
    requires Inv(w)
    ensures |Followers(w, p)| == |Waiting(w.q, p)| <= 64
    ensures UnderWay(w, p) <==> p in w.q.inFlight
  {
    assert QueueOk(w, p);
    MembersCounted(Waiting(w.q, p));
    forall x | x in Followers(w, p) ensures x in Waiting(w.q, p) { assert PlaceOk(w, x); }
    forall x | x in Waiting(w.q, p) ensures x in Followers(w, p) {
      var i :| 0 <= i < |Waiting(w.q, p)| && Waiting(w.q, p)[i] == x;
      assert PlacedAt(w, Waiting(w.q, p)[i], InQueue(p));
    }
    assert Members(Waiting(w.q, p)) == Followers(w, p);
    if p in w.q.inFlight { assert LeaderOk(w, p); }
    if x :| x in w.place && w.place[x] == Leading(p) { assert PlaceOk(w, x); }
  }

  /**
   * In every run a submitted event leads its generation if nobody does, is turned away exactly if somebody
   * does and 64 events wait, and waits otherwise; no other event moves.
   */
  lemma WhereASubmittedEventGoes(ws: seq<World>, steps: seq<Step>, i: nat)
    requires Run(ws, steps) && i < |steps| && steps[i].Submit?
    ensures var w, p := ws[i], steps[i].pull;
            ws[i + 1].place == w.place[steps[i].work :=
              if !UnderWay(w, p) then Leading(p) else if |Followers(w, p)| == 64 then OwedByCaller else InQueue(p)]
  {
    RunsKeepInv(ws, steps, i);
    assert ws[i + 1] == Next(ws[i], steps[i]);
    FollowersAreWaiting(ws[i], steps[i].pull);
  }

  // ----- the placeholder -----------------------------------------------------------------------

  /** The event is given up: it meets 64 others waiting, or the pull it belongs to is refused a worker. */
  ghost predicate GivenUp(w: World, s: Step, x: Work) {
    || (s.Submit? && s.work == x && UnderWay(w, s.pull) && |Followers(w, s.pull)| == 64)
    || (s.Refuse? && x in w.place && (w.place[x] == Leading(s.pull) || w.place[x] == InQueue(s.pull)))
  }

  lemma GivenUpGivesUp(w: World, s: Step, x: Work)
    requires Inv(w) && Enabled(w, s)
    ensures GivenUp(w, s, x) <==> GivesUp(w, s, x)
  {
    if s.Submit? || s.Refuse? { FollowersAreWaiting(w, s.pull); }
    if s.Refuse? {
      assert LeaderOk(w, s.pull) && QueueOk(w, s.pull);
      if x in w.place { assert PlaceOk(w, x); }
      if x in Waiting(w.q, s.pull) {
        var i :| 0 <= i < |Waiting(w.q, s.pull)| && Waiting(w.q, s.pull)[i] == x;
        assert PlacedAt(w, Waiting(w.q, s.pull)[i], InQueue(s.pull));
      }
    }
  }

  lemma GivingUpBlanks(w: World, s: Step, x: Work)
    requires Inv(w) && Enabled(w, s) && GivesUp(w, s, x)
    ensures Blanked(Next(w, s), x)
  {
    var w' := Next(w, s);
    if s.Refuse? && x != w.leaders[s.pull].work {
      var ws := Waiting(w.q, s.pull);
      var i :| 0 <= i < |ws| && ws[i] == x;
      assert w'.jobs[w.leaders[s.pull].work][i] == Ready(x, Placeholder);
    }
  }

  lemma BlankedStays(w: World, s: Step, x: Work)
    requires Inv(w) && Enabled(w, s) && Blanked(w, x)
    ensures Blanked(Next(w, s), x)
  {
    var w' := Next(w, s);
    if Shown(x, Placeholder) in w.shown {
      assert w.shown <= w'.shown;
    } else if x in w.owed {
      if s == ShowOwed(x) { assert w'.shown[|w.shown|] == Shown(x, Placeholder); }
    } else {
      var who :| who in w.jobs && Ready(x, Placeholder) in w.jobs[who];
      BlankInJobStays(w, s, x, who);
    }
  }

  lemma BlankInJobStays(w: World, s: Step, x: Work, who: Work)
    requires Inv(w) && Enabled(w, s) && who in w.jobs && Ready(x, Placeholder) in w.jobs[who]
    ensures Blanked(Next(w, s), x)
  {
    var w' := Next(w, s);
    if s.EmitNext? && s.who == who {
      var i :| 0 <= i < |w.jobs[who]| && w.jobs[who][i] == Ready(x, Placeholder);
      if i == 0 {
        assert w'.shown[|w.shown|] == Shown(x, Placeholder);
      } else {
        assert w'.jobs[who][i - 1] == Ready(x, Placeholder);
      }
    } else {
      if s.Refuse? || s.FinishPull? { assert LeaderOk(w, s.pull); }
      assert who in w'.jobs && w'.jobs[who] == w.jobs[who];
    }
  }

  lemma {:induction false} GivenUpStaysBlanked(ws: seq<World>, steps: seq<Step>, k: nat, i: nat, x: Work)
    requires Run(ws, steps) && k < i < |ws| && GivesUp(ws[k], steps[k], x)
    ensures Blanked(ws[i], x)
    decreases i
  {
    RunsKeepInv(ws, steps, i - 1);
    assert ws[i - 1 + 1] == Next(ws[i - 1], steps[i - 1]);
    if k == i - 1 {
      GivingUpBlanks(ws[k], steps[k], x);
    } else {
      GivenUpStaysBlanked(ws, steps, k, i - 1, x);
      BlankedStays(ws[i - 1], steps[i - 1], x);
    }
  }

  lemma BlankWithWorker(w: World, who: Work, x: Work)
    requires Inv(w) && who in w.jobs && Ready(x, Placeholder) in w.jobs[who]
    ensures PlacedAt(w, x, WithWorker(who))
  {
    assert JobOk(w, who);
    var i :| 0 <= i < |w.jobs[who]| && w.jobs[who][i] == Ready(x, Placeholder);
    assert PlacedAt(w, w.jobs[who][i].work, WithWorker(who));
  }

  lemma ShownBlank(w: World, a: nat)
    requires Inv(w) && a < |w.shown| && Blanked(w, w.shown[a].work)
    ensures w.shown[a].text == Placeholder
  {
    var x := w.shown[a].work;
    assert PlacedAt(w, x, Done);
    forall who | who in w.jobs && Ready(x, Placeholder) in w.jobs[who] ensures PlacedAt(w, x, WithWorker(who)) {
      BlankWithWorker(w, who, x);
    }
    assert Shown(x, Placeholder) in w.shown;
  }

  /** In every run an event is shown as the placeholder exactly if it was given up; otherwise its own text is. */
  lemma PlaceholderExactlyIfGivenUp(ws: seq<World>, steps: seq<Step>, i: nat, a: nat)
    requires Run(ws, steps) && i < |ws| && a < |ws[i].shown|
    ensures var x := ws[i].shown[a].work;
            ws[i].shown[a].text == Placeholder <==> exists k :: 0 <= k < i && GivenUp(ws[k], steps[k], x)
    ensures ws[i].shown[a].text == Placeholder || ws[i].shown[a].text == ResolvedBy(ws[i].shown[a].work)
  {
    var x := ws[i].shown[a].work;
    ShownAtMostOnce(ws, steps, i, a, a);
    forall k | 0 <= k < i ensures GivenUp(ws[k], steps[k], x) <==> GivesUp(ws[k], steps[k], x) {
      RunsKeepInv(ws, steps, k);
      assert ws[k + 1] == Next(ws[k], steps[k]);
      GivenUpGivesUp(ws[k], steps[k], x);
    }
    if ws[i].shown[a].text == Placeholder { PlaceholderOnlyIfGivenUp(ws, steps, i, a); }
    if k :| 0 <= k < i && GivesUp(ws[k], steps[k], x) {
      GivenUpStaysBlanked(ws, steps, k, i, x);
      RunsKeepInv(ws, steps, i);
      ShownBlank(ws[i], a);
    }
  }

  // ----- the order of showing ------------------------------------------------------------------

  ghost predicate InOrder(ws: seq<Work>, x: Work, y: Work) {
    exists a, b :: 0 <= a < b < |ws| && ws[a] == x && ws[b] == y
  }

  function Works(items: seq<Item>): (r: seq<Work>)
    ensures |r| == |items| && forall i :: 0 <= i < |r| ==> r[i] == items[i].work
  {
    seq(|items|, i requires 0 <= i < |items| => items[i].work)
  }

  /** One event is ahead of another: in a queue, with a worker, or already shown while the other is not. */
  ghost predicate Ahead(w: World, x: Work, y: Work) {
    || (exists p :: p in w.q.waiters && InOrder(w.q.waiters[p], x, y))
    || (exists who :: who in w.jobs && InOrder(Works(w.jobs[who]), x, y))
    || (IsShown(w, x) && !IsShown(w, y))
    || (exists a, b :: 0 <= a < b < |w.shown| && w.shown[a].work == x && w.shown[b].work == y)
  }

  lemma QueueHolds(w: World, p: Pull, x: Work, y: Work)
    requires Inv(w) && p in w.q.waiters && InOrder(w.q.waiters[p], x, y)
    ensures PlacedAt(w, x, InQueue(p)) && PlacedAt(w, y, InQueue(p))
  {
    assert QueueOk(w, p);
    var a, b :| 0 <= a < b < |Waiting(w.q, p)| && Waiting(w.q, p)[a] == x && Waiting(w.q, p)[b] == y;
    assert PlacedAt(w, Waiting(w.q, p)[a], InQueue(p)) && PlacedAt(w, Waiting(w.q, p)[b], InQueue(p));
  }

  lemma JobHolds(w: World, who: Work, x: Work, y: Work)
    requires Inv(w) && who in w.jobs && InOrder(Works(w.jobs[who]), x, y)
    ensures PlacedAt(w, x, WithWorker(who)) && PlacedAt(w, y, WithWorker(who)) && x != y
  {
    assert JobOk(w, who);
    var a, b :| 0 <= a < b < |w.jobs[who]| && Works(w.jobs[who])[a] == x && Works(w.jobs[who])[b] == y;
    assert PlacedAt(w, w.jobs[who][a].work, WithWorker(who)) && PlacedAt(w, w.jobs[who][b].work, WithWorker(who));
  }

  lemma QueuedAhead(w: World, s: Step, p: Pull, x: Work, y: Work)
    requires Inv(w) && Enabled(w, s) && p in w.q.waiters && InOrder(w.q.waiters[p], x, y)
    ensures Ahead(Next(w, s), x, y)
  {
    var w', ws := Next(w, s), w.q.waiters[p];
    var a, b :| 0 <= a < b < |ws| && ws[a] == x && ws[b] == y;
    if (s.Refuse? || s.FinishPull?) && s.pull == p {
      var job, off := Works(w'.jobs[w.leaders[p].work]), if s.Refuse? then 0 else 1;
      assert job[a + off] == x && job[b + off] == y;
    } else {
      assert p in w'.q.waiters && w'.q.waiters[p][a] == x && w'.q.waiters[p][b] == y;
    }
  }

  lemma EmittedAhead(w: World, who: Work, x: Work, y: Work)
    requires Inv(w) && Enabled(w, EmitNext(who)) && InOrder(Works(w.jobs[who]), x, y)
    ensures Ahead(Next(w, EmitNext(who)), x, y)
  {
    var w', ws := Next(w, EmitNext(who)), Works(w.jobs[who]);
    var a, b :| 0 <= a < b < |ws| && ws[a] == x && ws[b] == y;
    JobHolds(w, who, x, y);
    if a == 0 {
      assert w'.shown[|w.shown|].work == x;
      forall i | 0 <= i < |w'.shown| ensures w'.shown[i].work != y {
        assert i < |w.shown| ==> PlacedAt(w, w.shown[i].work, Done);
      }
    } else {
      assert Works(w'.jobs[who])[a - 1] == x && Works(w'.jobs[who])[b - 1] == y;
    }
  }

  lemma WorkedAhead(w: World, s: Step, who: Work, x: Work, y: Work)
    requires Inv(w) && Enabled(w, s) && who in w.jobs && InOrder(Works(w.jobs[who]), x, y)
    ensures Ahead(Next(w, s), x, y)
  {
    if s == EmitNext(who) {
      EmittedAhead(w, who, x, y);
    } else {
      if s.Refuse? || s.FinishPull? { assert LeaderOk(w, s.pull); }
      assert who in Next(w, s).jobs && Next(w, s).jobs[who] == w.jobs[who];
    }
  }

  lemma ShownAhead(w: World, s: Step, x: Work, y: Work)
    requires Inv(w) && Enabled(w, s) && x != y && IsShown(w, x)
    requires !IsShown(w, y) || exists a, b :: 0 <= a < b < |w.shown| && w.shown[a].work == x && w.shown[b].work == y
    ensures Ahead(Next(w, s), x, y)
  {
    var w' := Next(w, s);
    assert w.shown <= w'.shown;
    if IsShown(w, y) {
      var a, b :| 0 <= a < b < |w.shown| && w.shown[a].work == x && w.shown[b].work == y;
      assert w'.shown[a].work == x && w'.shown[b].work == y;
    } else {
      var a :| 0 <= a < |w.shown| && w.shown[a].work == x;
      assert w'.shown[a].work == x;
      forall i | 0 <= i < |w.shown| ensures w'.shown[i] == w.shown[i] {}
      if b :| 0 <= b < |w'.shown| && w'.shown[b].work == y { assert a < b; }
    }
  }

  lemma AheadStays(w: World, s: Step, x: Work, y: Work)
    requires Inv(w) && Enabled(w, s) && x != y && Ahead(w, x, y)
    ensures Ahead(Next(w, s), x, y)
  {
    if p :| p in w.q.waiters && InOrder(w.q.waiters[p], x, y) {
      QueuedAhead(w, s, p, x, y);
    } else if who :| who in w.jobs && InOrder(Works(w.jobs[who]), x, y) {
      WorkedAhead(w, s, who, x, y);
    } else if a, b :| 0 <= a < b < |w.shown| && w.shown[a].work == x && w.shown[b].work == y {
      assert IsShown(w, x);
      ShownAhead(w, s, x, y);
    } else {
      ShownAhead(w, s, x, y);
    }
  }

  /** The second of two followers gets in line behind the first. */
  lemma JoinsBehind(w: World, p: Pull, x: Work, y: Work)
    requires Inv(w) && Enabled(w, Submit(p, y)) && x in Followers(w, p) && |Followers(w, p)| < 64
    ensures Ahead(Next(w, Submit(p, y)), x, y)
  {
    FollowersAreWaiting(w, p);
    assert PlaceOk(w, x) && QueueOk(w, p);
    var ws := Waiting(w.q, p);
    var a :| 0 <= a < |ws| && ws[a] == x;
    var w' := Next(w, Submit(p, y));
    assert w'.q.waiters[p][a] == x && w'.q.waiters[p][|ws|] == y;
  }

  lemma {:induction false} AheadForGood(ws: seq<World>, steps: seq<Step>, i: nat, j: nat, x: Work)
    requires Run(ws, steps) && i < j < |ws| && steps[i].Submit? && x in Followers(ws[i], steps[i].pull)
    requires |Followers(ws[i], steps[i].pull)| < 64
    ensures x != steps[i].work && Ahead(ws[j], x, steps[i].work)
    decreases j
  {
    RunsKeepInv(ws, steps, j - 1);
    assert ws[j - 1 + 1] == Next(ws[j - 1], steps[j - 1]);
    if j == i + 1 {
      JoinsBehind(ws[i], steps[i].pull, x, steps[i].work);
    } else {
      AheadForGood(ws, steps, i, j - 1, x);
      assert ws[i + 1] == Next(ws[i], steps[i]);
      AheadStays(ws[j - 1], steps[j - 1], x, steps[i].work);
    }
  }

  /** In every run the followers of a pull are shown in the order in which they were submitted. */
  lemma FollowersShownInOrder(ws: seq<World>, steps: seq<Step>, i: nat, j: nat, x: Work, a: nat, b: nat)
    requires Run(ws, steps) && i < j < |ws| && steps[i].Submit? && x in Followers(ws[i], steps[i].pull)
    requires |Followers(ws[i], steps[i].pull)| < 64
    requires a < |ws[j].shown| && b < |ws[j].shown|
    requires ws[j].shown[a].work == x && ws[j].shown[b].work == steps[i].work
    ensures a < b
  {
    AheadForGood(ws, steps, i, j, x);
    RunsKeepInv(ws, steps, j);
    var w, y := ws[j], steps[i].work;
    assert PlacedAt(w, w.shown[a].work, Done) && PlacedAt(w, w.shown[b].work, Done);
    if p :| p in w.q.waiters && InOrder(w.q.waiters[p], x, y) {
      QueueHolds(w, p, x, y);
    } else if who :| who in w.jobs && InOrder(Works(w.jobs[who]), x, y) {
      JobHolds(w, who, x, y);
    }
  }
}
