/**
 * Reading a scope's history backwards, page by page, from the newest entry. An entry is its
 * server-given number.
 */
module HistoryPager {
  import opened Common

  const PAGE: nat := 200

  type Id = int

  datatype Answer = Page(entries: seq<Id>) | Failed

  /** The server's answers: by call number, the number to start before (0: the newest) and the page size. */
  type Server = (nat, Id, nat) -> Answer

  /** `visited` in order; `failed` when an error is reported with nothing visited. */
  datatype Outcome = Outcome(visited: seq<Id>, complete: bool, failed: bool)

  function Then(a: seq<Id>, o: Outcome): Outcome { o.(visited := a + o.visited) }

  lemma ThenThen(a: seq<Id>, b: seq<Id>, o: Outcome)
    ensures Then(a, Then(b, o)) == Then(a + b, o)
  {
    assert a + (b + o.visited) == a + b + o.visited;
  }

  /** What one answer leads to: the end of the scan, or a full page and another round. */
  datatype Round = Stop(end: Outcome) | More(entries: seq<Id>)

  function Take(answer: Answer, scanned: nat, max: int): (r: Round)
    requires scanned < max
    ensures r.More? ==> 0 < |r.entries| <= max - scanned
    ensures r.Stop? ==> |r.end.visited| <= max - scanned
  {
    match answer
    case Failed => Stop(Outcome([], false, scanned == 0))
    case Page(entries) =>
      if entries == [] then Stop(Outcome([], true, false))
      else if |entries| > max - scanned then Stop(Outcome(entries[..max - scanned], false, false))
      else if |entries| < Min(PAGE, max - scanned) then Stop(Outcome(entries, true, false))
      else More(entries)
  }

  function ScanFrom(server: Server, call: nat, before: Id, scanned: nat, max: int): Outcome
    decreases max - scanned
  {
    if scanned >= max then Outcome([], false, false)
    else match Take(server(call, before, Min(PAGE, max - scanned)), scanned, max)
      case Stop(o) => o
      case More(entries) => Then(entries, ScanFrom(server, call + 1, entries[|entries| - 1], scanned + |entries|, max))
  }

  lemma ScanStep(server: Server, call: nat, before: Id, visited: seq<Id>, max: int)
    requires |visited| < max
    ensures Then(visited, ScanFrom(server, call, before, |visited|, max))
            == match Take(server(call, before, Min(PAGE, max - |visited|)), |visited|, max)
               case Stop(o) => Then(visited, o)
               case More(entries) => Then(visited + entries,
                   ScanFrom(server, call + 1, entries[|entries| - 1], |visited + entries|, max))
  {
    var round := Take(server(call, before, Min(PAGE, max - |visited|)), |visited|, max);
    if round.More? {
      var e := round.entries;
      ThenThen(visited, e, ScanFrom(server, call + 1, e[|e| - 1], |visited| + |e|, max));
    }
  }

  /** Visits the entries of a page until `max` have been visited. */
  method VisitPage(entries: seq<Id>, visited: seq<Id>, max: int) returns (now: seq<Id>, full: bool)
    requires |visited| < max
    ensures full <==> |entries| > max - |visited|
    ensures now == visited + if full then entries[..max - |visited|] else entries
  {
    now := visited;
    for i := 0 to |entries|
      invariant now == visited + entries[..i] && |visited| + i <= max
    {
      if |now| >= max { return now, true; }
      now := now + [entries[i]];
    }
    assert entries[..|entries|] == entries;
    full := false;
  }

  /** One round: the answer is visited, and either ends the scan or leads to another round. */
  method ReadPage(answer: Answer, visited: seq<Id>, max: int)
      returns (stop: bool, complete: bool, failed: bool, now: seq<Id>)
    requires |visited| < max
    ensures match Take(answer, |visited|, max)
            case Stop(o) => stop && Outcome(now, complete, failed) == Then(visited, o)
            case More(entries) => !stop && now == visited + entries
  {
    if answer.Failed? { return true, false, |visited| == 0, visited; }
    if |answer.entries| == 0 { return true, true, false, visited; }
    var full;
    now, full := VisitPage(answer.entries, visited, max);
    if full { return true, false, false, now; }
    if |answer.entries| < Min(PAGE, max - |visited|) { return true, true, false, now; }
    return false, false, false, now;
  }

  /** Asks for the next page and visits it; what is left to do is unchanged by it. */
  method ReadNext(server: Server, call: nat, before: Id, visited: seq<Id>, max: int)
    returns (stop: bool, complete: bool, failed: bool, now: seq<Id>, next: Id)
    requires |visited| < max
    ensures |visited| <= |now| <= max
    ensures stop ==> Then(visited, ScanFrom(server, call, before, |visited|, max)) == Outcome(now, complete, failed)
    ensures !stop ==>
              |visited| < |now| &&
              Then(visited, ScanFrom(server, call, before, |visited|, max)) ==
                Then(now, ScanFrom(server, call + 1, next, |now|, max))
  {
    var answer := server(call, before, Min(PAGE, max - |visited|));
    ScanStep(server, call, before, visited, max);
    stop, complete, failed, now := ReadPage(answer, visited, max);
    next := if stop then 0 else answer.entries[|answer.entries| - 1];
  }

  /** Terminates on any answers at all, and never visits more than `max` entries. */
  method ScanWith(server: Server, max: int) returns (scanned: nat, complete: bool, failed: bool, visited: seq<Id>)
    ensures Outcome(visited, complete, failed) == ScanFrom(server, 0, 0, 0, max)
    ensures scanned == |visited| <= if max < 0 then 0 else max
  {
    visited, complete, failed := [], false, false;
    var before, call: nat, stop := 0, 0, false;
    while |visited| < max && !stop
      invariant |visited| <= if max < 0 then 0 else max
      invariant stop ==> Outcome(visited, complete, failed) == ScanFrom(server, 0, 0, 0, max)
      invariant !stop ==>
                  Then(visited, ScanFrom(server, call, before, |visited|, max)) == ScanFrom(server, 0, 0, 0, max)
      invariant !stop ==> !complete && !failed
      decreases max - |visited|, !stop
    {
      stop, complete, failed, visited, before := ReadNext(server, call, before, visited, max);
      if !stop { complete, failed, call := false, false, call + 1; }
    }
    scanned := |visited|;
  }

  /** Newest first, without repetition. */
  predicate Descending(history: seq<Id>) {
    (forall i :: 0 <= i < |history| ==> history[i] > 0) && forall i, j :: 0 <= i < j < |history| ==>
        history[i] > history[j]
  }

  /** Where reading before `before` starts. */
  function StartOf(history: seq<Id>, before: Id): (k: nat)
    ensures k <= |history|
    ensures before != 0 ==> forall i :: 0 <= i < k ==> history[i] >= before
    ensures before != 0 && k < |history| ==> history[k] < before
  {
    if before == 0 || history == [] || history[0] < before then 0 else 1 + StartOf(history[1..], before)
  }

  function HonestPage(history: seq<Id>, before: Id, size: nat): seq<Id> {
    var k := StartOf(history, before);
    history[k..Min(k + size, |history|)]
  }

  predicate TrueAnswer(server: Server, history: seq<Id>, call: nat, before: Id, size: nat) {
    server(call, before, size) == Failed || server(call, before, size) == Page(HonestPage(history, before, size))
  }

  predicate Answers(server: Server, call: nat, before: Id, size: nat) { server(call, before, size).Page? }

  /** Every answer is an error or the true page. */
  ghost predicate Truthful(server: Server, history: seq<Id>) {
    forall call: nat, before: Id, size: nat {:trigger TrueAnswer(server, history, call, before, size)} ::
        TrueAnswer(server, history, call, before, size)
  }

  ghost predicate Faultless(server: Server) {
    forall call: nat, before: Id, size: nat {:trigger Answers(server, call, before, size)} ::
        Answers(server, call, before, size)
  }

  lemma {:induction false} StartAfter(history: seq<Id>, k: nat)
    requires Descending(history) && 0 < k <= |history|
    ensures StartOf(history, history[k - 1]) == k
  {
    if k > 1 { StartAfter(history[1..], k - 1); }
  }

  lemma PageAt(server: Server, history: seq<Id>, call: nat, before: Id, k: nat, size: nat)
    requires Descending(history) && Truthful(server, history) && k <= |history|
    requires before == (if k == 0 then 0 else history[k - 1])
    ensures server(call, before, size) == Failed ||
              server(call, before, size) == Page(history[k..Min(k + size, |history|)])
  {
    if k > 0 { StartAfter(history, k); }
    assert TrueAnswer(server, history, call, before, size);
  }

  /** What a scan from the `k`-th entry on should give. */
  ghost predicate ReadsOn(o: Outcome, history: seq<Id>, k: nat, max: int) {
    && k + |o.visited| <= |history| && o.visited == history[k..k + |o.visited|]
    && (o.complete ==> k + |o.visited| == |history| < max)
    && (o.failed ==> k == 0 && o.visited == [])
  }

  ghost predicate ReadsAll(o: Outcome, history: seq<Id>, k: nat, max: int) {
    0 <= max && k + |o.visited| == Min(max, |history|) && !o.failed && (o.complete <==> |history| < max)
  }

  lemma ReadsOnStep(o: Outcome, history: seq<Id>, k: nat, size: nat, max: int)
    requires 0 < size && k + size <= |history| && ReadsOn(o, history, k + size, max)
    ensures ReadsOn(Then(history[k..k + size], o), history, k, max)
  {
    var end := k + size + |o.visited|;
    assert history[k..k + size] + history[k + size..end] == history[k..end];
  }

  /** One true page, or an error, at the `k`-th entry. */
  lemma TakeReadsOn(answer: Answer, history: seq<Id>, k: nat, max: int)
    requires k <= |history| && k < max
    requires answer == Failed || answer == Page(history[k..Min(k + Min(PAGE, max - k), |history|)])
    ensures var size, round := Min(PAGE, max - k), Take(answer, k, max);
            match round
            case Stop(o) => ReadsOn(o, history, k, max) && (answer.Page? ==> ReadsAll(o, history, k, max))
            case More(entries) => k + size <= |history| && entries == history[k..k + size]
  {
  }

  lemma {:induction false} ScanContinues(server: Server, history: seq<Id>, call: nat, before: Id, k: nat, max: int)
    requires Descending(history) && Truthful(server, history) && k <= |history|
    requires before == (if k == 0 then 0 else history[k - 1])
    ensures ReadsOn(ScanFrom(server, call, before, k, max), history, k, max)
    decreases max - k
  {
    if k < max {
      var size := Min(PAGE, max - k);
      PageAt(server, history, call, before, k, size);
      TakeReadsOn(server(call, before, size), history, k, max);
      if Take(server(call, before, size), k, max).More? {
        var last := history[k + size - 1];
        ScanContinues(server, history, call + 1, last, k + size, max);
        ReadsOnStep(ScanFrom(server, call + 1, last, k + size, max), history, k, size, max);
      }
    }
  }

  lemma {:induction false} ScanReachesTheEnd(server: Server, history: seq<Id>, call: nat, before: Id, k: nat, max: int)
    requires Descending(history) && Truthful(server, history) && Faultless(server) && k <= |history| && k <= max
    requires before == (if k == 0 then 0 else history[k - 1])
    ensures ReadsAll(ScanFrom(server, call, before, k, max), history, k, max)
    decreases max - k
  {
    if k < max {
      var size := Min(PAGE, max - k);
      PageAt(server, history, call, before, k, size);
      assert Answers(server, call, before, size);
      TakeReadsOn(server(call, before, size), history, k, max);
      if Take(server(call, before, size), k, max).More? {
        ScanReachesTheEnd(server, history, call + 1, history[k + size - 1], k + size, max);
      }
    }
  }

  /** Against a faultless server: the newest min(max, total) entries, once each, newest first. */
  lemma ScanReadsTheNewest(server: Server, history: seq<Id>, max: int)
    requires Descending(history) && Truthful(server, history) && Faultless(server)
    ensures var o := ScanFrom(server, 0, 0, 0, max);
            && o.visited == history[..if max < 0 then 0 else Min(max, |history|)]
            && !o.failed && (o.complete <==> |history| < max)
  {
    ScanContinues(server, history, 0, 0, 0, max);
    if max >= 0 { ScanReachesTheEnd(server, history, 0, 0, 0, max); }
  }

  /** With errors: still the newest entries and nothing else, and "complete" is never claimed wrongly. */
  lemma ScanIsHonestAboutGaps(server: Server, history: seq<Id>, max: int)
    requires Descending(history) && Truthful(server, history)
    ensures var o := ScanFrom(server, 0, 0, 0, max);
            && |o.visited| <= |history| && o.visited == history[..|o.visited|]
            && (o.complete ==> o.visited == history && |history| < max)
            && (o.failed ==> o.visited == [])
  {
    ScanContinues(server, history, 0, 0, 0, max);
  }

  /** An error is reported exactly if the very first page could not be had. */
  lemma FailedIff(server: Server, max: int)
    ensures ScanFrom(server, 0, 0, 0, max).failed <==> max > 0 && server(0, 0, Min(200, max)).Failed?
  {
    if max > 0 {
      var round := Take(server(0, 0, Min(PAGE, max)), 0, max);
      if round.More? { NeverFailsLater(server, 1, round.entries[|round.entries| - 1], |round.entries|, max); }
    }
  }

  lemma {:induction false} NeverFailsLater(server: Server, call: nat, before: Id, scanned: nat, max: int)
    requires scanned > 0
    ensures !ScanFrom(server, call, before, scanned, max).failed
    decreases max - scanned
  {
    if scanned < max {
      var round := Take(server(call, before, Min(PAGE, max - scanned)), scanned, max);
      if round.More? {
        NeverFailsLater(server, call + 1, round.entries[|round.entries| - 1], scanned + |round.entries|, max);
      }
    }
  }

  /** The first error comes with the `n`-th call of the scan. */
  ghost predicate FailsFirstAt(server: Server, n: nat) {
    forall call: nat, before: Id, size: nat {:trigger Answers(server, call, before, size)} ::
      call <= n ==> (Answers(server, call, before, size) <==> call < n)
  }

  /** A full page, with more to come and more asked for. */
  lemma FullPage(history: seq<Id>, answer: Answer, k: nat, end: nat, max: int)
    requires k + 200 <= end <= |history| && end < max
    requires answer == Page(history[k..Min(k + Min(PAGE, max - k), |history|)])
    ensures Take(answer, k, max) == More(history[k..k + 200])
    ensures history[k..k + 200] + history[k + 200..end] == history[k..end]
  {
  }

  lemma {:induction false} ScanUntilError(server: Server, history: seq<Id>, call: nat, before: Id, n: nat, max: int)
    requires Descending(history) && Truthful(server, history) && FailsFirstAt(server, n)
    requires call <= n && 200 * n < max && 200 * n <= |history|
    requires before == (if call == 0 then 0 else history[200 * call - 1])
    ensures ScanFrom(server, call, before, 200 * call, max)
            == Outcome(history[200 * call..200 * n], false, n == 0)
    decreases n - call
  {
    var k := 200 * call;
    var size := Min(PAGE, max - k);
    PageAt(server, history, call, before, k, size);
    assert Answers(server, call, before, size) <==> call < n;
    if call < n {
      FullPage(history, server(call, before, size), k, 200 * n, max);
      ScanUntilError(server, history, call + 1, history[k + 199], n, max);
    }
  }

  /** An error in the middle keeps every page read before it, is no failure, and is not taken for the end. */
  lemma ErrorKeepsThePagesBefore(server: Server, history: seq<Id>, n: nat, max: int)
    requires Descending(history) && Truthful(server, history) && FailsFirstAt(server, n)
    requires 200 * n < max && 200 * n <= |history|
    ensures ScanFrom(server, 0, 0, 0, max) == Outcome(history[..200 * n], false, n == 0)
  {
    ScanUntilError(server, history, 0, 0, n, max);
  }

  /** Whatever a server answers, the end is claimed only where more would still have been read. */
  lemma {:induction false} CompleteMeansRoomLeft(server: Server, call: nat, before: Id, scanned: nat, max: int)
    ensures var o := ScanFrom(server, call, before, scanned, max); o.complete ==> scanned + |o.visited| < max
    decreases max - scanned
  {
    if scanned < max {
      var round := Take(server(call, before, Min(PAGE, max - scanned)), scanned, max);
      if round.More? {
        CompleteMeansRoomLeft(server, call + 1, round.entries[|round.entries| - 1], scanned + |round.entries|, max);
      }
    }
  }
}
