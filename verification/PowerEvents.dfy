/**
 * The native side of the display-capture request: the word in which the backend keeps the power state,
 * and why a power generation is never reported first as open and then as blocked.
 */
module PowerEvents {
  /** What a look at the power state gives. */
  datatype Native = Unknown | PowerState(epoch: nat, blocked: bool)

  /** The power events the system announces. */
  datatype PowerEvent = Suspend | ResumeSuspend | ResumeAutomatic | OtherEvent

  /** The backend keeps one 64-bit word: "blocked" in the lowest bit, the generation above it. */
  const WORDS: nat := 0x1_0000_0000_0000_0000
  const GENERATIONS: nat := 0x8000_0000_0000_0000

  /** An event moves to the next generation, blocked unless the user is back. */
  function Advance(word: nat, e: PowerEvent): nat {
    if e.OtherEvent? then word else (word - word % 2 + 2) % WORDS + if e.ResumeSuspend? then 0 else 1
  }

  function Word(events: seq<PowerEvent>): nat {
    if events == [] then 0 else Advance(Word(events[..|events| - 1]), events[|events| - 1])
  }

  /** The events that move the word. */
  function Moves(events: seq<PowerEvent>): nat {
    if events == [] then 0 else Moves(events[..|events| - 1]) + if events[|events| - 1].OtherEvent? then 0 else 1
  }

  function Reported(events: seq<PowerEvent>): Native { PowerState(Word(events) / 2, Word(events) % 2 == 1) }

  lemma AdvanceMoves(word: nat, e: PowerEvent)
    requires word < WORDS && !e.OtherEvent?
    ensures Advance(word, e) < WORDS && Advance(word, e) / 2 == (word / 2 + 1) % GENERATIONS
  {
  }

  lemma CountOn(n: nat)
    ensures (n % GENERATIONS + 1) % GENERATIONS == (n + 1) % GENERATIONS
  {
    assert n == n / GENERATIONS * GENERATIONS + n % GENERATIONS;
  }

  /** The generation counts the events, up to the width of the word. */
  lemma {:induction false} GenerationCounts(events: seq<PowerEvent>)
    ensures Word(events) < WORDS && Word(events) / 2 == Moves(events) % GENERATIONS
  {
    if events != [] {
      var before, e := events[..|events| - 1], events[|events| - 1];
      GenerationCounts(before);
      if !e.OtherEvent? {
        AdvanceMoves(Word(before), e);
        CountOn(Moves(before));
      }
    }
  }

  /** Without an event that moves the word, it stays. */
  lemma {:induction false} NoMoveSameWord(events: seq<PowerEvent>, i: nat, j: nat)
    requires i <= j <= |events|
    ensures Moves(events[..i]) <= Moves(events[..j])
    ensures Moves(events[..i]) == Moves(events[..j]) ==> Word(events[..i]) == Word(events[..j])
    decreases j
  {
    if i < j {
      NoMoveSameWord(events, i, j - 1);
      assert events[..j][..j - 1] == events[..j - 1];
    }
  }

  /** Two readings show the same generation exactly if a multiple of 2^63 events came between them. */
  lemma SameGenerationIff(events: seq<PowerEvent>, i: nat, j: nat)
    requires i <= j <= |events|
    ensures Reported(events[..i]).epoch == Reported(events[..j]).epoch
            <==> Moves(events[..i]) % GENERATIONS == Moves(events[..j]) % GENERATIONS
  {
    GenerationCounts(events[..i]);
    GenerationCounts(events[..j]);
  }

  /** So, short of that many events, a generation is reported as blocked always or never. */
  lemma OneReportPerGeneration(events: seq<PowerEvent>, i: nat, j: nat)
    requires i <= |events| && j <= |events| && Moves(events) < GENERATIONS
    requires Reported(events[..i]).epoch == Reported(events[..j]).epoch
    ensures Reported(events[..i]) == Reported(events[..j])
  {
    assert events[..|events|] == events;
    if i <= j { SameWord(events, i, j); } else { SameWord(events, j, i); }
  }

  lemma SameWord(events: seq<PowerEvent>, i: nat, j: nat)
    requires i <= j <= |events| && Moves(events[..|events|]) < GENERATIONS
    requires Reported(events[..i]).epoch == Reported(events[..j]).epoch
    ensures Word(events[..i]) == Word(events[..j])
  {
    NoMoveSameWord(events, i, j);
    NoMoveSameWord(events, j, |events|);
    SameGenerationIff(events, i, j);
    Small(Moves(events[..i]));
    Small(Moves(events[..j]));
  }

  lemma Small(n: nat)
    requires n < GENERATIONS
    ensures n % GENERATIONS == n
  {
  }

  /** A look at the power state fails, or reports the word at some point of the history. */
  ghost predicate Read(state: Native, events: seq<PowerEvent>) {
    state.Unknown? || exists k: nat :: k <= |events| && state == Reported(events[..k])
  }

  ghost function BlockedIn(events: seq<PowerEvent>): nat -> bool {
    (epoch: nat) => exists k: nat :: k <= |events| && PowerState(epoch, true) == Reported(events[..k])
  }

  /** Whether the power is blocked changes only with the power epoch. */
  predicate Steady(state: Native, blocked: nat -> bool) { state.PowerState? ==> state.blocked == blocked(state.epoch) }

  lemma ReadsAreSteady(state: Native, events: seq<PowerEvent>)
    requires Read(state, events) && Moves(events) < GENERATIONS
    ensures Steady(state, BlockedIn(events))
  {
    if state.PowerState? {
      var k: nat :| k <= |events| && state == Reported(events[..k]);
      if i: nat :| i <= |events| && PowerState(state.epoch, true) == Reported(events[..i]) {
        OneReportPerGeneration(events, i, k);
      }
    }
  }

  /** Event `i` is the last that moved the word. */
  predicate LastMove(events: seq<PowerEvent>, i: nat) {
    i < |events| && !events[i].OtherEvent? && forall j :: i < j < |events| ==> events[j].OtherEvent?
  }

  /** The power is blocked after a suspend or an automatic resume, and open again only once the user is back. */
  lemma {:induction false} BlockedUntilTheUserReturns(events: seq<PowerEvent>, i: nat)
    requires LastMove(events, i)
    ensures Reported(events).blocked <==> events[i].Suspend? || events[i].ResumeAutomatic?
    decreases |events|
  {
    var n := |events| - 1;
    if i < n {
      var before := events[..n];
      assert forall j :: 0 <= j < n ==> before[j] == events[j];
      BlockedUntilTheUserReturns(before, i);
    } else {
      LowestBit(Word(events[..n]), events[n]);
    }
  }

  lemma LowestBit(word: nat, e: PowerEvent)
    requires !e.OtherEvent?
    ensures Advance(word, e) % 2 == if e.ResumeSuspend? then 0 else 1
  {
    var x := word - word % 2 + 2;
    assert x == x / WORDS * WORDS + x % WORDS;
  }

  lemma {:induction false} OpenAtFirst(events: seq<PowerEvent>)
    requires forall j :: 0 <= j < |events| ==> events[j].OtherEvent?
    ensures Reported(events) == PowerState(0, false)
  {
    if events != [] { OpenAtFirst(events[..|events| - 1]); }
  }
}
