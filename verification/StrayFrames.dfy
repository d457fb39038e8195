/**
 * Frames that answer no request. As long as none of them, read on the installed connection, matches a
 * slot, matching is right; one that matches any slot, abandoned or not, can lead it astray.
 */
module StrayFrames {
  import opened Common
  import opened ConnManager
  import opened RequestMatching

  // ----- a polite server is enough -------------------------------------------------------------

  ghost predicate PoliteRun(ws: seq<World>, steps: seq<Step>) {
    && Run(ws, steps)
    && forall i {:trigger steps[i]} :: 0 <= i < |steps| ==> Polite(ws[i], steps[i])
  }

  ghost predicate NoiseUnawaited(w: World) { forall n :: n in w.noise ==> Unawaited(w.table, n.frame) }

  lemma AbandoningAddsNoNoise(w: World, r: Req)
    requires r in w.calls && w.calls[r].at.Some?
    ensures Abandoning(w, r).table == w.table && Abandoning(w, r).noise == w.noise
  {
  }

  lemma TimeoutAddsNoNoise(w: World, w': World, r: Req)
    requires TimeoutStep(w, w', r)
    ensures w'.table == w.table && w'.noise == w.noise
  {
    if w.calls[r].drainable { AbandoningAddsNoNoise(w, r); }
  }

  lemma CallersAddNoNoise(w: World, w': World, s: Step)
    requires NextBy(w, w', s) && CallerKind(s)
    ensures w'.table == w.table && w'.noise == w.noise
  {
  }

  lemma WriteFailAddsNoNoise(w: World, w': World, r: Req, reached: bool)
    requires WriteFailStep(w, w', r, reached)
    ensures w'.table == w.table && w'.noise == w.noise
  {
  }

  lemma ConnsAddNoNoise(w: World, w': World, s: Step)
    requires NextBy(w, w', s) && !CallerKind(s) && !s.TimeoutBy? && !s.WriteFailBy? && !WireKind(s)
    ensures w'.table == w.table && w'.noise == w.noise
  {
  }

  lemma WireNoise(w: World, w': World, s: Step)
    requires NextBy(w, w', s) && WireKind(s)
    ensures w'.table == w.table && w'.noise <= w.noise + if s.NoiseBy? then {s.n} else {}
  {
  }

  lemma PoliteKeepsNoise(w: World, w': World, s: Step)
    requires NextBy(w, w', s) && Polite(w, s) && NoiseUnawaited(w)
    ensures NoiseUnawaited(w')
  {
    if CallerKind(s) {
      CallersAddNoNoise(w, w', s);
    } else if s.TimeoutBy? {
      TimeoutAddsNoNoise(w, w', s.r);
    } else if WireKind(s) {
      WireNoise(w, w', s);
    } else if s.WriteFailBy? {
      WriteFailAddsNoNoise(w, w', s.r, s.reached);
    } else {
      ConnsAddNoNoise(w, w', s);
    }
  }

  lemma PoliteIsHarmless(w: World, s: Step, w': World)
    requires Inv(w) && NoiseUnawaited(w) && NextBy(w, w', s)
    ensures Harmless(w, s)
  {
    if s.DispatchNoiseBy? {
      forall k ensures !Matches(w.mux, s.n.frame, k) { UnawaitedNeverMatches(w, s.n.frame, k); }
    }
  }

  lemma {:induction false} PoliteStates(ws: seq<World>, steps: seq<Step>, i: nat)
    requires PoliteRun(ws, steps) && i < |ws|
    ensures Inv(ws[i]) && NoiseUnawaited(ws[i])
  {
    if i > 0 {
      PoliteStates(ws, steps, i - 1);
      assert NextBy(ws[i - 1], ws[i - 1 + 1], steps[i - 1]);
      PoliteIsHarmless(ws[i - 1], steps[i - 1], ws[i]);
      StepKeepsInv(ws[i - 1], ws[i], steps[i - 1]);
      PoliteKeepsNoise(ws[i - 1], ws[i], steps[i - 1]);
    }
  }

  /** With a server that pushes only frames of types nobody awaits, no pushed frame ever matches a slot. */
  lemma PoliteRunsAreQuiet(ws: seq<World>, steps: seq<Step>)
    requires PoliteRun(ws, steps)
    ensures QuietRun(ws, steps)
  {
    forall i | 0 <= i < |steps| ensures Harmless(ws[i], steps[i]) {
      PoliteStates(ws, steps, i);
      PoliteIsHarmless(ws[i], steps[i], ws[i + 1]);
    }
  }

  // ----- when a frame leads astray -------------------------------------------------------------

  /** Some waiter has, or is about to get, a frame that answers another request or none. */
  ghost predicate Astray(w: World) {
    exists r :: (r in w.claims && !Own(r, w.claims[r])) || (r in w.inbox && !Own(r, w.inbox[r]))
  }

  /** These steps, no further stray frame among them matching a slot, end with a frame gone astray. */
  ghost predicate Leads(w: World, steps: seq<Step>)
    decreases |steps|
  {
    if steps == [] then Astray(w)
    else Harmless(w, steps[0]) && exists w' :: NextBy(w, w', steps[0]) && Leads(w', steps[1..])
  }

  /** Reading this frame can lead astray, at once or later. */
  ghost predicate CanLeadAstray(w: World, n: Noise) {
    exists w', steps :: NextBy(w, w', DispatchNoiseBy(n)) && Leads(w', steps)
  }

  lemma LeadsBy(w: World, w': World, s: Step, steps: seq<Step>)
    requires NextBy(w, w', s) && !s.DispatchNoiseBy? && Leads(w', steps)
    ensures Leads(w, [s] + steps)
  {
    assert ([s] + steps)[1..] == steps;
  }

  lemma {:induction false} InvNeverLeads(w: World, steps: seq<Step>)
    requires Inv(w)
    ensures !Leads(w, steps)
    decreases |steps|
  {
    if steps == [] {
      forall r | r in w.calls ensures (r in w.claims ==> Own(r, w.claims[r])) && (r in w.inbox ==> Own(r, w.inbox[r])) {
        assert CallOk(w, r);
      }
    } else if Harmless(w, steps[0]) {
      forall w' | NextBy(w, w', steps[0]) ensures !Leads(w', steps[1..]) {
        StepKeepsInv(w, w', steps[0]);
        InvNeverLeads(w', steps[1..]);
      }
    }
  }

  lemma {:induction false} Unused(s: set<Req>) returns (q: Req)
    ensures q !in s && forall x :: x in s ==> x < q
  {
    if s == {} { return 0; }
    var x :| x in s;
    var p := Unused(s - {x});
    q := if x < p then p else x + 1;
    forall y | y in s ensures y < q { assert y == x || y in s - {x}; }
  }

  /** Request `r` of type `send`, made on connection `c`, may still be answered there. */
  ghost predicate Owed(w: World, r: Req, c: Conn, send: MsgType, k: MsgType) {
    && r in w.calls && w.calls[r] == Call(send, k, Some(c), w.calls[r].drainable, Finished)
    && send in w.table && send != 0 && w.table[send] == k
    && w.mux.conn == Some(c) && c in w.loops && Accepts(w.mux, c, w.loops[c])
    && (r in w.server || (r in w.wire && (w.wire[r] == Reply(k) || w.wire[r] == Error(send))))
  }

  /** The late answer is handed to the request that has taken the slot. */
  lemma LateAnswerAstray(w: World, r: Req, c: Conn, send: MsgType, k: MsgType, q: Req)
    requires Owed(w, r, c, send, k) && r in w.wire && (w.wire[r] == Reply(k) || w.wire[r] == Error(send))
    requires k in w.mux.pending && w.mux.pending[k] == Slot(send, k, q, false) && q != r
    ensures Leads(w, [DispatchAnswerBy(r)])
  {
    var v, f := w.(wire := w.wire - {r}), w.wire[r];
    var w' := Claiming(v, k, Got(f, Some(r)));
    assert Matches(w.mux, f, k);
    assert DispatchAnswerStep(w, w', r);
    assert q in w'.claims && !Own(q, w'.claims[q]);
    assert Leads(w', []);
    LeadsBy(w, w', DispatchAnswerBy(r), []);
    assert [DispatchAnswerBy(r)] + [] == [DispatchAnswerBy(r)];
  }

  lemma OwedAnswerAstray(w: World, r: Req, c: Conn, send: MsgType, k: MsgType, q: Req) returns (steps: seq<Step>)
    requires Owed(w, r, c, send, k)
    requires k in w.mux.pending && w.mux.pending[k] == Slot(send, k, q, false) && q != r
    ensures Leads(w, steps)
  {
    if r in w.wire && (w.wire[r] == Reply(k) || w.wire[r] == Error(send)) {
      LateAnswerAstray(w, r, c, send, k, q);
      steps := [DispatchAnswerBy(r)];
    } else {
      var w' := w.(server := w.server - {r}, wire := w.wire[r := Reply(k)]);
      assert AnswerStep(w, w', r, Reply(k));
      LateAnswerAstray(w', r, c, send, k, q);
      LeadsBy(w, w', AnswerBy(r, Reply(k)), [DispatchAnswerBy(r)]);
      steps := [AnswerBy(r, Reply(k))] + [DispatchAnswerBy(r)];
    }
  }

  /** With slot and gate free, a new request of the same type takes the slot. */
  lemma FreeSlotAstray(w: World, r: Req, c: Conn, send: MsgType, k: MsgType) returns (steps: seq<Step>)
    requires Owed(w, r, c, send, k) && k !in w.mux.pending && k !in w.gates
    ensures Leads(w, steps)
  {
    var q := Unused(w.calls.Keys);
    var a := w.(gates := w.gates[k := q], calls := w.calls[q := Call(send, k, None, true, Gated)]);
    assert EnterGate(w, a, q, send, true);
    var b := Registering(a, q);
    assert RegisterStep(a, b, q, None);
    assert Owed(b, r, c, send, k) && b.mux.pending[k] == Slot(send, k, q, false);
    var rest := OwedAnswerAstray(b, r, c, send, k, q);
    LeadsBy(a, b, RegisterBy(q, None), rest);
    LeadsBy(w, a, EnterGateBy(q, send, true), [RegisterBy(q, None)] + rest);
    steps := [EnterGateBy(q, send, true)] + ([RegisterBy(q, None)] + rest);
  }

  lemma FreedSlotAstray(w: World, r: Req, c: Conn, send: MsgType, k: MsgType) returns (steps: seq<Step>)
    requires Owed(w, r, c, send, k) && k !in w.mux.pending
    requires k in w.gates ==>
               w.gates[k] in w.calls && w.calls[w.gates[k]].phase == Gated && w.calls[w.gates[k]].reply == k
    ensures Leads(w, steps)
  {
    if k !in w.gates {
      steps := FreeSlotAstray(w, r, c, send, k);
    } else {
      var h := w.gates[k];
      var a := Refusing(w, h);
      assert RegisterStep(w, a, h, Some(c + 1));
      assert Owed(a, r, c, send, k);
      var rest := FreeSlotAstray(a, r, c, send, k);
      LeadsBy(w, a, RegisterBy(h, Some(c + 1)), rest);
      steps := [RegisterBy(h, Some(c + 1))] + rest;
    }
  }

  lemma AbandonedSlotAstray(w: World, n: Noise, k: MsgType)
    requires Inv(w) && n in w.noise && n.from in w.loops && Accepts(w.mux, n.from, w.loops[n.from])
    requires Matches(w.mux, n.frame, k) && w.mux.pending[k].abandoned
    ensures CanLeadAstray(w, n)
  {
    var v := w.(noise := w.noise - {n});
    var w', r := Claiming(v, k, Got(n.frame, None)), w.mux.pending[k].result;
    assert SlotOk(w, k) && DrainOk(w, k) && CallOk(w, r);
    assert k in w.gates ==> GateOk(w, k);
    assert Matches(v.mux, n.frame, k);
    assert DispatchNoiseStep(w, w', n);
    var steps := FreedSlotAstray(w', r, n.from, w.calls[r].send, k);
    assert NextBy(w, w', DispatchNoiseBy(n)) && Leads(w', steps);
  }

  lemma LiveSlotAstray(w: World, n: Noise, k: MsgType)
    requires n in w.noise && n.from in w.loops && Accepts(w.mux, n.from, w.loops[n.from])
    requires Matches(w.mux, n.frame, k) && !w.mux.pending[k].abandoned
    ensures CanLeadAstray(w, n)
  {
    var v := w.(noise := w.noise - {n});
    var w', r := Claiming(v, k, Got(n.frame, None)), w.mux.pending[k].result;
    assert Matches(v.mux, n.frame, k);
    assert DispatchNoiseStep(w, w', n);
    assert r in w'.claims && !Own(r, w'.claims[r]);
    assert NextBy(w, w', DispatchNoiseBy(n)) && Leads(w', []);
  }

  /**
   * A frame that answers nothing, read on the installed connection, can lead to a misdelivery, at once or
   * in some continuation, exactly when a slot matches it, abandoned or not: an abandoned slot that it frees
   * is taken by a new request, which then gets the late answer of the old one.
   */
  lemma StrayFrameLeadsAstrayIff(w: World, n: Noise)
    requires Inv(w) && n in w.noise && n.from in w.loops && Accepts(w.mux, n.from, w.loops[n.from])
    ensures CanLeadAstray(w, n) <==> exists k :: Matches(w.mux, n.frame, k)
  {
    if k :| Matches(w.mux, n.frame, k) {
      if w.mux.pending[k].abandoned { AbandonedSlotAstray(w, n, k); } else { LiveSlotAstray(w, n, k); }
    } else {
      forall w', steps | NextBy(w, w', DispatchNoiseBy(n)) ensures !Leads(w', steps) {
        StepKeepsInv(w, w', DispatchNoiseBy(n));
        InvNeverLeads(w', steps);
      }
    }
  }

  // ----- a run that goes astray ----------------------------------------------------------------

  /** Connection 1 is installed; request 7 of type 3 awaits type 2; the server pushes a type 2 frame. */
  function Demo(i: nat): World {
    var blank := Mux(None, 0, map[], 0, false, map[], 0);
    var slot := map[2 := Slot(3, 2, 7, false)];
    var idle := World(blank, map[3 := 2], {}, map[], map[], map[], {}, map[], {}, map[], map[], []);
    var live := idle.(mux := Install(blank, 1), used := {1}, log := [Installed(1)]);
    var reading := live.(loops := map[1 := 1]);
    var gated := reading.(gates := map[2 := 7], calls := map[7 := Call(3, 2, None, true, Gated)]);
    var waiting := gated.(mux := gated.mux.(pending := slot), calls := map[7 := Call(3, 2, Some(1), true, Registered)]);
    if i == 0 then idle else if i == 1 then live else if i == 2 then reading else if i == 3 then gated
    else if i == 4 then waiting
    else if i == 5 then waiting.(noise := {Noise(1, Reply(2))})
    else waiting.(mux := gated.mux, claims := map[7 := Got(Reply(2), None)])
  }

  lemma DemoOpens()
    ensures NextBy(Demo(0), Demo(1), InstallBy(1)) && NextBy(Demo(1), Demo(2), LoopBy(1))
    ensures NextBy(Demo(2), Demo(3), EnterGateBy(7, 3, true)) && NextBy(Demo(3), Demo(4), RegisterBy(7, None))
  {
  }

  lemma DemoPushes()
    ensures NextBy(Demo(4), Demo(5), NoiseBy(Noise(1, Reply(2))))
  {
  }

  lemma DemoMisdelivers()
    ensures NextBy(Demo(5), Demo(6), DispatchNoiseBy(Noise(1, Reply(2))))
    ensures !Harmless(Demo(5), DispatchNoiseBy(Noise(1, Reply(2))))
  {
    var n := Noise(1, Reply(2));
    var v := Demo(5).(noise := Demo(5).noise - {n});
    assert Demo(6) == Claiming(v, 2, Got(Reply(2), None)) by { assert v.noise == {}; }
    assert Dispatched(v, Demo(6), 1, Reply(2), None) by { assert Matches(v.mux, Reply(2), 2); }
    assert DispatchNoiseStep(Demo(5), Demo(6), n);
  }

  lemma DemoEnds()
    ensures 7 in Demo(6).claims && !Own(7, Demo(6).claims[7])
  {
  }

  function DemoStep(i: nat): Step {
    if i == 0 then InstallBy(1)
    else if i == 1 then LoopBy(1)
    else if i == 2 then EnterGateBy(7, 3, true)
    else if i == 3 then RegisterBy(7, None)
    else if i == 4 then NoiseBy(Noise(1, Reply(2)))
    else DispatchNoiseBy(Noise(1, Reply(2)))
  }

  lemma DemoGoes(i: nat)
    requires i < 6
    ensures NextBy(Demo(i), Demo(i + 1), DemoStep(i))
  {
    if i < 4 { DemoOpens(); } else if i == 4 { DemoPushes(); } else { DemoMisdelivers(); }
  }

  lemma DemoStarts()
    ensures Init(Demo(0))
  {
  }

  /** Without the assumption on the server there is a run that hands a waiter a frame not its own. */
  lemma UnawaitedFrameBreaksMatching() returns (ws: seq<World>, steps: seq<Step>)
    ensures Run(ws, steps) && !QuietRun(ws, steps)
    ensures 7 in ws[|ws| - 1].claims && !Own(7, ws[|ws| - 1].claims[7])
  {
    ws := seq(7, (i: nat) => Demo(i));
    steps := seq(6, (i: nat) => DemoStep(i));
    DemoStarts();
    DemoEnds();
    forall i | 0 <= i < |steps| ensures NextBy(ws[i], ws[i + 1], steps[i]) { DemoGoes(i); }
    assert !Harmless(ws[5], steps[5]) by { DemoMisdelivers(); }
  }
}
