/**
 * What the request table brings about: where a call is registered, that nobody waits for nothing, that an
 * answer reaches its waiter, when a drain timer acts, and which transfers are registered.
 */
module RequestOutcomes {
  import opened Common
  import opened ConnManager
  import opened RequestMatching
  import opened RequestRuns

  // ----- registering ---------------------------------------------------------------------------

  lemma RegisteringSets(w: World, r: Req)
    requires r in w.calls
    ensures var w' := Registering(w, r);
            && w'.calls[r].phase == Registered && w'.calls[r].at == w.mux.conn && w'.gates == w.gates
            && w'.mux.pending == w.mux.pending[w.calls[r].reply :=
                 Slot(w.calls[r].send, w.calls[r].reply, r, false)]
  {
  }

  lemma RefusingSets(w: World, r: Req)
    requires r in w.calls
    ensures var w' := Refusing(w, r);
            w'.calls[r].phase == Finished && w'.mux == w.mux && w'.gates == w.gates - {w.calls[r].reply}
  {
  }

  /**
   * A call is registered exactly if a connection is installed, it is the expected one where one is
   * expected, and nobody's slot is in the way; then on that connection and under its own types.
   * Otherwise it is over, and only its gate is released.
   */
  lemma RegisteredIff(w: World, w': World, r: Req, expected: Option<Conn>)
    requires RegisterStep(w, w', r, expected)
    ensures w'.calls[r].phase == Registered <==>
            w.mux.conn.Some? && (expected.Some? ==> expected == w.mux.conn) && w.calls[r].reply !in w.mux.pending
    ensures w'.calls[r].phase == Registered ==>
              && w'.calls[r].at == w.mux.conn && w'.gates == w.gates
              && w'.mux.pending == w.mux.pending[w.calls[r].reply :=
                   Slot(w.calls[r].send, w.calls[r].reply, r, false)]
    ensures w'.calls[r].phase != Registered ==>
              w'.calls[r].phase == Finished && w'.mux == w.mux && w'.gates == w.gates - {w.calls[r].reply}
  {
    RegisteringSets(w, r);
    RefusingSets(w, r);
  }

  lemma FinishKeepsAt(w: World, r: Req, q: Req)
    requires r in w.calls && q in w.calls
    ensures q in Finish(w, r).calls && Finish(w, r).calls[q].at == w.calls[q].at
  {
  }

  lemma CallerKeepsAt(w: World, w': World, s: Step, q: Req)
    requires NextBy(w, w', s) && q in w.calls && w.calls[q].at.Some? && CallerKind(s)
    requires CallInOrder(w, q)
    ensures q in w'.calls && w'.calls[q].at == w.calls[q].at
  {
    if s.EncodeErrorBy? || s.ReceiveBy? { FinishKeepsAt(w, s.r, q); }
  }

  lemma WireKeepsCalls(w: World, w': World, s: Step)
    requires NextBy(w, w', s) && WireKind(s)
    ensures w'.calls == w.calls
  {
  }

  lemma ConnKeepsCalls(w: World, w': World, s: Step)
    requires NextBy(w, w', s) && (ConnKind(s) || TransferKind(s))
    ensures w'.calls == w.calls
  {
  }

  predicate TransferKind(s: Step) { s.TrackBy? || s.UntrackBy? || s.CancelBy? }

  lemma TerminatingKeepsCalls(w: World, c: Conn)
    ensures Terminating(w, c).calls == w.calls
  {
  }

  lemma AbandoningKeepsAt(w: World, r: Req, q: Req)
    requires r in w.calls && w.calls[r].at.Some? && q in w.calls
    ensures q in Abandoning(w, r).calls && Abandoning(w, r).calls[q].at == w.calls[q].at
  {
    FinishKeepsAt(w.(mux := Abandon(w.mux, w.calls[r].at.value, w.calls[r].reply, r)), r, q);
  }

  lemma TimeoutKeepsAt(w: World, w': World, r: Req, q: Req)
    requires TimeoutStep(w, w', r) && q in w.calls
    ensures q in w'.calls && w'.calls[q].at == w.calls[q].at
  {
    if w.calls[r].drainable {
      AbandoningKeepsAt(w, r, q);
    } else {
      TerminatingKeepsCalls(w, w.calls[r].at.value);
      FinishKeepsAt(Terminating(w, w.calls[r].at.value), r, q);
    }
  }

  lemma WriteFailKeepsAt(w: World, w': World, r: Req, reached: bool, q: Req)
    requires WriteFailStep(w, w', r, reached) && q in w.calls
    ensures q in w'.calls && w'.calls[q].at == w.calls[q].at
  {
    var v, c := if reached then Written(w, r) else w, w.calls[r].at.value;
    assert q in v.calls && v.calls[q].at == w.calls[q].at;
    TerminatingKeepsCalls(v, c);
    FinishKeepsAt(Terminating(v, c), r, q);
  }

  lemma AtStays(w: World, w': World, s: Step, q: Req)
    requires Orderly(w) && NextBy(w, w', s) && q in w.calls && w.calls[q].at.Some?
    ensures q in w'.calls && w'.calls[q].at == w.calls[q].at
  {
    assert CallInOrder(w, q);
    if CallerKind(s) {
      CallerKeepsAt(w, w', s, q);
    } else if s.WriteFailBy? {
      WriteFailKeepsAt(w, w', s.r, s.reached, q);
    } else if s.TimeoutBy? {
      TimeoutKeepsAt(w, w', s.r, q);
    } else if WireKind(s) {
      WireKeepsCalls(w, w', s);
    } else {
      ConnKeepsCalls(w, w', s);
    }
  }

  /** In every run a call that expects a connection and is registered is on that one, for as long as it is known. */
  lemma {:induction false} RegisteredWhereExpected(ws: seq<World>, steps: seq<Step>, i: nat, j: nat, r: Req, c: Conn)
    requires Run(ws, steps) && i < |steps| && i < j < |ws| && steps[i] == RegisterBy(r, Some(c))
    requires r in ws[i + 1].calls && ws[i + 1].calls[r].phase == Registered
    ensures ws[i].mux.conn == Some(c) && r in ws[j].calls && ws[j].calls[r].at == Some(c)
    decreases j
  {
    assert NextBy(ws[i], ws[i + 1], steps[i]);
    RegisteredIff(ws[i], ws[i + 1], r, Some(c));
    if j > i + 1 {
      RegisteredWhereExpected(ws, steps, i, j - 1, r, c);
      RunsKeepOrder(ws, steps, j - 1);
      assert NextBy(ws[j - 1], ws[j - 1 + 1], steps[j - 1]);
      AtStays(ws[j - 1], ws[j], steps[j - 1], r);
    }
  }

  // ----- nobody waits for nothing --------------------------------------------------------------

  /** A call that is not over has its slot, on the connection it was registered on, or its result. */
  ghost predicate Served(w: World, r: Req) {
    r in w.calls && (w.calls[r].phase == Registered || w.calls[r].phase == Asked) ==>
      Holds(w.mux, w.calls[r].reply, r) || r in w.claims || r in w.inbox
  }

  ghost predicate AllServed(w: World) { Orderly(w) && forall r {:trigger Served(w, r)} :: Served(w, r) }

  lemma EnterServed(w: World, w': World, r: Req, send: MsgType, d: bool, q: Req)
    requires EnterGate(w, w', r, send, d) && Served(w, q)
    ensures Served(w', q)
  {
  }

  lemma RegisteringServed(w: World, r: Req, q: Req)
    requires r in w.calls && w.calls[r].reply !in w.mux.pending && Served(w, q)
    ensures Served(Registering(w, r), q)
  {
  }

  lemma RefusingServed(w: World, r: Req, q: Req)
    requires r in w.calls && Served(w, q)
    ensures Served(Refusing(w, r), q)
  {
  }

  lemma WrittenServed(w: World, r: Req, q: Req)
    requires r in w.calls && w.calls[r].phase == Registered && Served(w, q) && Served(w, r)
    ensures Served(Written(w, r), q)
  {
  }

  lemma FinishServed(w: World, r: Req, q: Req)
    requires Orderly(w) && r in w.calls && Served(w, q)
    ensures Served(Finish(w, r), q)
  {
    if q in w.calls && q != r && Holds(w.mux, w.calls[q].reply, q) {
      CleanupSparesOthers(w.mux, 0, w.calls[r].reply, r, w.calls[q].reply);
    }
  }

  lemma DetachingServed(w: World, announced: bool, q: Req)
    requires Served(w, q)
    ensures Served(Detaching(w, announced), q)
  {
    if q in w.calls && Holds(w.mux, w.calls[q].reply, q) { assert q in Waiters(w.mux); }
  }

  lemma TerminatingServed(w: World, c: Conn, q: Req)
    requires Served(w, q)
    ensures Served(Terminating(w, c), q)
  {
    DetachingServed(w, true, q);
  }

  lemma AbandoningServed(w: World, r: Req, q: Req)
    requires Orderly(w) && r in w.calls && w.calls[r].at.Some? && Served(w, q)
    ensures Served(Abandoning(w, r), q)
  {
    var m := Abandon(w.mux, w.calls[r].at.value, w.calls[r].reply, r);
    if q in w.calls && q != r && Holds(w.mux, w.calls[q].reply, q) {
      CleanupSparesOthers(w.mux, w.calls[r].at.value, w.calls[r].reply, r, w.calls[q].reply);
      CleanupSparesOthers(m, 0, w.calls[r].reply, r, w.calls[q].reply);
    }
  }

  lemma ClaimingServed(w: World, k: MsgType, o: RequestMatching.Outcome, q: Req)
    requires Orderly(w) && k in w.mux.pending && Served(w, q)
    ensures Served(Claiming(w, k, o), q)
  {
    assert SlotOk(w, k);
  }

  lemma DispatchedServed(w: World, w': World, from: Conn, f: Frame, answers: Option<Req>, q: Req)
    requires Orderly(w) && Dispatched(w, w', from, f, answers) && Served(w, q)
    ensures Served(w', q)
  {
    if w' != w {
      var k :| Matches(w.mux, f, k) && w' == Claiming(w, k, Got(f, answers));
      ClaimingServed(w, k, Got(f, answers), q);
    }
  }

  lemma DeliverServed(w: World, w': World, r: Req, q: Req)
    requires DeliverStep(w, w', r) && Served(w, q)
    ensures Served(w', q)
  {
  }

  lemma OthersServed(w: World, w': World, q: Req)
    requires w'.calls == w.calls && w'.claims == w.claims && w'.inbox == w.inbox && w'.mux.pending == w.mux.pending
    requires Served(w, q)
    ensures Served(w', q)
  {
  }

  lemma CallersServed(w: World, w': World, s: Step, q: Req)
    requires AllServed(w) && NextBy(w, w', s) && CallerKind(s)
    ensures Served(w', q)
  {
    assert Served(w, q);
    match s
    case EnterGateBy(r, send, d) => EnterServed(w, w', r, send, d, q);
    case RegisterBy(r, e) =>
      if CanRegister(w.mux, e, w.calls[r].reply) { RegisteringServed(w, r, q); } else { RefusingServed(w, r, q); }
    case WriteBy(r) => assert Served(w, r); WrittenServed(w, r, q);
    case EncodeErrorBy(r) => FinishServed(w, r, q);
    case ReceiveBy(r) => FinishServed(w, r, q);
  }

  lemma WireServed(w: World, w': World, s: Step, q: Req)
    requires AllServed(w) && NextBy(w, w', s) && WireKind(s)
    ensures Served(w', q)
  {
    assert Served(w, q);
    match s
    case DispatchAnswerBy(r) =>
      var v := w.(wire := w.wire - {r});
      OthersOrderly(w, v);
      DispatchedServed(v, w', w.calls[r].at.value, w.wire[r], Some(r), q);
    case DispatchNoiseBy(n) =>
      var v := w.(noise := w.noise - {n});
      OthersOrderly(w, v);
      DispatchedServed(v, w', n.from, n.frame, None, q);
    case DeliverBy(r) => DeliverServed(w, w', r, q);
    case _ => OthersServed(w, w', q);
  }

  lemma ConnsServed(w: World, w': World, s: Step, q: Req)
    requires AllServed(w) && NextBy(w, w', s) && (ConnKind(s) || TransferKind(s))
    ensures Served(w', q)
  {
    assert Served(w, q);
    match s
    case DrainBy(_) => DetachingServed(w, true, q);
    case TerminateBy(c) => TerminatingServed(w, c, q);
    case Disconnect => DetachingServed(w, false, q);
    case _ => OthersServed(w, w', q);
  }

  lemma TimeoutServed(w: World, w': World, r: Req, q: Req)
    requires AllServed(w) && TimeoutStep(w, w', r)
    ensures Served(w', q)
  {
    assert Served(w, q);
    if w.calls[r].drainable {
      AbandoningServed(w, r, q);
    } else {
      var c := w.calls[r].at.value;
      TerminatingOrderly(w, c);
      TerminatingServed(w, c, q);
      FinishServed(Terminating(w, c), r, q);
    }
  }

  lemma WriteFailServed(w: World, w': World, r: Req, reached: bool, q: Req)
    requires AllServed(w) && WriteFailStep(w, w', r, reached)
    ensures Served(w', q)
  {
    assert Served(w, q) && Served(w, r);
    WrittenOrderly(w, r);
    WrittenServed(w, r, q);
    var v, c := if reached then Written(w, r) else w, w.calls[r].at.value;
    TerminatingOrderly(v, c);
    TerminatingServed(v, c, q);
    FinishServed(Terminating(v, c), r, q);
  }

  lemma StepKeepsServed(w: World, w': World, s: Step)
    requires AllServed(w) && NextBy(w, w', s)
    ensures AllServed(w')
  {
    StepKeepsOrder(w, w', s);
    forall q ensures Served(w', q) {
      if CallerKind(s) {
        CallersServed(w, w', s, q);
      } else if WireKind(s) {
        WireServed(w, w', s, q);
      } else if s.TimeoutBy? {
        TimeoutServed(w, w', s.r, q);
      } else if s.WriteFailBy? {
        WriteFailServed(w, w', s.r, s.reached, q);
      } else {
        ConnsServed(w, w', s, q);
      }
    }
  }

  lemma {:induction false} RunsKeepServed(ws: seq<World>, steps: seq<Step>, i: nat)
    requires Run(ws, steps) && i < |ws|
    ensures AllServed(ws[i])
  {
    RunsKeepOrder(ws, steps, i);
    if i > 0 {
      RunsKeepServed(ws, steps, i - 1);
      assert NextBy(ws[i - 1], ws[i - 1 + 1], steps[i - 1]);
      StepKeepsServed(ws[i - 1], ws[i], steps[i - 1]);
    } else {
      forall r ensures Served(ws[0], r) {}
    }
  }

  /**
   * In every run, whatever frames arrive, a call that is not over still has its own slot on the installed
   * connection, which is its own, or its result is there or on its way: nobody waits for nothing.
   */
  lemma NobodyWaitsForNothing(ws: seq<World>, steps: seq<Step>, i: nat, r: Req)
    requires Run(ws, steps) && i < |ws| && r in ws[i].calls
    requires ws[i].calls[r].phase == Registered || ws[i].calls[r].phase == Asked
    ensures var w, call := ws[i], ws[i].calls[r];
            || r in w.inbox || r in w.claims
            || (call.reply in w.mux.pending && call.at == w.mux.conn
                && w.mux.pending[call.reply] == Slot(call.send, call.reply, r, false))
  {
    RunsKeepServed(ws, steps, i);
    assert Served(ws[i], r);
    var w, k := ws[i], ws[i].calls[r].reply;
    if Holds(w.mux, k, r) { assert SlotOk(w, k); }
  }

  // ----- teardown and drains -------------------------------------------------------------------

  lemma DetachingTells(w: World, announced: bool, r: Req)
    requires r in Waiters(w.mux)
    ensures r in Detaching(w, announced).claims && Detaching(w, announced).claims[r] == Closed
  {
  }

  lemma TimeoutTells(w: World, w': World, r: Req, q: Req)
    requires TimeoutStep(w, w', r) && !w.calls[r].drainable && w.mux.conn == w.calls[r].at && q in Waiters(w.mux)
    ensures q in w'.claims && w'.claims[q] == Closed
  {
    DetachingTells(w, true, q);
  }

  lemma WriteFailTells(w: World, w': World, r: Req, reached: bool, q: Req)
    requires WriteFailStep(w, w', r, reached) && w.mux.conn == w.calls[r].at && q in Waiters(w.mux)
    ensures q in w'.claims && w'.claims[q] == Closed
  {
    DetachingTells(if reached then Written(w, r) else w, true, q);
  }

  /** Whatever step ends the installed connection, everybody with a slot on it is told that it closed. */
  lemma EveryWaiterIsTold(w: World, w': World, s: Step, c: Conn, q: Req)
    requires NextBy(w, w', s) && w.mux.conn == Some(c) && w'.mux.conn != Some(c) && q in Waiters(w.mux)
    ensures q in w'.claims && w'.claims[q] == Closed
  {
    if s.WriteFailBy? {
      WriteFailChecks(w, w', s.r, s.reached, c);
      WriteFailTells(w, w', s.r, s.reached, q);
    } else if s.TimeoutBy? {
      TimeoutChecks(w, w', s.r, c);
      TimeoutTells(w, w', s.r, q);
    } else if ConnKind(s) {
      ConnTells(w, w', s, c, q);
    } else if !TransferKind(s) {
      ConnUntouched(w, w', s);
    }
  }

  lemma ConnTells(w: World, w': World, s: Step, c: Conn, q: Req)
    requires NextBy(w, w', s) && ConnKind(s) && w.mux.conn == Some(c) && w'.mux.conn != Some(c) && q in Waiters(w.mux)
    ensures q in w'.claims && w'.claims[q] == Closed
  {
    DetachingTells(w, true, q);
    DetachingTells(w, false, q);
  }

  lemma WriteFailChecks(w: World, w': World, r: Req, reached: bool, c: Conn)
    requires WriteFailStep(w, w', r, reached) && w.mux.conn == Some(c) && w'.mux.conn != Some(c)
    ensures w.calls[r].at == Some(c)
  {
  }

  lemma TimeoutChecks(w: World, w': World, r: Req, c: Conn)
    requires TimeoutStep(w, w', r) && w.mux.conn == Some(c) && w'.mux.conn != Some(c)
    ensures w.calls[r].at == Some(c) && !w.calls[r].drainable
  {
    if w.calls[r].drainable { DrainingLeavesConn(w, w', r); }
  }

  /** A drain timer ends the connection exactly if it is still its call's own and the abandoned slot is still there. */
  lemma DrainEndsExactly(w: World, w': World, r: Req)
    requires DrainStep(w, w', r)
    ensures var call := w.calls[r];
            var left := w.mux.conn == call.at && call.reply in w.mux.pending
                        && w.mux.pending[call.reply].result == r && w.mux.pending[call.reply].abandoned;
            (left ==> w'.mux.conn == None) && (!left ==> w' == w)
  {
  }

  /** A write error or a timeout of a request that must not linger ends the call's own connection if it is installed. */
  lemma FailureEndsItsOwn(w: World, w': World, s: Step)
    requires NextBy(w, w', s) && (s.WriteFailBy? || (s.TimeoutBy? && !w.calls[s.r].drainable))
    ensures w'.mux.conn == if w.mux.conn == w.calls[s.r].at then None else w.mux.conn
    ensures w'.calls[s.r].phase == Finished
  {
    if s.WriteFailBy? { WriteFailEnds(w, w', s.r, s.reached); } else { TimeoutEnds(w, w', s.r); }
  }

  lemma WriteFailEnds(w: World, w': World, r: Req, reached: bool)
    requires WriteFailStep(w, w', r, reached)
    ensures w'.mux.conn == if w.mux.conn == w.calls[r].at then None else w.mux.conn
    ensures w'.calls[r].phase == Finished && (Admitting(w) ==> Admitting(w'))
  {
    TornThenFinished(if reached then Written(w, r) else w, w.calls[r].at.value, r);
  }

  lemma TimeoutEnds(w: World, w': World, r: Req)
    requires TimeoutStep(w, w', r) && !w.calls[r].drainable
    ensures w'.mux.conn == if w.mux.conn == w.calls[r].at then None else w.mux.conn
    ensures w'.calls[r].phase == Finished && (Admitting(w) ==> Admitting(w'))
  {
    TornThenFinished(w, w.calls[r].at.value, r);
  }

  lemma TornThenFinished(w: World, c: Conn, r: Req)
    requires r in w.calls
    ensures var w' := Finish(Terminating(w, c), r);
            && w'.mux.conn == (if w.mux.conn == Some(c) then None else w.mux.conn)
            && w'.calls[r].phase == Finished && (Admitting(w) ==> Admitting(w'))
  {
  }

  // ----- answers -------------------------------------------------------------------------------

  /**
   * In every quiet run, when the current read loop of the installed connection reads the answer of a call
   * that still waits on it, exactly that frame is on its way to that call; the late answer of a call that
   * is over frees its slot and goes to nobody; and a stale loop changes nothing.
   */
  lemma AnswerReachesItsWaiter(ws: seq<World>, steps: seq<Step>, i: nat, r: Req)
    requires QuietRun(ws, steps) && i < |steps| && steps[i] == DispatchAnswerBy(r)
    ensures var w, w' := ws[i], ws[i + 1];
            && r in w.calls && r in w.wire && w.calls[r].at.Some? && w.calls[r].at.value in w.loops
            && var current := w.mux.conn == w.calls[r].at && w.mux.epoch == w.loops[w.calls[r].at.value];
               && (current && w.calls[r].phase == Asked ==>
                     r in w'.claims && w'.claims[r] == Got(w.wire[r], Some(r)) && w.calls[r].reply !in w'.mux.pending)
               && (current && w.calls[r].phase == Finished ==>
                     w'.claims == w.claims && w.calls[r].reply !in w'.mux.pending)
               && (!current ==> w' == w.(wire := w.wire - {r}))
  {
    assert NextBy(ws[i], ws[i + 1], steps[i]);
    RunsKeepInv(ws, steps, i);
    var w := ws[i];
    assert CallOk(w, r);
    if w.mux.conn == w.calls[r].at { AnswerClaims(w, ws[i + 1], r); }
  }

  lemma AnswerClaims(w: World, w': World, r: Req)
    requires Matching(w) && DispatchAnswerStep(w, w', r) && w.mux.conn == w.calls[r].at
    ensures Accepts(w.mux, w.calls[r].at.value, w.loops[w.calls[r].at.value]) ==>
              && w.calls[r].reply !in w'.mux.pending
              && (w.calls[r].phase == Asked ==> r in w'.claims && w'.claims[r] == Got(w.wire[r], Some(r)))
              && (w.calls[r].phase == Finished ==> w'.claims == w.claims)
  {
    assert CallOk(w, r);
    var v, k := w.(wire := w.wire - {r}), w.calls[r].reply;
    assert SlotOk(w, k);
    assert Matches(v.mux, w.wire[r], k);
    if Accepts(w.mux, w.calls[r].at.value, w.loops[w.calls[r].at.value]) {
      var j :| Matches(v.mux, w.wire[r], j) && w' == Claiming(v, j, Got(w.wire[r], Some(r)));
      OnlyOwnSlotMatches(w, r, j);
    }
  }

  /** A frame counts only if it was read on the installed connection under the current epoch. */
  lemma StaleLoopIsIgnored(w: World, w': World, s: Step, from: Conn)
    requires NextBy(w, w', s) && (s.DispatchAnswerBy? || s.DispatchNoiseBy?)
    requires from == if s.DispatchAnswerBy? then w.calls[s.r].at.value else s.n.from
    requires from in w.loops && (w.mux.conn != Some(from) || w.mux.epoch != w.loops[from])
    ensures w'.mux == w.mux && w'.claims == w.claims
  {
  }

  // ----- epochs --------------------------------------------------------------------------------

  /** Both epochs move by one whenever the installed connection changes, and never otherwise. */
  ghost predicate EpochsFollow(m: Mux, m': Mux) {
    if m'.conn == m.conn then m'.epoch == m.epoch && m'.transferEpoch == m.transferEpoch
    else m'.epoch == m.epoch + 1 && m'.transferEpoch == m.transferEpoch + 1
  }

  lemma FinishKeepsConn(w: World, r: Req)
    requires r in w.calls
    ensures var m := Finish(w, r).mux;
            m.conn == w.mux.conn && m.epoch == w.mux.epoch && m.transferEpoch == w.mux.transferEpoch
  {
  }

  lemma TornEpochs(w: World, c: Conn, r: Req)
    requires r in w.calls
    ensures EpochsFollow(w.mux, Finish(Terminating(w, c), r).mux)
  {
    FinishKeepsConn(Terminating(w, c), r);
  }

  lemma FailureEpochs(w: World, w': World, s: Step)
    requires NextBy(w, w', s) && (s.WriteFailBy? || s.TimeoutBy?)
    ensures EpochsFollow(w.mux, w'.mux)
  {
    if s.WriteFailBy? {
      TornEpochs(if s.reached then Written(w, s.r) else w, w.calls[s.r].at.value, s.r);
    } else if w.calls[s.r].drainable {
      AbandoningKeepsEpochs(w, s.r);
    } else {
      TornEpochs(w, w.calls[s.r].at.value, s.r);
    }
  }

  lemma AbandoningKeepsEpochs(w: World, r: Req)
    requires r in w.calls && w.calls[r].at.Some?
    ensures EpochsFollow(w.mux, Abandoning(w, r).mux)
  {
  }

  lemma CallersKeepEpochs(w: World, w': World, s: Step)
    requires NextBy(w, w', s) && CallerKind(s)
    ensures EpochsFollow(w.mux, w'.mux)
  {
  }

  lemma WireKeepsEpochs(w: World, w': World, s: Step)
    requires NextBy(w, w', s) && WireKind(s)
    ensures EpochsFollow(w.mux, w'.mux)
  {
  }

  lemma EpochsMarkConnections(w: World, w': World, s: Step)
    requires NextBy(w, w', s) && (s.Disconnect? ==> w.mux.conn.Some?)
    ensures EpochsFollow(w.mux, w'.mux)
  {
    if CallerKind(s) {
      CallersKeepEpochs(w, w', s);
    } else if WireKind(s) {
      WireKeepsEpochs(w, w', s);
    } else if s.WriteFailBy? || s.TimeoutBy? {
      FailureEpochs(w, w', s);
    }
  }

  // ----- transfers -----------------------------------------------------------------------------

  /** Transfers are admitted exactly while a connection is installed. */
  ghost predicate Admitting(w: World) { w.mux.accepting <==> w.mux.conn.Some? }

  lemma StepAdmits(w: World, w': World, s: Step)
    requires Admitting(w) && NextBy(w, w', s)
    ensures Admitting(w')
  {
    if CallerKind(s) {
      CallersLeaveLedger(w, w', s);
    } else if WireKind(s) {
      WireLeavesLedger(w, w', s);
    } else if s.WriteFailBy? {
      WriteFailEnds(w, w', s.r, s.reached);
    } else if s.TimeoutBy? {
      if w.calls[s.r].drainable { AbandoningLedger(w, s.r); } else { TimeoutEnds(w, w', s.r); }
    }
  }

  lemma {:induction false} RunsKeepAdmitting(ws: seq<World>, steps: seq<Step>, i: nat)
    requires Run(ws, steps) && i < |ws|
    ensures Admitting(ws[i])
  {
    if i > 0 {
      RunsKeepAdmitting(ws, steps, i - 1);
      assert NextBy(ws[i - 1], ws[i - 1 + 1], steps[i - 1]);
      StepAdmits(ws[i - 1], ws[i], steps[i - 1]);
    }
  }

  /**
   * In every run a transfer is registered, under a token of its own, exactly if a connection is installed
   * and the transfer was begun in its epoch; ending one removes that one, and cancelling removes exactly
   * those of the frontend's ID.
   */
  lemma TransfersExactly(ws: seq<World>, steps: seq<Step>, i: nat, t: Token)
    requires Run(ws, steps) && i < |steps| && TransferKind(steps[i])
    ensures var m, m', s := ws[i].mux, ws[i + 1].mux, steps[i];
            && (s.TrackBy? && m.conn.Some? && m.transferEpoch == s.epoch ==>
                  && m'.nextToken !in m.transfers
                  && m'.transfers == m.transfers[m'.nextToken := Transfer(s.frontendId, s.epoch)])
            && (s.TrackBy? && !(m.conn.Some? && m.transferEpoch == s.epoch) ==> m' == m)
            && (s.UntrackBy? ==> (t in m'.transfers <==> t in m.transfers && t != s.t))
            && (s.CancelBy? ==> (t in m'.transfers <==> t in m.transfers && m.transfers[t].frontendId != s.frontendId))
            && (!s.TrackBy? && t in m'.transfers ==> m'.transfers[t] == m.transfers[t])
  {
    assert NextBy(ws[i], ws[i + 1], steps[i]);
    RunsKeepAdmitting(ws, steps, i);
    RunsKeepLedger(ws, steps, i);
  }
}
