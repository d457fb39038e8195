/**
 * What holds of the request multiplexer in every run, whatever frames the server pushes: each waiter
 * gets at most one result, each connection ends once, and no transfer outlives its epoch.
 */
module RequestRuns {
  import opened Common
  import opened ConnManager
  import opened RequestMatching

  // ----- transfers and the connections' history ------------------------------------------------

  ghost predicate TransfersOk(m: Mux) {
    && (m.accepting ==> m.conn.Some?)
    && forall t :: t in m.transfers ==>
         t <= m.nextToken && m.transfers[t].epoch == m.transferEpoch && m.conn.Some?
  }

  /** Each connection is installed once and, unless it is the current one, detached exactly once. */
  ghost predicate LogOk(conn: Option<Conn>, used: set<Conn>, log: seq<Event>) {
    && (conn.Some? ==> conn.value in used)
    && (forall c :: c in used <==> Installed(c) in log)
    && (forall i :: 0 <= i < |log| ==> log[i].conn in used && (log[i].Detached? ==> conn != Some(log[i].conn)))
    && (forall c :: c in used && conn != Some(c) ==> exists b :: Detached(c, b) in log)
    && (forall i, j :: 0 <= i < j < |log| && log[i].conn == log[j].conn ==> log[i].Installed? && log[j].Detached?)
  }

  ghost predicate Ledger(w: World) {
    TransfersOk(w.mux) && LogOk(w.mux.conn, w.used, w.log)
  }

  /** Transfers and the connections' history are as they were. */
  predicate SameLedger(w: World, w': World) {
    && w'.used == w.used && w'.log == w.log && w'.mux.conn == w.mux.conn && w'.mux.accepting == w.mux.accepting
    && w'.mux.transfers == w.mux.transfers && w'.mux.nextToken == w.mux.nextToken
    && w'.mux.transferEpoch == w.mux.transferEpoch
  }

  lemma LogInstall(used: set<Conn>, log: seq<Event>, c: Conn)
    requires LogOk(None, used, log) && c !in used
    ensures LogOk(Some(c), used + {c}, log + [Installed(c)])
  {
    var log' := log + [Installed(c)];
    forall d ensures d in used + {c} <==> Installed(d) in log' {
      assert Installed(d) in log' <==> Installed(d) in log || d == c;
    }
    forall d | d in used && d != c ensures exists b :: Detached(d, b) in log' {
      var b :| Detached(d, b) in log;
      assert Detached(d, b) in log';
    }
  }

  lemma LogDetach(c: Conn, used: set<Conn>, log: seq<Event>, announced: bool)
    requires LogOk(Some(c), used, log)
    ensures LogOk(None, used, log + [Detached(c, announced)])
  {
    var log' := log + [Detached(c, announced)];
    forall d ensures d in used <==> Installed(d) in log' {
      assert Installed(d) in log' <==> Installed(d) in log;
    }
    forall d | d in used ensures exists b :: Detached(d, b) in log' {
      if d == c {
        assert log'[|log|] == Detached(c, announced);
      } else {
        var b :| Detached(d, b) in log;
        assert Detached(d, b) in log';
      }
    }
  }

  lemma DetachingLedger(w: World, announced: bool)
    requires Ledger(w)
    ensures Ledger(Detaching(w, announced))
  {
    if w.mux.conn.Some? { LogDetach(w.mux.conn.value, w.used, w.log, announced); }
  }

  lemma TerminatingLedger(w: World, c: Conn)
    requires Ledger(w)
    ensures Ledger(Terminating(w, c))
  {
    DetachingLedger(w, true);
  }

  lemma FinishLedger(w: World, r: Req)
    requires r in w.calls
    ensures SameLedger(w, Finish(w, r))
  {
  }

  lemma RegisterLedger(w: World, w': World, r: Req, expected: Option<Conn>)
    requires RegisterStep(w, w', r, expected)
    ensures SameLedger(w, w')
  {
  }

  lemma CallersLeaveLedger(w: World, w': World, s: Step)
    requires NextBy(w, w', s) && CallerKind(s)
    ensures SameLedger(w, w')
  {
    if s.RegisterBy? {
      RegisterLedger(w, w', s.r, s.expected);
    } else if s.EncodeErrorBy? || s.ReceiveBy? {
      FinishLedger(w, s.r);
    }
  }

  lemma DispatchedLedger(w: World, w': World, from: Conn, f: Frame, answers: Option<Req>)
    requires Dispatched(w, w', from, f, answers)
    ensures SameLedger(w, w')
  {
  }

  lemma DispatchLeavesLedger(w: World, w': World, s: Step)
    requires NextBy(w, w', s) && (s.DispatchAnswerBy? || s.DispatchNoiseBy?)
    ensures SameLedger(w, w')
  {
    if s.DispatchAnswerBy? {
      DispatchedLedger(w.(wire := w.wire - {s.r}), w', w.calls[s.r].at.value, w.wire[s.r], Some(s.r));
    } else {
      DispatchedLedger(w.(noise := w.noise - {s.n}), w', s.n.from, s.n.frame, None);
    }
  }

  lemma WireLeavesLedger(w: World, w': World, s: Step)
    requires NextBy(w, w', s) && WireKind(s)
    ensures SameLedger(w, w')
  {
    if s.DispatchAnswerBy? || s.DispatchNoiseBy? { DispatchLeavesLedger(w, w', s); }
  }

  lemma AbandoningLedger(w: World, r: Req)
    requires r in w.calls && w.calls[r].at.Some?
    ensures SameLedger(w, Abandoning(w, r))
  {
  }

  lemma FinishTerminatingLedger(w: World, r: Req, c: Conn)
    requires Ledger(w) && r in w.calls
    ensures Ledger(Finish(Terminating(w, c), r))
  {
    TerminatingLedger(w, c);
    FinishLedger(Terminating(w, c), r);
  }

  lemma TimeoutLedger(w: World, w': World, r: Req)
    requires Ledger(w) && TimeoutStep(w, w', r)
    ensures Ledger(w')
  {
    if w.calls[r].drainable {
      AbandoningLedger(w, r);
    } else {
      FinishTerminatingLedger(w, r, w.calls[r].at.value);
    }
  }

  lemma WriteFailLedger(w: World, w': World, r: Req, reached: bool)
    requires Ledger(w) && WriteFailStep(w, w', r, reached)
    ensures Ledger(w')
  {
    var v := if reached then Written(w, r) else w;
    assert SameLedger(w, v);
    FinishTerminatingLedger(v, r, w.calls[r].at.value);
  }

  lemma ConnsKeepLedger(w: World, w': World, s: Step)
    requires Ledger(w) && NextBy(w, w', s) && ConnKind(s)
    ensures Ledger(w')
  {
    match s
    case DrainBy(_) => DetachingLedger(w, true);
    case TerminateBy(c) => TerminatingLedger(w, c);
    case Disconnect => DetachingLedger(w, false);
    case InstallBy(c) => LogInstall(w.used, w.log, c);
  }

  lemma StepKeepsLedger(w: World, w': World, s: Step)
    requires Ledger(w) && NextBy(w, w', s)
    ensures Ledger(w')
  {
    if CallerKind(s) {
      CallersLeaveLedger(w, w', s);
    } else if WireKind(s) {
      WireLeavesLedger(w, w', s);
    } else if ConnKind(s) {
      ConnsKeepLedger(w, w', s);
    } else if s.TimeoutBy? {
      TimeoutLedger(w, w', s.r);
    } else if s.WriteFailBy? {
      WriteFailLedger(w, w', s.r, s.reached);
    }
  }

  lemma {:induction false} RunsKeepLedger(ws: seq<World>, steps: seq<Step>, i: nat)
    requires Run(ws, steps) && i < |ws|
    ensures Ledger(ws[i])
  {
    if i > 0 {
      RunsKeepLedger(ws, steps, i - 1);
      assert NextBy(ws[i - 1], ws[i - 1 + 1], steps[i - 1]);
      StepKeepsLedger(ws[i - 1], ws[i], steps[i - 1]);
    }
  }

  /** Every registered transfer carries the current transfer epoch of an installed connection. */
  lemma TransfersAreCurrent(ws: seq<World>, steps: seq<Step>, i: nat, t: Token)
    requires Run(ws, steps) && i < |ws| && t in ws[i].mux.transfers
    ensures ws[i].mux.transfers[t].epoch == ws[i].mux.transferEpoch && ws[i].mux.conn.Some?
    ensures t <= ws[i].mux.nextToken
  {
    RunsKeepLedger(ws, steps, i);
  }

  /** How often a connection was detached, and how often that was announced. */
  function Ends(log: seq<Event>, c: Conn): nat {
    if log == [] then 0
    else Ends(log[..|log| - 1], c) + if log[|log| - 1].Detached? && log[|log| - 1].conn == c then 1 else 0
  }

  function Announcements(log: seq<Event>, c: Conn): nat {
    if log == [] then 0
    else Announcements(log[..|log| - 1], c) + if log[|log| - 1] == Detached(c, true) then 1 else 0
  }

  lemma {:induction false} EndsCounted(log: seq<Event>, c: Conn)
    requires forall i, j :: 0 <= i < j < |log| && log[i].conn == log[j].conn ==> log[i].Installed?
    ensures Ends(log, c) == if (exists b :: Detached(c, b) in log) then 1 else 0
    ensures Announcements(log, c) == if Detached(c, true) in log then 1 else 0
  {
    if log != [] {
      var rest, last := log[..|log| - 1], log[|log| - 1];
      EndsCounted(rest, c);
      assert log == rest + [last];
      assert forall e :: e in log <==> e in rest || e == last;
      if last.Detached? && last.conn == c {
        assert forall b :: Detached(c, b) !in rest;
        assert Detached(c, last.announced) in log;
      } else {
        assert forall b :: Detached(c, b) in log <==> Detached(c, b) in rest;
      }
    }
  }

  /**
   * In every run each installed connection other than the current one was detached exactly once, the
   * current one never, and each gave rise to at most one "disconnected" event.
   */
  lemma ConnectionsEndOnce(ws: seq<World>, steps: seq<Step>, i: nat, c: Conn)
    requires Run(ws, steps) && i < |ws|
    ensures Ends(ws[i].log, c) == if c in ws[i].used && ws[i].mux.conn != Some(c) then 1 else 0
    ensures Announcements(ws[i].log, c) <= 1
  {
    RunsKeepLedger(ws, steps, i);
    var w := ws[i];
    EndsCounted(w.log, c);
    if b :| Detached(c, b) in w.log {
      var j :| 0 <= j < |w.log| && w.log[j] == Detached(c, b);
    }
  }

  /** The connection goes only by a teardown, which drops every transfer and is logged once. */
  ghost predicate TornDown(w: World, w': World, c: Conn, announced: bool) {
    && w'.mux.conn == None && w'.mux.transfers == map[] && w'.mux.transferEpoch == w.mux.transferEpoch + 1
    && w'.log == w.log + [Detached(c, announced)]
  }

  lemma FinishTornDown(w: World, v: World, r: Req, c: Conn)
    requires r in v.calls && TornDown(w, v, c, true)
    ensures TornDown(w, Finish(v, r), c, true)
  {
  }

  lemma DrainingLeavesConn(w: World, w': World, r: Req)
    requires TimeoutStep(w, w', r) && w.calls[r].drainable
    ensures w'.mux.conn == w.mux.conn
  {
  }

  lemma TimeoutTearsDown(w: World, w': World, r: Req, c: Conn)
    requires TimeoutStep(w, w', r) && !w.calls[r].drainable && w.mux.conn == Some(c) && w'.mux.conn != Some(c)
    ensures TornDown(w, w', c, true)
  {
    FinishTornDown(w, Terminating(w, w.calls[r].at.value), r, c);
  }

  lemma WriteFailTearsDown(w: World, w': World, r: Req, b: bool, c: Conn)
    requires WriteFailStep(w, w', r, b) && w.mux.conn == Some(c) && w'.mux.conn != Some(c)
    ensures TornDown(w, w', c, true)
  {
    var v := if b then Written(w, r) else w;
    FinishTornDown(w, Terminating(v, w.calls[r].at.value), r, c);
  }

  /**
   * Whatever step ends the installed connection, it drops every transfer and moves the transfer epoch;
   * only a local disconnect goes unannounced.
   */
  lemma TeardownIsComplete(w: World, w': World, s: Step, c: Conn)
    requires NextBy(w, w', s) && w.mux.conn == Some(c) && w'.mux.conn != Some(c)
    ensures TornDown(w, w', c, !s.Disconnect?)
  {
    if s.WriteFailBy? {
      WriteFailTearsDown(w, w', s.r, s.reached, c);
    } else if s.TimeoutBy? && !w.calls[s.r].drainable {
      TimeoutTearsDown(w, w', s.r, c);
    } else if s.TimeoutBy? {
      DrainingLeavesConn(w, w', s.r);
    } else if !ConnKind(s) {
      ConnUntouched(w, w', s);
    }
  }

  lemma ConnUntouched(w: World, w': World, s: Step)
    requires NextBy(w, w', s) && !ConnKind(s) && !s.WriteFailBy? && !s.TimeoutBy?
    ensures w'.mux.conn == w.mux.conn
  {
    if WireKind(s) {
      WireLeavesConn(w, w', s);
    } else if s.EnterGateBy? || s.RegisterBy? {
    } else if CallerKind(s) {
      CallersLeaveConn(w, w', s);
    }
  }

  lemma WireLeavesConn(w: World, w': World, s: Step)
    requires NextBy(w, w', s) && WireKind(s)
    ensures w'.mux.conn == w.mux.conn
  {
  }

  lemma CallersLeaveConn(w: World, w': World, s: Step)
    requires NextBy(w, w', s) && (s.WriteBy? || s.EncodeErrorBy? || s.ReceiveBy?)
    ensures w'.mux.conn == w.mux.conn
  {
  }

  // ----- calls, gates, slots and results -------------------------------------------------------

  /** A call holds its gate until it finishes, has no result before it has a connection, and one at most. */
  ghost predicate CallInOrder(w: World, r: Req)
    requires r in w.calls
  {
    var call := w.calls[r];
    && (call.phase != Finished ==> call.reply in w.gates && w.gates[call.reply] == r)
    && (call.at.None? ==> r !in w.claims && r !in w.inbox)
    && (call.phase == Gated ==> call.at.None?)
    && (call.phase == Registered || call.phase == Asked ==> call.at.Some?)
    && (r in w.claims ==> r !in w.inbox)
  }

  ghost predicate Orderly(w: World) {
    && (forall r {:trigger CallInOrder(w, r)} :: r in w.calls ==> CallInOrder(w, r))
    && (forall k {:trigger SlotOk(w, k)} :: k in w.mux.pending ==> SlotOk(w, k))
    && (forall k {:trigger GateOk(w, k)} :: k in w.gates ==> GateOk(w, k))
    && w.claims.Keys <= w.calls.Keys && w.inbox.Keys <= w.calls.Keys
    && (w.mux.conn.None? ==> w.mux.pending == map[])
  }

  lemma EnterGateOrderly(w: World, w': World, r: Req, send: MsgType, d: bool)
    requires Orderly(w) && EnterGate(w, w', r, send, d)
    ensures Orderly(w')
  {
    forall q | q in w'.calls ensures CallInOrder(w', q) { assert q in w.calls ==> CallInOrder(w, q); }
    forall k | k in w'.mux.pending ensures SlotOk(w', k) { assert SlotOk(w, k); }
    forall k | k in w'.gates ensures GateOk(w', k) { assert k in w.gates ==> GateOk(w, k); }
  }

  lemma RegisteringOrderly(w: World, r: Req)
    requires Orderly(w) && r in w.calls && w.calls[r].phase == Gated && CanRegister(w.mux, None, w.calls[r].reply)
    ensures Orderly(Registering(w, r))
  {
    var w' := Registering(w, r);
    assert CallInOrder(w, r);
    forall q | q in w'.calls ensures CallInOrder(w', q) { assert CallInOrder(w, q); }
    forall k | k in w'.mux.pending ensures SlotOk(w', k) { assert k in w.mux.pending ==> SlotOk(w, k); }
    forall k | k in w'.gates ensures GateOk(w', k) { assert GateOk(w, k); }
  }

  lemma RefusingOrderly(w: World, r: Req)
    requires Orderly(w) && r in w.calls && w.calls[r].phase == Gated
    ensures Orderly(Refusing(w, r))
  {
    var w' := Refusing(w, r);
    assert CallInOrder(w, r);
    forall q | q in w'.calls ensures CallInOrder(w', q) { assert CallInOrder(w, q); }
    forall k | k in w'.mux.pending ensures SlotOk(w', k) { assert SlotOk(w, k); }
    forall k | k in w'.gates ensures GateOk(w', k) { assert GateOk(w, k); }
  }

  lemma WrittenOrderly(w: World, r: Req)
    requires Orderly(w) && r in w.calls && w.calls[r].phase == Registered
    ensures Orderly(Written(w, r))
  {
    var w' := Written(w, r);
    forall q | q in w'.calls ensures CallInOrder(w', q) { assert CallInOrder(w, q); }
    forall k | k in w'.mux.pending ensures SlotOk(w', k) { assert SlotOk(w, k); }
    forall k | k in w'.gates ensures GateOk(w', k) { assert GateOk(w, k); }
  }

  lemma FinishOrderly(w: World, r: Req)
    requires Orderly(w) && r in w.calls && w.calls[r].phase != Finished
    ensures Orderly(Finish(w, r))
  {
    var w' := Finish(w, r);
    assert CallInOrder(w, r);
    forall q | q in w'.calls ensures CallInOrder(w', q) { assert CallInOrder(w, q); }
    forall k | k in w'.mux.pending ensures SlotOk(w', k) { assert SlotOk(w, k); FinishSlot(w, r, k); }
    forall k | k in w'.gates ensures GateOk(w', k) { assert GateOk(w, k); }
  }

  lemma AbandoningOrderly(w: World, r: Req)
    requires Orderly(w) && r in w.calls && w.calls[r].phase == Asked && w.calls[r].at.Some?
    ensures Orderly(Abandoning(w, r))
  {
    if w.mux.conn == w.calls[r].at && Holds(w.mux, w.calls[r].reply, r) {
      var w' := Abandoning(w, r);
      assert CallInOrder(w, r);
      forall q | q in w'.calls ensures CallInOrder(w', q) { assert CallInOrder(w, q); }
      forall k | k in w'.mux.pending ensures SlotOk(w', k) { assert SlotOk(w, k); AbandonSlot(w, r, k); }
      forall k | k in w'.gates ensures GateOk(w', k) { assert GateOk(w, k); }
    } else {
      FinishOrderly(w, r);
    }
  }

  lemma DetachingOrderly(w: World, announced: bool)
    requires Orderly(w)
    ensures Orderly(Detaching(w, announced))
  {
    var w' := Detaching(w, announced);
    forall r | r in Waiters(w.mux) ensures r in w.calls && r !in w.inbox && w.calls[r].at.Some? {
      var k :| k in w.mux.pending && w.mux.pending[k].result == r;
      assert SlotOk(w, k);
    }
    forall q | q in w'.calls ensures CallInOrder(w', q) { assert CallInOrder(w, q); }
    forall k | k in w'.gates ensures GateOk(w', k) { assert GateOk(w, k); }
  }

  lemma TerminatingOrderly(w: World, c: Conn)
    requires Orderly(w)
    ensures Orderly(Terminating(w, c))
  {
    DetachingOrderly(w, true);
  }

  /** Whatever frame claims a slot, the slot's request had no result before. */
  lemma ClaimingOrderly(w: World, k: MsgType, o: RequestMatching.Outcome)
    requires Orderly(w) && k in w.mux.pending
    ensures Orderly(Claiming(w, k, o))
  {
    var w', r := Claiming(w, k, o), w.mux.pending[k].result;
    assert SlotOk(w, k) && CallInOrder(w, r);
    forall q | q in w'.calls ensures CallInOrder(w', q) { assert CallInOrder(w, q); }
    forall j | j in w'.mux.pending ensures SlotOk(w', j) { assert SlotOk(w, j); }
    forall j | j in w'.gates ensures GateOk(w', j) { assert GateOk(w, j); }
  }

  /** Steps that touch neither calls, gates, slots nor results. */
  lemma OthersOrderly(w: World, w': World)
    requires Orderly(w) && w'.calls == w.calls && w'.gates == w.gates && w'.claims == w.claims && w'.inbox == w.inbox
    requires w'.mux.pending == w.mux.pending && (w.mux.pending == map[] || w'.mux.conn == w.mux.conn)
    ensures Orderly(w')
  {
    forall q | q in w'.calls ensures CallInOrder(w', q) { assert CallInOrder(w, q); }
    forall k | k in w'.mux.pending ensures SlotOk(w', k) { assert SlotOk(w, k); }
    forall k | k in w'.gates ensures GateOk(w', k) { assert GateOk(w, k); }
  }

  lemma DispatchedOrderly(w: World, w': World, from: Conn, f: Frame, answers: Option<Req>)
    requires Orderly(w) && Dispatched(w, w', from, f, answers)
    ensures Orderly(w')
  {
    if Accepts(w.mux, from, w.loops[from]) && exists k :: Matches(w.mux, f, k) {
      var k :| Matches(w.mux, f, k) && w' == Claiming(w, k, Got(f, answers));
      ClaimingOrderly(w, k, Got(f, answers));
    }
  }

  lemma DeliverOrderly(w: World, w': World, r: Req)
    requires Orderly(w) && DeliverStep(w, w', r)
    ensures Orderly(w')
  {
    forall q | q in w'.calls ensures CallInOrder(w', q) { assert CallInOrder(w, q); }
    forall k | k in w'.mux.pending ensures SlotOk(w', k) { assert SlotOk(w, k); }
    forall k | k in w'.gates ensures GateOk(w', k) { assert GateOk(w, k); }
  }

  lemma CallersOrderly(w: World, w': World, s: Step)
    requires Orderly(w) && NextBy(w, w', s) && CallerKind(s)
    ensures Orderly(w')
  {
    match s
    case EnterGateBy(r, send, d) => EnterGateOrderly(w, w', r, send, d);
    case RegisterBy(r, e) =>
      if CanRegister(w.mux, e, w.calls[r].reply) { RegisteringOrderly(w, r); } else { RefusingOrderly(w, r); }
    case WriteBy(r) => WrittenOrderly(w, r);
    case EncodeErrorBy(r) => FinishOrderly(w, r);
    case ReceiveBy(r) => FinishOrderly(w, r);
  }

  lemma WireOrderly(w: World, w': World, s: Step)
    requires Orderly(w) && NextBy(w, w', s) && WireKind(s)
    ensures Orderly(w')
  {
    match s
    case DispatchAnswerBy(r) =>
      var v := w.(wire := w.wire - {r});
      OthersOrderly(w, v);
      DispatchedOrderly(v, w', w.calls[r].at.value, w.wire[r], Some(r));
    case DispatchNoiseBy(n) =>
      var v := w.(noise := w.noise - {n});
      OthersOrderly(w, v);
      DispatchedOrderly(v, w', n.from, n.frame, None);
    case DeliverBy(r) => DeliverOrderly(w, w', r);
    case _ => OthersOrderly(w, w');
  }

  lemma ConnsOrderly(w: World, w': World, s: Step)
    requires Orderly(w) && NextBy(w, w', s) && ConnKind(s)
    ensures Orderly(w')
  {
    match s
    case DrainBy(_) => DetachingOrderly(w, true);
    case TerminateBy(c) => TerminatingOrderly(w, c);
    case Disconnect => DetachingOrderly(w, false);
    case InstallBy(_) => OthersOrderly(w, w');
  }

  lemma TimeoutOrderly(w: World, w': World, r: Req)
    requires Orderly(w) && TimeoutStep(w, w', r)
    ensures Orderly(w')
  {
    if w.calls[r].drainable {
      AbandoningOrderly(w, r);
    } else {
      TerminatingOrderly(w, w.calls[r].at.value);
      FinishOrderly(Terminating(w, w.calls[r].at.value), r);
    }
  }

  lemma WriteFailOrderly(w: World, w': World, r: Req, reached: bool)
    requires Orderly(w) && WriteFailStep(w, w', r, reached)
    ensures Orderly(w')
  {
    WrittenOrderly(w, r);
    var v := if reached then Written(w, r) else w;
    TerminatingOrderly(v, w.calls[r].at.value);
    FinishOrderly(Terminating(v, w.calls[r].at.value), r);
  }

  lemma StepKeepsOrder(w: World, w': World, s: Step)
    requires Orderly(w) && NextBy(w, w', s)
    ensures Orderly(w')
  {
    if CallerKind(s) {
      CallersOrderly(w, w', s);
    } else if WireKind(s) {
      WireOrderly(w, w', s);
    } else if ConnKind(s) {
      ConnsOrderly(w, w', s);
    } else if s.TimeoutBy? {
      TimeoutOrderly(w, w', s.r);
    } else if s.WriteFailBy? {
      WriteFailOrderly(w, w', s.r, s.reached);
    } else {
      OthersOrderly(w, w');
    }
  }

  lemma {:induction false} RunsKeepOrder(ws: seq<World>, steps: seq<Step>, i: nat)
    requires Run(ws, steps) && i < |ws|
    ensures Orderly(ws[i])
  {
    if i > 0 {
      RunsKeepOrder(ws, steps, i - 1);
      assert NextBy(ws[i - 1], ws[i - 1 + 1], steps[i - 1]);
      StepKeepsOrder(ws[i - 1], ws[i], steps[i - 1]);
    }
  }

  lemma InboxStaysOnWire(w: World, w': World, s: Step)
    requires NextBy(w, w', s) && WireKind(s)
    ensures forall r :: r in w.inbox ==> r in w'.inbox && w'.inbox[r] == w.inbox[r]
  {
  }

  lemma TimeoutKeepsInbox(w: World, w': World, r: Req)
    requires TimeoutStep(w, w', r)
    ensures w'.inbox == w.inbox
  {
  }

  lemma WriteFailKeepsInbox(w: World, w': World, r: Req, reached: bool)
    requires WriteFailStep(w, w', r, reached)
    ensures w'.inbox == w.inbox
  {
  }

  lemma ConnKeepsInbox(w: World, w': World, s: Step)
    requires NextBy(w, w', s) && ConnKind(s)
    ensures w'.inbox == w.inbox
  {
  }

  lemma InboxStays(w: World, w': World, s: Step, r: Req)
    requires NextBy(w, w', s) && r in w.inbox
    ensures r in w'.inbox && w'.inbox[r] == w.inbox[r]
  {
    if WireKind(s) {
      InboxStaysOnWire(w, w', s);
    } else if s.WriteFailBy? {
      WriteFailKeepsInbox(w, w', s.r, s.reached);
    } else if s.TimeoutBy? {
      TimeoutKeepsInbox(w, w', s.r);
    } else if ConnKind(s) {
      ConnKeepsInbox(w, w', s);
    }
  }

  lemma {:induction false} InboxStaysOverRuns(ws: seq<World>, steps: seq<Step>, i: nat, j: nat, r: Req)
    requires Run(ws, steps) && i <= j < |ws| && r in ws[i].inbox
    ensures r in ws[j].inbox && ws[j].inbox[r] == ws[i].inbox[r]
    decreases j
  {
    if i < j {
      InboxStaysOverRuns(ws, steps, i, j - 1, r);
      assert NextBy(ws[j - 1], ws[j - 1 + 1], steps[j - 1]);
      InboxStays(ws[j - 1], ws[j], steps[j - 1], r);
    }
  }

  lemma SettledWaiter(w: World, r: Req)
    requires Orderly(w) && r in w.inbox
    ensures r !in w.claims && r !in Waiters(w.mux)
  {
    assert CallInOrder(w, r);
    forall k | k in w.mux.pending ensures w.mux.pending[k].result != r { assert SlotOk(w, k); }
  }

  /** Once a waiter has a result, it keeps that one and no other is ever under way to it. */
  lemma OneResultPerWaiter(ws: seq<World>, steps: seq<Step>, i: nat, j: nat, r: Req)
    requires Run(ws, steps) && i <= j < |ws| && r in ws[i].inbox
    ensures r in ws[j].inbox && ws[j].inbox[r] == ws[i].inbox[r]
    ensures r !in ws[j].claims && r !in Waiters(ws[j].mux)
  {
    InboxStaysOverRuns(ws, steps, i, j, r);
    RunsKeepOrder(ws, steps, j);
    SettledWaiter(ws[j], r);
  }

  /** A request's clean-up, and its abandonment, leave every other request's slot alone. */
  lemma CleanupSparesOthers(m: Mux, c: Conn, reply: MsgType, r: Req, k: MsgType)
    requires k in m.pending && m.pending[k].result != r
    ensures k in Cleanup(m, reply, r).pending && Cleanup(m, reply, r).pending[k] == m.pending[k]
    ensures k in Abandon(m, c, reply, r).pending && Abandon(m, c, reply, r).pending[k] == m.pending[k]
  {
  }

  /** Whoever holds a gate finds the slot taken only by an abandoned request still draining. */
  lemma StillPendingMeansDraining(ws: seq<World>, steps: seq<Step>, i: nat, r: Req)
    requires Run(ws, steps) && i < |ws|
    requires r in ws[i].calls && ws[i].calls[r].phase == Gated && ws[i].calls[r].reply in ws[i].mux.pending
    ensures ws[i].mux.pending[ws[i].calls[r].reply].abandoned
  {
    RunsKeepOrder(ws, steps, i);
    var w := ws[i];
    var k := w.calls[r].reply;
    assert CallInOrder(w, r) && SlotOk(w, k) && CallInOrder(w, w.mux.pending[k].result);
  }
}
