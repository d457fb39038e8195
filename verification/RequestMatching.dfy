/**
 * Whole runs of the request multiplexer: callers, the wire, the server, read loops and timers around
 * the critical sections of `ConnManager`.
 *
 * The wire carries no request IDs.  `wire` and `Outcome.answers` record which request a frame really
 * answers; no step of the client reads that.  The theorem is that a frame handed to a waiter answers
 * that waiter's own request.
 */
module RequestMatching {
  import opened Common
  import opened ConnManager

  /** What reaches a result channel: a frame, with the request it really answers, or "closed". */
  datatype Outcome = Got(frame: Frame, answers: Option<Req>) | Closed

  /** Gated: holds the reply type's gate. Registered: has a slot. Asked: wrote its request. */
  datatype Phase = Gated | Registered | Asked | Finished

  datatype Call = Call(send: MsgType, reply: MsgType, at: Option<Conn>, drainable: bool, phase: Phase)

  datatype Event = Installed(conn: Conn) | Detached(conn: Conn, announced: bool)

  /** A frame nobody asked for, from a connection. */
  datatype Noise = Noise(from: Conn, frame: Frame)

  datatype World = World(
    mux: Mux,
    table: map<MsgType, MsgType>,  // awaited request type -> its reply type
    used: set<Conn>,               // every connection ever installed
    loops: map<Conn, nat>,         // read loops and the epoch each captured
    gates: map<MsgType, Req>,      // who holds the gate of a reply type
    calls: map<Req, Call>,
    server: set<Req>,              // requests the server may still answer
    wire: map<Req, Frame>,         // answers in flight, on the asking connection
    noise: set<Noise>,             // unsolicited frames in flight
    claims: map<Req, Outcome>,     // taken under the lock, not yet sent on the result channel
    inbox: map<Req, Outcome>,      // what each result channel received
    log: seq<Event>)

  ghost predicate Init(w: World) {
    && w.mux == Mux(None, 0, map[], 0, false, map[], 0)
    && w.used == {} && w.loops == map[] && w.gates == map[] && w.calls == map[]
    && w.server == {} && w.wire == map[] && w.noise == {} && w.claims == map[] && w.inbox == map[] && w.log == []
  }

  // ----- steps of a caller ---------------------------------------------------------------------

  ghost predicate EnterGate(w: World, w': World, r: Req, send: MsgType, drainable: bool) {
    && r !in w.calls
    && send in w.table && send != 0
    && w.table[send] !in w.gates
    && w' == w.(gates := w.gates[w.table[send] := r],
                calls := w.calls[r := Call(send, w.table[send], None, drainable, Gated)])
  }

  /** The call returns: its clean-up runs, then it leaves the gate. */
  function Finish(w: World, r: Req): World
    requires r in w.calls
  {
    w.(mux := Cleanup(w.mux, w.calls[r].reply, r),
       gates := w.gates - {w.calls[r].reply},
       calls := w.calls[r := w.calls[r].(phase := Finished)])
  }

  ghost predicate RegisterStep(w: World, w': World, r: Req, expected: Option<Conn>) {
    && r in w.calls && w.calls[r].phase == Gated
    && w' == if CanRegister(w.mux, expected, w.calls[r].reply) then Registering(w, r) else Refusing(w, r)
  }

  function Registering(w: World, r: Req): World
    requires r in w.calls
  {
    var call := w.calls[r];
    w.(mux := Register(w.mux, call.send, call.reply, r),
       calls := w.calls[r := call.(at := w.mux.conn, phase := Registered)])
  }

  function Refusing(w: World, r: Req): World
    requires r in w.calls
  {
    w.(gates := w.gates - {w.calls[r].reply}, calls := w.calls[r := w.calls[r].(phase := Finished)])
  }

  /** The request reaches the server, over its own connection, installed or not. */
  ghost predicate WriteStep(w: World, w': World, r: Req) {
    && r in w.calls && w.calls[r].phase == Registered
    && w' == Written(w, r)
  }

  function Written(w: World, r: Req): World
    requires r in w.calls
  {
    w.(calls := w.calls[r := w.calls[r].(phase := Asked)], server := w.server + {r})
  }

  /** The message cannot be encoded: nothing was written and the connection stays. */
  ghost predicate EncodeErrorStep(w: World, w': World, r: Req) {
    && r in w.calls && w.calls[r].phase == Registered
    && w' == Finish(w, r)
  }

  /** Detaching hands every waiter "closed" and records the event. */
  function Detaching(w: World, announced: bool): World {
    w.(mux := Detach(w.mux),
       claims := w.claims + (map r | r in Waiters(w.mux) :: Closed),
       log := if w.mux.conn.Some? then w.log + [Detached(w.mux.conn.value, announced)] else w.log)
  }

  function Terminating(w: World, c: Conn): World {
    if w.mux.conn == Some(c) then Detaching(w, true) else w
  }

  /** A failed write terminates its connection; the server may or may not have the request. */
  ghost predicate WriteFailStep(w: World, w': World, r: Req, reached: bool) {
    && r in w.calls && w.calls[r].phase == Registered && w.calls[r].at.Some?
    && w' == Finish(Terminating(if reached then Written(w, r) else w, w.calls[r].at.value), r)
  }

  ghost predicate ReceiveStep(w: World, w': World, r: Req) {
    && r in w.calls && w.calls[r].phase == Asked && r in w.inbox
    && w' == Finish(w, r)
  }

  /** A background read keeps its slot as abandoned; any other request tears the connection down. */
  ghost predicate TimeoutStep(w: World, w': World, r: Req) {
    && r in w.calls && w.calls[r].phase == Asked && w.calls[r].at.Some?
    && var call := w.calls[r];
       w' == if call.drainable
             then Abandoning(w, r)
             else Finish(Terminating(w, call.at.value), r)
  }

  // ----- steps of the connection's owners ------------------------------------------------------

  /** A drain timer may fire late, even after it was stopped; its own check decides. */
  ghost predicate DrainStep(w: World, w': World, r: Req) {
    && r in w.calls && w.calls[r].at.Some?
    && w' == if DrainFires(w.mux, w.calls[r].at.value, w.calls[r].reply, r) then Detaching(w, true) else w
  }

  ghost predicate InstallStep(w: World, w': World, c: Conn) {
    && w.mux.conn == None && c !in w.used
    && w' == w.(mux := Install(w.mux, c), used := w.used + {c}, log := w.log + [Installed(c)])
  }

  ghost predicate LoopStep(w: World, w': World, c: Conn) {
    && c in w.used && c !in w.loops
    && w' == w.(loops := w.loops[c := w.mux.epoch])
  }

  // ----- steps of the server and the dispatcher ------------------------------------------------

  /** The server answers a request once, with its reply type or with an error naming it. */
  ghost predicate AnswerStep(w: World, w': World, r: Req, f: Frame) {
    && r in w.server && r in w.calls
    && (f == Reply(w.calls[r].reply) || f == Error(w.calls[r].send))
    && w' == w.(server := w.server - {r}, wire := w.wire[r := f])
  }

  /** A frame of a type nobody awaits. */
  predicate Unawaited(table: map<MsgType, MsgType>, f: Frame) {
    match f
    case Reply(mt) => forall s :: s in table ==> table[s] != mt
    case Error(origin) => origin !in table
  }

  ghost predicate NoiseStep(w: World, w': World, n: Noise) {
    && n.from in w.used
    && w' == w.(noise := w.noise + {n})
  }

  ghost predicate DispatchAnswerStep(w: World, w': World, r: Req) {
    && r in w.wire && r in w.calls && w.calls[r].at.Some?
    && Dispatched(w.(wire := w.wire - {r}), w', w.calls[r].at.value, w.wire[r], Some(r))
  }

  ghost predicate DispatchNoiseStep(w: World, w': World, n: Noise) {
    && n in w.noise
    && Dispatched(w.(noise := w.noise - {n}), w', n.from, n.frame, None)
  }

  /** One dispatch by the read loop of `from`; several error slots may match, in unspecified order. */
  ghost predicate Dispatched(w: World, w': World, from: Conn, f: Frame, answers: Option<Req>) {
    && from in w.loops
    && if Accepts(w.mux, from, w.loops[from]) && (exists k :: Matches(w.mux, f, k))
       then exists k :: Matches(w.mux, f, k) && w' == Claiming(w, k, Got(f, answers))
       else w' == w
  }

  /** An abandoned slot's frame is dropped; otherwise it goes to the slot's channel. */
  function Claiming(w: World, k: MsgType, o: Outcome): World
    requires k in w.mux.pending
  {
    var slot := w.mux.pending[k];
    w.(mux := Claim(w.mux, k),
       claims := if slot.abandoned then w.claims else w.claims[slot.result := o])
  }

  /** The non-blocking send on a channel of capacity one. */
  ghost predicate DeliverStep(w: World, w': World, r: Req) {
    && r in w.claims
    && w' == w.(claims := w.claims - {r}, inbox := if r in w.inbox then w.inbox else w.inbox[r := w.claims[r]])
  }

  // ----- runs ----------------------------------------------------------------------------------

  datatype Step =
    | EnterGateBy(r: Req, send: MsgType, drainable: bool)
    | RegisterBy(r: Req, expected: Option<Conn>)
    | WriteBy(r: Req)
    | EncodeErrorBy(r: Req)
    | WriteFailBy(r: Req, reached: bool)
    | ReceiveBy(r: Req)
    | TimeoutBy(r: Req)
    | DrainBy(r: Req)
    | TerminateBy(c: Conn)
    | Disconnect
    | InstallBy(c: Conn)
    | LoopBy(c: Conn)
    | AnswerBy(r: Req, frame: Frame)
    | NoiseBy(n: Noise)
    | DispatchAnswerBy(r: Req)
    | DispatchNoiseBy(n: Noise)
    | DeliverBy(r: Req)
    | TrackBy(epoch: nat, frontendId: nat)
    | UntrackBy(t: Token)
    | CancelBy(frontendId: nat)

  ghost predicate NextBy(w: World, w': World, s: Step) {
    match s
    case EnterGateBy(r, send, d) => EnterGate(w, w', r, send, d)
    case RegisterBy(r, e) => RegisterStep(w, w', r, e)
    case WriteBy(r) => WriteStep(w, w', r)
    case EncodeErrorBy(r) => EncodeErrorStep(w, w', r)
    case WriteFailBy(r, b) => WriteFailStep(w, w', r, b)
    case ReceiveBy(r) => ReceiveStep(w, w', r)
    case TimeoutBy(r) => TimeoutStep(w, w', r)
    case DrainBy(r) => DrainStep(w, w', r)
    case TerminateBy(c) => w' == Terminating(w, c)
    case Disconnect => w' == Detaching(w, false)
    case InstallBy(c) => InstallStep(w, w', c)
    case LoopBy(c) => LoopStep(w, w', c)
    case AnswerBy(r, f) => AnswerStep(w, w', r, f)
    case NoiseBy(n) => NoiseStep(w, w', n)
    case DispatchAnswerBy(r) => DispatchAnswerStep(w, w', r)
    case DispatchNoiseBy(n) => DispatchNoiseStep(w, w', n)
    case DeliverBy(r) => DeliverStep(w, w', r)
    case TrackBy(e, l) => w' == w.(mux := if CanTrack(w.mux, e) then Track(w.mux, l) else w.mux)
    case UntrackBy(t) => w' == w.(mux := Untrack(w.mux, t))
    case CancelBy(l) => w' == w.(mux := CancelTransfers(w.mux, l))
  }

  /** The assumption on the server: frames that answer nothing are of types nobody awaits. */
  predicate Polite(w: World, s: Step) {
    s.NoiseBy? ==> Unawaited(w.table, s.n.frame)
  }

  /** What the client needs of it: no such frame, read on the installed connection, matches any slot. */
  ghost predicate Harmless(w: World, s: Step) {
    s.DispatchNoiseBy? && s.n.from in w.loops && Accepts(w.mux, s.n.from, w.loops[s.n.from]) ==>
      forall k :: !Matches(w.mux, s.n.frame, k)
  }

  /** A run of steps from the start; `ws[i]` becomes `ws[i + 1]` by `steps[i]`. */
  ghost predicate Run(ws: seq<World>, steps: seq<Step>) {
    && |ws| == |steps| + 1
    && Init(ws[0])
    && forall i {:trigger steps[i]} :: 0 <= i < |steps| ==> NextBy(ws[i], ws[i + 1], steps[i])
  }

  ghost predicate QuietRun(ws: seq<World>, steps: seq<Step>) {
    && Run(ws, steps)
    && forall i {:trigger steps[i]} :: 0 <= i < |steps| ==> Harmless(ws[i], steps[i])
  }

  // ----- the invariant -------------------------------------------------------------------------

  predicate Own(r: Req, o: Outcome) {
    o.Got? ==> o.answers == Some(r)
  }

  /** Everything known about one request: its gate, its slot, and where its answer is. */
  ghost predicate CallOk(w: World, r: Req)
    requires r in w.calls
  {
    var call := w.calls[r];
    && call.send in w.table && call.send != 0 && w.table[call.send] == call.reply
    && (call.phase != Finished ==> call.reply in w.gates && w.gates[call.reply] == r)
    && (call.at.Some? ==> call.at.value in w.used)
    && (call.at.None? ==> r !in w.server && r !in w.wire && r !in w.claims && r !in w.inbox)
    && (call.phase == Gated ==> call.at.None?)
    && (call.phase == Registered || call.phase == Asked ==> call.at.Some?)
    && (call.phase == Registered ==> r !in w.server && r !in w.wire)
    && (r in w.server ==> r !in w.wire)
    && (r in w.wire ==> w.wire[r] == Reply(call.reply) || w.wire[r] == Error(call.send))
    && (call.at.Some? && call.at == w.mux.conn && (call.phase == Registered || r in w.server || r in w.wire) ==>
          Holds(w.mux, call.reply, r))
    && (r in w.claims ==> r !in w.inbox && Own(r, w.claims[r]))
    && (r in w.inbox ==> Own(r, w.inbox[r]))
  }

  /** A slot belongs to a call of its type, made on the installed connection, with no result yet. */
  ghost predicate SlotOk(w: World, k: MsgType)
    requires k in w.mux.pending
  {
    var s := w.mux.pending[k];
    && s.reply == k
    && s.result in w.calls && s.result !in w.claims && s.result !in w.inbox
    && var call := w.calls[s.result];
       call.send == s.request && call.reply == k && call.at == w.mux.conn && (s.abandoned <==> call.phase == Finished)
  }

  ghost predicate GateOk(w: World, k: MsgType)
    requires k in w.gates
  {
    w.gates[k] in w.calls && w.calls[w.gates[k]].reply == k && w.calls[w.gates[k]].phase != Finished
  }

  ghost predicate Matching(w: World) {
    && (forall r :: r in w.calls ==> CallOk(w, r))
    && (forall k :: k in w.mux.pending ==> SlotOk(w, k))
    && (forall k :: k in w.gates ==> GateOk(w, k))
    && w.server <= w.calls.Keys && w.wire.Keys <= w.calls.Keys
    && w.claims.Keys <= w.calls.Keys && w.inbox.Keys <= w.calls.Keys
    && (w.mux.conn.None? ==> w.mux.pending == map[])
    && (w.mux.conn.Some? ==> w.mux.conn.value in w.used)
  }

  /**
   * The slot's request, once written, can still be answered; and while the slot is only draining,
   * whoever holds its gate has not registered.
   */
  ghost predicate DrainOk(w: World, k: MsgType)
    requires k in w.mux.pending
  {
    var s := w.mux.pending[k];
    && s.result in w.calls
    && (w.calls[s.result].phase == Asked || w.calls[s.result].phase == Finished ==>
         s.result in w.server || s.result in w.wire)
    && (s.abandoned && k in w.gates ==> w.gates[k] in w.calls && w.calls[w.gates[k]].phase == Gated)
  }

  /** The read loop of the installed connection captured the current epoch. */
  ghost predicate LoopsOk(w: World) {
    && w.loops.Keys <= w.used
    && (w.mux.conn.Some? && w.mux.conn.value in w.loops ==> w.loops[w.mux.conn.value] == w.mux.epoch)
  }

  ghost predicate Drains(w: World) {
    forall k {:trigger DrainOk(w, k)} :: k in w.mux.pending ==> DrainOk(w, k)
  }

  ghost predicate Draining(w: World) { LoopsOk(w) && Drains(w) }

  ghost predicate Inv(w: World) { Matching(w) && Draining(w) }

  // ----- every step keeps the matching invariant -----------------------------------------------

  lemma EnterGateKeeps(w: World, w': World, r: Req, send: MsgType, d: bool)
    requires Matching(w) && EnterGate(w, w', r, send, d)
    ensures Matching(w')
  {
    forall q | q in w'.calls ensures CallOk(w', q) { if q in w.calls { assert CallOk(w, q); } }
    forall k | k in w'.mux.pending ensures SlotOk(w', k) { assert SlotOk(w, k); }
    forall k | k in w'.gates ensures GateOk(w', k) { if k in w.gates { assert GateOk(w, k); } }
  }

  lemma RegisteringCall(w: World, r: Req, q: Req)
    requires r in w.calls && q in w.calls && CallOk(w, q) && CallOk(w, r) && w.calls[r].phase == Gated
    requires CanRegister(w.mux, None, w.calls[r].reply) && w.mux.conn.value in w.used
    ensures CallOk(Registering(w, r), q)
  {
  }

  lemma RegisteringSlot(w: World, r: Req, k: MsgType)
    requires r in w.calls && CallOk(w, r) && w.calls[r].phase == Gated
    requires CanRegister(w.mux, None, w.calls[r].reply)
    requires k in Registering(w, r).mux.pending && (k in w.mux.pending ==> SlotOk(w, k))
    ensures SlotOk(Registering(w, r), k)
  {
  }

  lemma RegisteringKeeps(w: World, r: Req)
    requires Matching(w) && r in w.calls && w.calls[r].phase == Gated && CanRegister(w.mux, None, w.calls[r].reply)
    ensures Matching(Registering(w, r))
  {
    var w' := Registering(w, r);
    assert CallOk(w, r);
    forall q | q in w'.calls ensures CallOk(w', q) { assert CallOk(w, q); RegisteringCall(w, r, q); }
    forall k | k in w'.mux.pending ensures SlotOk(w', k) {
      if k in w.mux.pending { assert SlotOk(w, k); }
      RegisteringSlot(w, r, k);
    }
    forall k | k in w'.gates ensures GateOk(w', k) { assert GateOk(w, k); }
  }

  lemma RefusingKeeps(w: World, r: Req)
    requires Matching(w) && r in w.calls && w.calls[r].phase == Gated
    ensures Matching(Refusing(w, r))
  {
    var w' := Refusing(w, r);
    assert CallOk(w, r);
    forall q | q in w'.calls ensures CallOk(w', q) { assert CallOk(w, q); }
    forall k | k in w'.mux.pending ensures SlotOk(w', k) { assert SlotOk(w, k); }
    forall k | k in w'.gates ensures GateOk(w', k) { assert GateOk(w, k); }
  }

  lemma WrittenKeeps(w: World, r: Req)
    requires Matching(w) && r in w.calls && w.calls[r].phase == Registered
    ensures Matching(Written(w, r))
  {
    var w' := Written(w, r);
    assert CallOk(w, r);
    forall q | q in w'.calls ensures CallOk(w', q) { assert CallOk(w, q); }
    forall k | k in w'.mux.pending ensures SlotOk(w', k) { assert SlotOk(w, k); }
    forall k | k in w'.gates ensures GateOk(w', k) { assert GateOk(w, k); }
  }

  lemma FinishCall(w: World, r: Req, q: Req)
    requires r in w.calls && q in w.calls && CallOk(w, q)
    requires w.calls[r].phase != Finished &&
               (q != r && w.calls[q].phase != Finished ==> w.calls[q].reply != w.calls[r].reply)
    requires w.calls[r].at == w.mux.conn ==> r !in w.server && r !in w.wire
    ensures CallOk(Finish(w, r), q)
  {
  }

  lemma FinishSlot(w: World, r: Req, k: MsgType)
    requires r in w.calls && k in w.mux.pending && SlotOk(w, k)
    requires w.calls[r].phase != Finished && k in Finish(w, r).mux.pending
    ensures SlotOk(Finish(w, r), k)
  {
  }

  /** A call may finish once no frame that its slot must meet can still arrive. */
  lemma FinishKeeps(w: World, r: Req)
    requires Matching(w) && r in w.calls && w.calls[r].phase != Finished
    requires w.calls[r].at == w.mux.conn ==> r !in w.server && r !in w.wire
    ensures Matching(Finish(w, r))
  {
    var w' := Finish(w, r);
    assert CallOk(w, r);
    forall q | q in w'.calls ensures CallOk(w', q) { assert CallOk(w, q); FinishCall(w, r, q); }
    forall k | k in w'.mux.pending ensures SlotOk(w', k) { assert SlotOk(w, k); FinishSlot(w, r, k); }
    forall k | k in w'.gates ensures GateOk(w', k) { assert GateOk(w, k); }
  }

  lemma DetachingKeeps(w: World, announced: bool)
    requires Matching(w)
    ensures Matching(Detaching(w, announced))
  {
    var w' := Detaching(w, announced);
    forall r | r in Waiters(w.mux) ensures r in w.calls && r !in w.inbox && w.calls[r].at == w.mux.conn {
      var k :| k in w.mux.pending && w.mux.pending[k].result == r;
      assert SlotOk(w, k);
    }
    forall q | q in w'.calls ensures CallOk(w', q) { assert CallOk(w, q); }
    forall k | k in w'.gates ensures GateOk(w', k) { assert GateOk(w, k); }
  }

  lemma TerminatingKeeps(w: World, c: Conn)
    requires Matching(w)
    ensures Matching(Terminating(w, c)) && Terminating(w, c).mux.conn != Some(c)
    ensures Terminating(w, c).calls == w.calls
  {
    DetachingKeeps(w, true);
  }

  lemma ReceiveKeeps(w: World, w': World, r: Req)
    requires Matching(w) && ReceiveStep(w, w', r)
    ensures Matching(w')
  {
    assert CallOk(w, r);
    if w.calls[r].reply in w.mux.pending { assert SlotOk(w, w.calls[r].reply); }
    FinishKeeps(w, r);
  }

  function Abandoning(w: World, r: Req): World
    requires r in w.calls && w.calls[r].at.Some?
  {
    Finish(w.(mux := Abandon(w.mux, w.calls[r].at.value, w.calls[r].reply, r)), r)
  }

  lemma AbandonCall(w: World, r: Req, q: Req)
    requires r in w.calls && q in w.calls && CallOk(w, q) && CallOk(w, r)
    requires w.calls[r].phase == Asked && w.calls[r].at == w.mux.conn && w.mux.conn.Some?
    requires Holds(w.mux, w.calls[r].reply, r)
    ensures CallOk(Abandoning(w, r), q)
  {
  }

  lemma AbandonSlot(w: World, r: Req, k: MsgType)
    requires r in w.calls && k in w.mux.pending && SlotOk(w, k)
    requires w.calls[r].phase == Asked && w.calls[r].at == w.mux.conn && w.mux.conn.Some?
    requires Holds(w.mux, w.calls[r].reply, r)
    ensures SlotOk(Abandoning(w, r), k)
  {
  }

  lemma AbandonHeldKeeps(w: World, r: Req)
    requires Matching(w) && r in w.calls && w.calls[r].phase == Asked
    requires w.mux.conn.Some? && w.calls[r].at == w.mux.conn && Holds(w.mux, w.calls[r].reply, r)
    ensures Matching(Abandoning(w, r))
  {
    assert CallOk(w, r);
    var w' := Abandoning(w, r);
    forall q | q in w'.calls ensures CallOk(w', q) { assert CallOk(w, q); AbandonCall(w, r, q); }
    forall k | k in w'.mux.pending ensures SlotOk(w', k) { assert SlotOk(w, k); AbandonSlot(w, r, k); }
    forall k | k in w'.gates ensures GateOk(w', k) { assert GateOk(w, k); }
  }

  lemma AbandonKeeps(w: World, r: Req)
    requires Matching(w) && r in w.calls && w.calls[r].phase == Asked && w.calls[r].at.Some?
    ensures Matching(Abandoning(w, r))
  {
    if w.mux.conn == w.calls[r].at && Holds(w.mux, w.calls[r].reply, r) {
      AbandonHeldKeeps(w, r);
    } else {
      assert CallOk(w, r);
      FinishKeeps(w, r);
    }
  }

  lemma InstallKeeps(w: World, w': World, c: Conn)
    requires Matching(w) && InstallStep(w, w', c)
    ensures Matching(w')
  {
    forall q | q in w'.calls ensures CallOk(w', q) { assert CallOk(w, q); }
    forall k | k in w'.gates ensures GateOk(w', k) { assert GateOk(w, k); }
  }

  /** Steps that touch neither calls, gates, slots nor answers. */
  lemma FrameKeeps(w: World, w': World)
    requires Matching(w)
    requires w' == w.(mux := w'.mux, loops := w'.loops, noise := w'.noise, log := w'.log)
    requires w'.mux.conn == w.mux.conn && w'.mux.pending == w.mux.pending
    ensures Matching(w')
  {
    forall q | q in w'.calls ensures CallOk(w', q) { assert CallOk(w, q); }
    forall k | k in w'.mux.pending ensures SlotOk(w', k) { assert SlotOk(w, k); }
    forall k | k in w'.gates ensures GateOk(w', k) { assert GateOk(w, k); }
  }

  lemma AnswerKeeps(w: World, w': World, r: Req, f: Frame)
    requires Matching(w) && AnswerStep(w, w', r, f)
    ensures Matching(w')
  {
    forall q | q in w'.calls ensures CallOk(w', q) { assert CallOk(w, q); }
    forall k | k in w'.mux.pending ensures SlotOk(w', k) { assert SlotOk(w, k); }
    forall k | k in w'.gates ensures GateOk(w', k) { assert GateOk(w, k); }
  }

  /**
   * On the installed connection, the only slot that can match the answer of
   * `r` is the slot of `r`, for replies and for errors alike.
   */
  lemma OnlyOwnSlotMatches(w: World, r: Req, k: MsgType)
    requires Matching(w) && r in w.wire && r in w.calls && w.calls[r].at == w.mux.conn
    requires Matches(w.mux, w.wire[r], k)
    ensures k == w.calls[r].reply && w.mux.pending[k].result == r
  {
    assert CallOk(w, r) && SlotOk(w, k);
    assert CallOk(w, w.mux.pending[k].result);
  }

  lemma ClaimCall(w: World, v: World, r: Req, f: Frame, q: Req)
    requires r in w.calls && q in w.calls && CallOk(w, q) && CallOk(w, r)
    requires Holds(w.mux, w.calls[r].reply, r) && SlotOk(w, w.calls[r].reply)
    requires v == w.(wire := w.wire - {r}) && r in w.wire
    ensures CallOk(Claiming(v, w.calls[r].reply, Got(f, Some(r))), q)
  {
  }

  /** The heart of the matter: the frame goes to the request it answers, or to nobody. */
  lemma DispatchAnswerKeeps(w: World, w': World, r: Req)
    requires Matching(w) && DispatchAnswerStep(w, w', r)
    ensures Matching(w')
  {
    var v := w.(wire := w.wire - {r});
    var from, f := w.calls[r].at.value, w.wire[r];
    if Accepts(w.mux, from, w.loops[from]) && exists k :: Matches(w.mux, f, k) {
      var k :| Matches(w.mux, f, k) && w' == Claiming(v, k, Got(f, Some(r)));
      OnlyOwnSlotMatches(w, r, k);
      ClaimKeeps(w, r, f);
    } else {
      forall q | q in w'.calls ensures CallOk(w', q) { assert CallOk(w, q); }
      forall j | j in w'.mux.pending ensures SlotOk(w', j) { assert SlotOk(w, j); }
      forall j | j in w'.gates ensures GateOk(w', j) { assert GateOk(w, j); }
    }
  }

  lemma ClaimKeeps(w: World, r: Req, f: Frame)
    requires Matching(w) && r in w.calls && r in w.wire && Holds(w.mux, w.calls[r].reply, r)
    ensures Matching(Claiming(w.(wire := w.wire - {r}), w.calls[r].reply, Got(f, Some(r))))
  {
    var v := w.(wire := w.wire - {r});
    var w' := Claiming(v, w.calls[r].reply, Got(f, Some(r)));
    assert SlotOk(w, w.calls[r].reply) && CallOk(w, r);
    forall q | q in w'.calls ensures CallOk(w', q) { assert CallOk(w, q); ClaimCall(w, v, r, f, q); }
    forall j | j in w'.mux.pending ensures SlotOk(w', j) { assert SlotOk(w, j); }
    forall j | j in w'.gates ensures GateOk(w', j) { assert GateOk(w, j); }
  }

  lemma UnawaitedNeverMatches(w: World, f: Frame, k: MsgType)
    requires Matching(w) && Unawaited(w.table, f)
    ensures !Matches(w.mux, f, k)
  {
    if k in w.mux.pending {
      assert SlotOk(w, k);
      assert CallOk(w, w.mux.pending[k].result);
    }
  }

  lemma DispatchNoiseKeeps(w: World, w': World, n: Noise)
    requires Matching(w) && DispatchNoiseStep(w, w', n) && Harmless(w, DispatchNoiseBy(n))
    ensures Matching(w')
  {
    FrameKeeps(w, w');
  }

  lemma DeliverKeeps(w: World, w': World, r: Req)
    requires Matching(w) && DeliverStep(w, w', r)
    ensures Matching(w')
  {
    forall q | q in w'.calls ensures CallOk(w', q) { assert CallOk(w, q); }
    forall k | k in w'.mux.pending ensures SlotOk(w', k) { assert SlotOk(w, k); }
    forall k | k in w'.gates ensures GateOk(w', k) { assert GateOk(w, k); }
  }

  // ----- by kinds of steps ---------------------------------------------------------------------

  lemma EnterOrRegisterKeeps(w: World, w': World, s: Step)
    requires Matching(w) && NextBy(w, w', s) && (s.EnterGateBy? || s.RegisterBy?)
    ensures Matching(w')
  {
    if s.EnterGateBy? {
      EnterGateKeeps(w, w', s.r, s.send, s.drainable);
    } else if CanRegister(w.mux, s.expected, w.calls[s.r].reply) {
      RegisteringKeeps(w, s.r);
    } else {
      RefusingKeeps(w, s.r);
    }
  }

  lemma EncodeErrorKeeps(w: World, w': World, r: Req)
    requires Matching(w) && EncodeErrorStep(w, w', r)
    ensures Matching(w')
  {
    assert CallOk(w, r);
    FinishKeeps(w, r);
  }

  lemma CallersKeep(w: World, w': World, s: Step)
    requires Matching(w) && NextBy(w, w', s) && (s.WriteBy? || s.EncodeErrorBy? || s.ReceiveBy?)
    ensures Matching(w')
  {
    if s.WriteBy? {
      WrittenKeeps(w, s.r);
    } else if s.EncodeErrorBy? {
      EncodeErrorKeeps(w, w', s.r);
    } else {
      ReceiveKeeps(w, w', s.r);
    }
  }

  lemma WriteFailKeeps(w: World, w': World, r: Req, reached: bool)
    requires Matching(w) && WriteFailStep(w, w', r, reached)
    ensures Matching(w')
  {
    WrittenKeeps(w, r);
    var v := if reached then Written(w, r) else w;
    TerminatingKeeps(v, w.calls[r].at.value);
    FinishKeeps(Terminating(v, w.calls[r].at.value), r);
  }

  lemma TimeoutKeeps(w: World, w': World, r: Req)
    requires Matching(w) && TimeoutStep(w, w', r)
    ensures Matching(w')
  {
    var c := w.calls[r].at.value;
    if w.calls[r].drainable {
      AbandonKeeps(w, r);
    } else {
      TerminatingKeeps(w, c);
      FinishKeeps(Terminating(w, c), r);
    }
  }

  lemma WireKeeps(w: World, w': World, s: Step)
    requires Matching(w) && NextBy(w, w', s) && (s.AnswerBy? || s.NoiseBy? || s.DeliverBy? || s.LoopBy?)
    ensures Matching(w')
  {
    match s
    case AnswerBy(r, f) => AnswerKeeps(w, w', r, f);
    case NoiseBy(_) => FrameKeeps(w, w');
    case DeliverBy(r) => DeliverKeeps(w, w', r);
    case LoopBy(_) => FrameKeeps(w, w');
  }

  lemma ConnsKeep(w: World, w': World, s: Step)
    requires Matching(w) && NextBy(w, w', s) && ConnKind(s)
    ensures Matching(w')
  {
    match s
    case DrainBy(_) => DetachingKeeps(w, true);
    case TerminateBy(c) => TerminatingKeeps(w, c);
    case Disconnect => DetachingKeeps(w, false);
    case InstallBy(c) => InstallKeeps(w, w', c);
  }

  predicate CallerKind(s: Step) {
    s.EnterGateBy? || s.RegisterBy? || s.WriteBy? || s.EncodeErrorBy? || s.ReceiveBy?
  }

  predicate WireKind(s: Step) {
    s.AnswerBy? || s.NoiseBy? || s.DispatchAnswerBy? || s.DispatchNoiseBy? || s.DeliverBy? || s.LoopBy?
  }

  predicate ConnKind(s: Step) {
    s.DrainBy? || s.TerminateBy? || s.Disconnect? || s.InstallBy?
  }

  lemma StepKeepsMatching(w: World, w': World, s: Step)
    requires Matching(w) && NextBy(w, w', s) && Harmless(w, s)
    ensures Matching(w')
  {
    if s.EnterGateBy? || s.RegisterBy? {
      EnterOrRegisterKeeps(w, w', s);
    } else if CallerKind(s) {
      CallersKeep(w, w', s);
    } else if s.DispatchAnswerBy? {
      DispatchAnswerKeeps(w, w', s.r);
    } else if s.DispatchNoiseBy? {
      DispatchNoiseKeeps(w, w', s.n);
    } else if WireKind(s) {
      WireKeeps(w, w', s);
    } else if ConnKind(s) {
      ConnsKeep(w, w', s);
    } else if s.WriteFailBy? {
      WriteFailKeeps(w, w', s.r, s.reached);
    } else if s.TimeoutBy? {
      TimeoutKeeps(w, w', s.r);
    } else {
      FrameKeeps(w, w');
    }
  }

  // ----- what a draining slot waits for --------------------------------------------------------

  lemma EnterGateDrains(w: World, w': World, r: Req, send: MsgType, d: bool, k: MsgType)
    requires EnterGate(w, w', r, send, d) && k in w.mux.pending && DrainOk(w, k)
    ensures DrainOk(w', k)
  {
  }

  lemma RegisterDrains(w: World, r: Req, k: MsgType)
    requires r in w.calls && w.calls[r].phase == Gated && k in Registering(w, r).mux.pending
    requires w.calls[r].reply !in w.mux.pending
    requires k in w.mux.pending ==> DrainOk(w, k) && w.mux.pending[k].result != r
    requires k in w.gates ==> GateOk(w, k)
    ensures DrainOk(Registering(w, r), k)
  {
  }

  lemma RefuseDrains(w: World, r: Req, k: MsgType)
    requires r in w.calls && k in w.mux.pending && DrainOk(w, k) && w.mux.pending[k].result != r
    requires k in w.gates ==> GateOk(w, k)
    ensures DrainOk(Refusing(w, r), k)
  {
  }

  lemma EnterOrRegisterDrains(w: World, w': World, s: Step, k: MsgType)
    requires NextBy(w, w', s) && (s.EnterGateBy? || s.RegisterBy?) && k in w'.mux.pending
    requires k in w.mux.pending ==> DrainOk(w, k) && SlotOk(w, k) && w.mux.conn.Some?
    requires (k in w.gates ==> GateOk(w, k)) && (s.RegisterBy? ==> s.r in w.calls && CallOk(w, s.r))
    ensures DrainOk(w', k)
  {
    if s.EnterGateBy? {
      EnterGateDrains(w, w', s.r, s.send, s.drainable, k);
    } else if CanRegister(w.mux, s.expected, w.calls[s.r].reply) {
      RegisterDrains(w, s.r, k);
    } else {
      RefuseDrains(w, s.r, k);
    }
  }

  lemma WriteDrains(w: World, r: Req, k: MsgType)
    requires Matching(w) && r in w.calls && w.calls[r].phase == Registered && k in w.mux.pending && DrainOk(w, k)
    ensures DrainOk(Written(w, r), k)
  {
    if k in w.gates { assert GateOk(w, k); }
  }

  lemma FinishDrains(w: World, r: Req, k: MsgType)
    requires r in w.calls && w.calls[r].phase != Finished && k in w.mux.pending && DrainOk(w, k)
    requires k in Finish(w, r).mux.pending && SlotOk(w, k)
    requires k in w.gates ==> GateOk(w, k)
    ensures DrainOk(Finish(w, r), k)
  {
  }

  lemma AbandonDrains(w: World, r: Req, k: MsgType)
    requires r in w.calls && w.calls[r].phase == Asked && w.calls[r].at.Some? && k in w.mux.pending && DrainOk(w, k)
    requires k in Abandoning(w, r).mux.pending && SlotOk(w, k)
    requires k in w.gates ==> GateOk(w, k)
    ensures DrainOk(Abandoning(w, r), k)
  {
  }

  lemma ClaimDrains(w: World, r: Req, j: MsgType, f: Frame, k: MsgType)
    requires r in w.calls && j in w.mux.pending && w.calls[r].reply == j && k in w.mux.pending && k != j
    requires DrainOk(w, k) && SlotOk(w, k)
    ensures DrainOk(Claiming(w.(wire := w.wire - {r}), j, Got(f, Some(r))), k)
  {
  }

  /** An answer read on the installed connection meets its slot, so no slot outlives its answer. */
  lemma UnmetAnswerDrains(w: World, r: Req, k: MsgType)
    requires Matching(w) && LoopsOk(w) && r in w.wire && r in w.calls && w.calls[r].at.Some? &&
               w.calls[r].at.value in w.loops
    requires k in w.mux.pending && DrainOk(w, k)
    requires !(Accepts(w.mux, w.calls[r].at.value, w.loops[w.calls[r].at.value]) && exists j ::
               Matches(w.mux, w.wire[r], j))
    ensures DrainOk(w.(wire := w.wire - {r}), k)
  {
    if w.mux.pending[k].result == r { MeetsItsSlot(w, r, k); }
  }

  lemma AnswersKeepDrains(w: World, w': World, r: Req)
    requires Matching(w) && Draining(w) && DispatchAnswerStep(w, w', r)
    ensures Drains(w')
  {
    var from, f := w.calls[r].at.value, w.wire[r];
    if Accepts(w.mux, from, w.loops[from]) && exists j :: Matches(w.mux, f, j) {
      var j :| Matches(w.mux, f, j) && w' == Claiming(w.(wire := w.wire - {r}), j, Got(f, Some(r)));
      OnlyOwnSlotMatches(w, r, j);
      forall k | k in w'.mux.pending ensures DrainOk(w', k) {
        assert DrainOk(w, k) && SlotOk(w, k);
        ClaimDrains(w, r, j, f, k);
      }
    } else {
      forall k | k in w'.mux.pending ensures DrainOk(w', k) {
        assert DrainOk(w, k);
        UnmetAnswerDrains(w, r, k);
      }
    }
  }

  lemma MeetsItsSlot(w: World, r: Req, k: MsgType)
    requires Matching(w) && LoopsOk(w) && r in w.wire && r in w.calls && w.calls[r].at.Some? &&
               w.calls[r].at.value in w.loops
    requires k in w.mux.pending && w.mux.pending[k].result == r
    ensures Accepts(w.mux, w.calls[r].at.value, w.loops[w.calls[r].at.value]) && Matches(w.mux, w.wire[r], k)
  {
    assert CallOk(w, r) && SlotOk(w, k);
  }

  lemma CallerDrains(w: World, w': World, s: Step, k: MsgType)
    requires Matching(w) && NextBy(w, w', s) && CallerKind(s) && k in w'.mux.pending
    requires k in w.mux.pending ==> DrainOk(w, k) && SlotOk(w, k)
    requires k in w.gates ==> GateOk(w, k)
    ensures DrainOk(w', k)
  {
    if s.EnterGateBy? || s.RegisterBy? {
      assert s.RegisterBy? ==> CallOk(w, s.r);
      EnterOrRegisterDrains(w, w', s, k);
    } else if s.WriteBy? {
      WriteDrains(w, s.r, k);
    } else {
      assert CallOk(w, s.r);
      FinishDrains(w, s.r, k);
    }
  }

  lemma OthersKeepDrains(w: World, w': World, s: Step)
    requires NextBy(w, w', s) && Harmless(w, s) && Drains(w)
    requires w.mux.conn.None? ==> w.mux.pending == map[]
    requires !CallerKind(s) && !s.DispatchAnswerBy? && !s.TimeoutBy? && !s.WriteFailBy?
    ensures Drains(w')
  {
    forall k | k in w'.mux.pending ensures DrainOk(w', k) { assert k in w.mux.pending ==> DrainOk(w, k); }
  }

  lemma CallersKeepDrains(w: World, w': World, s: Step)
    requires Matching(w) && Drains(w) && NextBy(w, w', s) && CallerKind(s)
    ensures Drains(w')
  {
    forall k | k in w'.mux.pending ensures DrainOk(w', k) {
      assert k in w.mux.pending ==> DrainOk(w, k) && SlotOk(w, k);
      assert k in w.gates ==> GateOk(w, k);
      CallerDrains(w, w', s, k);
    }
  }

  lemma AbandonKeepsDrains(w: World, r: Req)
    requires Matching(w) && Drains(w) && r in w.calls && w.calls[r].phase == Asked && w.calls[r].at.Some?
    ensures Drains(Abandoning(w, r))
  {
    forall k | k in Abandoning(w, r).mux.pending ensures DrainOk(Abandoning(w, r), k) {
      assert DrainOk(w, k) && SlotOk(w, k);
      assert k in w.gates ==> GateOk(w, k);
      AbandonDrains(w, r, k);
    }
  }

  lemma TornOrFinishedDrains(w: World, r: Req)
    requires Matching(w) && Drains(w) && r in w.calls && w.calls[r].phase == Asked && w.calls[r].at.Some?
    ensures Drains(Finish(Terminating(w, w.calls[r].at.value), r))
  {
    var w' := Finish(Terminating(w, w.calls[r].at.value), r);
    if w.mux.conn != w.calls[r].at {
      forall k | k in w'.mux.pending ensures DrainOk(w', k) {
        assert DrainOk(w, k) && SlotOk(w, k);
        assert k in w.gates ==> GateOk(w, k);
        FinishDrains(w, r, k);
      }
    }
  }

  lemma TimeoutKeepsDrains(w: World, w': World, r: Req)
    requires Matching(w) && Drains(w) && TimeoutStep(w, w', r)
    ensures Drains(w')
  {
    if w.calls[r].drainable { AbandonKeepsDrains(w, r); } else { TornOrFinishedDrains(w, r); }
  }

  lemma WriteFailKeepsDrains(w: World, w': World, r: Req, reached: bool)
    requires Matching(w) && Drains(w) && WriteFailStep(w, w', r, reached)
    ensures Drains(w')
  {
    forall k | k in w'.mux.pending ensures DrainOk(w', k) {
      assert DrainOk(w, k) && SlotOk(w, k);
      assert k in w.gates ==> GateOk(w, k);
      WriteFailDrains(w, w', r, reached, k);
    }
  }

  lemma StepKeepsDraining(w: World, w': World, s: Step)
    requires Inv(w) && NextBy(w, w', s) && Harmless(w, s)
    ensures Draining(w')
  {
    LoopsStay(w, w', s);
    if CallerKind(s) {
      CallersKeepDrains(w, w', s);
    } else if s.DispatchAnswerBy? {
      AnswersKeepDrains(w, w', s.r);
    } else if s.TimeoutBy? {
      TimeoutKeepsDrains(w, w', s.r);
    } else if s.WriteFailBy? {
      WriteFailKeepsDrains(w, w', s.r, s.reached);
    } else {
      OthersKeepDrains(w, w', s);
    }
  }

  lemma WriteFailDrains(w: World, w': World, r: Req, reached: bool, k: MsgType)
    requires Matching(w) && WriteFailStep(w, w', r, reached) && k in w'.mux.pending && k in w.mux.pending
    requires DrainOk(w, k) && SlotOk(w, k) && (k in w.gates ==> GateOk(w, k))
    ensures DrainOk(w', k)
  {
    if reached { WrittenDrains(w, r, k); }
    FinishDrains(if reached then Written(w, r) else w, r, k);
  }

  lemma WrittenDrains(w: World, r: Req, k: MsgType)
    requires Matching(w) && r in w.calls && w.calls[r].phase == Registered && k in w.mux.pending && DrainOk(w, k)
    ensures k in Written(w, r).mux.pending && DrainOk(Written(w, r), k) && SlotOk(Written(w, r), k)
    ensures k in Written(w, r).gates ==> GateOk(Written(w, r), k)
  {
    WriteDrains(w, r, k);
    WrittenKeeps(w, r);
  }

  /** Steps other than on connections leave the connection, its epoch and the loops; or take it down. */
  predicate LeavesLoops(w: World, w': World) {
    w'.loops == w.loops && w'.used == w.used &&
        (w'.mux.conn.None? || (w'.mux.conn == w.mux.conn && w'.mux.epoch == w.mux.epoch))
  }

  lemma CallersLeaveLoops(w: World, w': World, s: Step)
    requires NextBy(w, w', s) && (CallerKind(s) || s.TimeoutBy? || s.WriteFailBy?)
    ensures LeavesLoops(w, w')
  {
    if s.TimeoutBy? {
      TimeoutLeavesLoops(w, w', s.r);
    } else if s.WriteFailBy? {
      WriteFailLeavesLoops(w, w', s.r, s.reached);
    } else {
      CallLeavesLoops(w, w', s);
    }
  }

  lemma CallLeavesLoops(w: World, w': World, s: Step)
    requires NextBy(w, w', s) && CallerKind(s)
    ensures LeavesLoops(w, w')
  {
  }

  lemma AbandonLeavesLoops(w: World, r: Req)
    requires r in w.calls && w.calls[r].at.Some?
    ensures LeavesLoops(w, Abandoning(w, r)) && LeavesLoops(w, Finish(Terminating(w, w.calls[r].at.value), r))
  {
  }

  lemma TimeoutLeavesLoops(w: World, w': World, r: Req)
    requires TimeoutStep(w, w', r)
    ensures LeavesLoops(w, w')
  {
    AbandonLeavesLoops(w, r);
  }

  lemma TornLeavesLoops(w: World, c: Conn)
    ensures LeavesLoops(w, Terminating(w, c))
  {
  }

  lemma WriteFailLeavesLoops(w: World, w': World, r: Req, reached: bool)
    requires WriteFailStep(w, w', r, reached)
    ensures LeavesLoops(w, w')
  {
    TornLeavesLoops(if reached then Written(w, r) else w, w.calls[r].at.value);
  }

  lemma WireLeavesLoops(w: World, w': World, s: Step)
    requires NextBy(w, w', s) && WireKind(s) && !s.LoopBy?
    ensures LeavesLoops(w, w')
  {
  }

  lemma LoopsStay(w: World, w': World, s: Step)
    requires LoopsOk(w) && (w.mux.conn.Some? ==> w.mux.conn.value in w.used) && NextBy(w, w', s)
    ensures LoopsOk(w')
  {
    if CallerKind(s) || s.TimeoutBy? || s.WriteFailBy? {
      CallersLeaveLoops(w, w', s);
    } else if WireKind(s) {
      if !s.LoopBy? { WireLeavesLoops(w, w', s); }
    }
  }

  lemma StepKeepsInv(w: World, w': World, s: Step)
    requires Inv(w) && NextBy(w, w', s) && Harmless(w, s)
    ensures Inv(w')
  {
    StepKeepsMatching(w, w', s);
    StepKeepsDraining(w, w', s);
  }

  lemma {:induction false} RunsKeepInv(ws: seq<World>, steps: seq<Step>, i: nat)
    requires QuietRun(ws, steps) && i < |ws|
    ensures Inv(ws[i])
  {
    if i > 0 {
      RunsKeepInv(ws, steps, i - 1);
      assert NextBy(ws[i - 1], ws[i - 1 + 1], steps[i - 1]);
      StepKeepsInv(ws[i - 1], ws[i], steps[i - 1]);
    }
  }

  // ----- what every quiet run guarantees -------------------------------------------------------

  /** Any frame on its way to a waiter, or received by it, answers that waiter's own request. */
  lemma FramesAnswerTheirWaiter(ws: seq<World>, steps: seq<Step>, i: nat, r: Req)
    requires QuietRun(ws, steps) && i < |ws|
    ensures r in ws[i].claims ==> Own(r, ws[i].claims[r])
    ensures r in ws[i].inbox ==> Own(r, ws[i].inbox[r])
  {
    RunsKeepInv(ws, steps, i);
    if r in ws[i].calls { assert CallOk(ws[i], r); }
  }
}
