/**
 * The control connection's state and its critical sections (client/conn.go, client/files.go).
 *
 * A `Mux` is everything `connManager` guards with `mu` that matters for matching replies: the
 * installed connection, the connection epoch, one pending slot per reply type, and the registry of
 * data-port transfers with its epoch.  Each function below is one critical section; the class at the
 * end performs the same sections in place.
 */
module ConnManager {
  import opened Common

  type Conn = nat
  type MsgType = nat
  /** One `requestOn` call; it also names the call's private result channel. */
  type Req = nat
  type Token = nat

  datatype Slot = Slot(request: MsgType, reply: MsgType, result: Req, abandoned: bool)

  /** A registered data-port connection. `epoch` records the transfer epoch it was admitted under. */
  datatype Transfer = Transfer(frontendId: nat, epoch: nat)

  datatype Mux = Mux(
    conn: Option<Conn>,
    epoch: nat,
    pending: map<MsgType, Slot>,
    transferEpoch: nat,
    accepting: bool,
    transfers: map<Token, Transfer>,
    nextToken: Token)

  /** What the dispatcher can see of an incoming frame. Origin 0 means "no origin". */
  datatype Frame = Reply(mt: MsgType) | Error(origin: MsgType)

  /** A request may take the slot of its reply type only on the expected, installed connection. */
  predicate CanRegister(m: Mux, expected: Option<Conn>, reply: MsgType) {
    && m.conn.Some?
    && (expected.None? || m.conn == expected)
    && reply !in m.pending
  }

  function Register(m: Mux, send: MsgType, reply: MsgType, r: Req): Mux {
    m.(pending := m.pending[reply := Slot(send, reply, r, false)])
  }

  function Detach(m: Mux): Mux {
    Mux(None, m.epoch + 1, map[], m.transferEpoch + 1, false, map[], m.nextToken)
  }

  /** The result channels of all pending slots. */
  function Waiters(m: Mux): set<Req> {
    set k | k in m.pending :: m.pending[k].result
  }

  function Install(m: Mux, c: Conn): Mux {
    m.(conn := Some(c), epoch := m.epoch + 1, transferEpoch := m.transferEpoch + 1, accepting := true)
  }

  /** The slot of `reply` is still the one request `r` registered. */
  predicate Holds(m: Mux, reply: MsgType, r: Req) {
    reply in m.pending && m.pending[reply].result == r
  }

  function Abandon(m: Mux, c: Conn, reply: MsgType, r: Req): Mux {
    if m.conn == Some(c) && Holds(m, reply, r)
    then m.(pending := m.pending[reply := m.pending[reply].(abandoned := true)])
    else m
  }

  /** The drain timer acts only for its own slot, still abandoned, on its own connection. */
  predicate DrainFires(m: Mux, c: Conn, reply: MsgType, r: Req) {
    m.conn == Some(c) && Holds(m, reply, r) && m.pending[reply].abandoned
  }

  /** The deferred clean-up of `requestOn`. */
  function Cleanup(m: Mux, reply: MsgType, r: Req): Mux {
    if Holds(m, reply, r) && !m.pending[reply].abandoned then m.(pending := m.pending - {reply}) else m
  }

  /** A frame is dispatched only if its exact source connection and epoch are still installed. */
  predicate Accepts(m: Mux, c: Conn, epoch: nat) {
    m.conn == Some(c) && m.epoch == epoch
  }

  /** Slot `k` is one the dispatcher may claim for frame `f`. */
  predicate Matches(m: Mux, f: Frame, k: MsgType) {
    && k in m.pending
    && match f
       case Reply(mt) => k == mt
       case Error(origin) => origin != 0 && m.pending[k].request == origin
  }

  function Claim(m: Mux, k: MsgType): Mux {
    m.(pending := m.pending - {k})
  }

  predicate CanTrack(m: Mux, epoch: nat) {
    m.accepting && m.conn.Some? && m.transferEpoch == epoch
  }

  function Track(m: Mux, frontendId: nat): Mux {
    m.(nextToken := m.nextToken + 1, transfers := m.transfers[m.nextToken + 1 := Transfer(frontendId, m.transferEpoch)])
  }

  function Untrack(m: Mux, t: Token): Mux {
    m.(transfers := m.transfers - {t})
  }

  function CancelTransfers(m: Mux, frontendId: nat): Mux {
    m.(transfers := map t | t in m.transfers && m.transfers[t].frontendId != frontendId :: m.transfers[t])
  }

  /** `connManager`, one method per critical section under `mu`. */
  class Manager {
    var conn: Option<Conn>
    var epoch: nat
    var pending: map<MsgType, Slot>
    var transferEpoch: nat
    var accepting: bool
    var transfers: map<Token, Transfer>
    var nextToken: Token

    ghost function View(): Mux reads this {
      Mux(conn, epoch, pending, transferEpoch, accepting, transfers, nextToken)
    }

    constructor ()
      ensures View() == Mux(None, 0, map[], 0, false, map[], 0)
    {
      conn, epoch, pending, transferEpoch, accepting, transfers, nextToken := None, 0, map[], 0, false, map[], 0;
    }

    /** The first half of requestOn: take the reply type's slot, or report why not. */
    method RegisterRequest(expected: Option<Conn>, send: MsgType, reply: MsgType, r: Req)
      returns (on: Option<Conn>)
      modifies this
      ensures on.Some? <==> CanRegister(old(View()), expected, reply)
      ensures on.Some? ==> on == conn && View() == Register(old(View()), send, reply, r)
      ensures on.None? ==> View() == old(View())
    {
      if conn == None || (expected.Some? && conn != expected) {
        return None;
      }
      if reply in pending {
        return None;
      }
      pending := pending[reply := Slot(send, reply, r, false)];
      on := conn;
    }

    /** Clears the connection state and hands back what the caller must close and notify. */
    method DetachLocked() returns (was: Option<Conn>, waiters: seq<Req>, closing: set<Token>)
      modifies this
      ensures View() == Detach(old(View()))
      ensures was == old(conn)
      ensures forall r :: r in waiters <==> r in Waiters(old(View()))
      ensures |waiters| == |old(pending)|
      ensures closing == old(transfers).Keys
    {
      was := conn;
      waiters := [];
      var left := pending.Keys;
      while left != {}
        invariant left <= pending.Keys
        invariant pending == old(pending)
        invariant |waiters| + |left| == |pending|
        invariant forall r :: r in waiters <==> exists k :: k in pending && k !in left && pending[k].result == r
      {
        var k :| k in left;
        waiters := waiters + [pending[k].result];
        left := left - {k};
      }
      closing := transfers.Keys;
      pending, conn, epoch := map[], None, epoch + 1;
      accepting, transferEpoch, transfers := false, transferEpoch + 1, map[];
    }

    /** Detaches only the exact active transport; a stale loop changes nothing. */
    method TerminateConn(c: Conn) returns (owned: bool, waiters: seq<Req>, closing: set<Token>)
      modifies this
      ensures owned <==> old(conn) == Some(c)
      ensures View() == if owned then Detach(old(View())) else old(View())
      ensures owned ==> (forall r :: r in waiters <==> r in Waiters(old(View()))) && closing == old(transfers).Keys
      ensures !owned ==> waiters == [] && closing == {}
    {
      if conn != Some(c) {
        return false, [], {};
      }
      var was;
      was, waiters, closing := DetachLocked();
      owned := true;
    }

    /** The install block of connectWith. */
    method InstallConn(c: Conn)
      modifies this
      ensures View() == Install(old(View()), c)
    {
      conn, epoch, transferEpoch, accepting := Some(c), epoch + 1, transferEpoch + 1, true;
    }

    method AbandonRequest(c: Conn, reply: MsgType, r: Req)
      modifies this
      ensures View() == Abandon(old(View()), c, reply, r)
    {
      if conn != Some(c) || reply !in pending || pending[reply].result != r {
        return;
      }
      pending := pending[reply := pending[reply].(abandoned := true)];
    }

    /** The drain timer's callback. */
    method DrainTimer(c: Conn, reply: MsgType, r: Req) returns (fired: bool, waiters: seq<Req>)
      modifies this
      ensures fired <==> DrainFires(old(View()), c, reply, r)
      ensures View() == if fired then Detach(old(View())) else old(View())
      ensures fired ==> forall q :: q in waiters <==> q in Waiters(old(View()))
    {
      if conn != Some(c) || reply !in pending || pending[reply].result != r || !pending[reply].abandoned {
        return false, [];
      }
      var was, closing;
      was, waiters, closing := DetachLocked();
      fired := true;
    }

    method CleanupRequest(reply: MsgType, r: Req)
      modifies this
      ensures View() == Cleanup(old(View()), reply, r)
    {
      if reply in pending && pending[reply].result == r && !pending[reply].abandoned {
        pending := pending - {reply};
      }
    }

    /**
     * Validates the frame's source and claims a matching slot in one critical section. Error frames
     * search the slots in the map's own, unspecified order.
     */
    method DispatchAccepted(c: Conn, e: nat, f: Frame) returns (claimed: Option<Slot>)
      modifies this
      ensures claimed.Some? <==> Accepts(old(View()), c, e) && exists k :: Matches(old(View()), f, k)
      ensures claimed.None? ==> View() == old(View())
      ensures claimed.Some? ==>
        exists k :: Matches(old(View()), f, k) && claimed.value == old(pending)[k] && View() == Claim(old(View()), k)
    {
      if conn != Some(c) || epoch != e {
        return None;
      }
      match f
      case Reply(mt) =>
        if mt in pending {
          assert Matches(View(), f, mt);
          claimed := Some(pending[mt]);
          pending := pending - {mt};
        } else {
          claimed := None;
        }
      case Error(origin) =>
        claimed := None;
        if origin == 0 {
          return;
        }
        var left := pending.Keys;
        while left != {}
          invariant left <= pending.Keys
          invariant pending == old(pending) && View() == old(View()) && claimed.None?
          invariant forall k :: k in pending && k !in left ==> pending[k].request != origin
        {
          var k :| k in left;
          if pending[k].request == origin {
            assert Matches(View(), f, k);
            claimed := Some(pending[k]);
            pending := pending - {k};
            return;
          }
          left := left - {k};
        }
    }

    method TrackTransferAt(frontendId: nat, e: nat) returns (token: Option<Token>)
      modifies this
      ensures token.Some? <==> CanTrack(old(View()), e)
      ensures token.Some? ==> token == Some(old(nextToken) + 1) && View() == Track(old(View()), frontendId)
      ensures token.None? ==> View() == old(View())
    {
      if !accepting || conn.None? || transferEpoch != e {
        return None;
      }
      nextToken := nextToken + 1;
      transfers := transfers[nextToken := Transfer(frontendId, transferEpoch)];
      token := Some(nextToken);
    }

    method UntrackTransfer(t: Token)
      modifies this
      ensures View() == Untrack(old(View()), t)
    {
      transfers := transfers - {t};
    }

    /** Removes every transfer with the frontend's frontendId, however many there are. */
    method Cancel(frontendId: nat) returns (closing: set<Token>)
      modifies this
      ensures View() == CancelTransfers(old(View()), frontendId)
      ensures closing == old(transfers).Keys - transfers.Keys
    {
      closing := {};
      var left := transfers.Keys;
      while left != {}
        invariant left <= old(transfers).Keys
        invariant transfers == map t | t in old(transfers) &&
                    (t in left || old(transfers)[t].frontendId != frontendId) :: old(transfers)[t]
        invariant closing == old(transfers).Keys - transfers.Keys
        invariant View() == old(View()).(transfers := transfers)
      {
        var t :| t in left;
        if transfers[t].frontendId == frontendId {
          transfers := transfers - {t};
          closing := closing + {t};
        }
        left := left - {t};
      }
    }
  }
}
