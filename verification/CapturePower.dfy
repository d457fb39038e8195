/**
 * The request that keeps display and system awake while a screen is captured: leases with
 * deadlines, one native handle held for all of them, the power epoch they belong to and the
 * timer that ends them. Times, native outcomes and lease names are parameters.
 */
module CapturePower {
  import opened Common
  import opened PowerEvents

  const LEASE_TTL := 120
  const MAX_LEASES := 16

  type Time = int

  /** The power epoch is recorded beside the deadline; no decision depends on it. */
  datatype Lease = Lease(deadline: Time, power: nat)
  /** A timer remembers the epoch it was armed in. */
  datatype Timer = Timer(epoch: nat, at: Time)

  /** `made` and `ended` are the native handles created, and closed in order. Handle 0 is none. */
  datatype Power = Power(
    leases: map<string, Lease>,
    handle: nat,
    closed: bool,
    epoch: nat,
    armed: Option<Timer>,
    seen: Option<nat>,
    made: set<nat>,
    ended: seq<nat>)

  /** What asking the native backend for a handle leads to. */
  datatype Creation = Refused | Unusable(handle: nat) | Usable(handle: nat)

  function CloseHandle(p: Power): Power {
    if p.handle == 0 then p else p.(handle := 0, ended := p.ended + [p.handle])
  }

  function Dropped(p: Power): Power { CloseHandle(p.(leases := map[])) }

  function Live(leases: map<string, Lease>, now: Time): map<string, Lease> {
    map id | id in leases && now < leases[id].deadline :: leases[id]
  }

  function Expire(p: Power, now: Time): Power {
    var q := p.(leases := Live(p.leases, now));
    if q.leases == map[] then CloseHandle(q) else q
  }

  predicate IsFirst(leases: map<string, Lease>, first: Time) {
    (exists id :: id in leases && leases[id].deadline == first) && forall id :: id in leases ==>
        first <= leases[id].deadline
  }

  lemma {:induction false} FirstExists(leases: map<string, Lease>)
    requires leases != map[]
    ensures exists first :: IsFirst(leases, first)
    decreases |leases|
  {
    var id :| id in leases;
    var rest := leases - {id};
    var mine := leases[id].deadline;
    assert forall o :: o in leases ==> o == id || o in rest;
    if rest == map[] {
      assert IsFirst(leases, mine);
    } else {
      assert |rest| < |leases| by { assert rest.Keys == leases.Keys - {id}; }
      FirstExists(rest);
      var f :| IsFirst(rest, f);
      var least := if mine < f then mine else f;
      if least == mine { assert leases[id].deadline == least; } else {
        var o :| o in rest && rest[o].deadline == f;
        assert leases[o].deadline == least;
      }
      assert IsFirst(leases, least);
    }
  }

  /** The earliest deadline. */
  ghost function First(leases: map<string, Lease>): (first: Time)
    requires leases != map[]
    ensures IsFirst(leases, first)
  {
    FirstExists(leases);
    var first :| IsFirst(leases, first);
    first
  }

  ghost function Due(leases: map<string, Lease>, now: Time): Time
    requires leases != map[]
  {
    if First(leases) < now then now else First(leases)
  }

  ghost function Arm(p: Power, now: Time): Power {
    var q := p.(epoch := p.epoch + 1);
    q.(armed := if p.closed || p.leases == map[] then None else Some(Timer(q.epoch, Due(p.leases, now))))
  }

  /** Taking note of the power state; true means an error for the caller. `closes`: closing the handle succeeds. */
  function Synchronize(p: Power, state: Native, closes: bool): (Power, bool) {
    if state.Unknown? then (Dropped(p), true)
    else if p.seen.Some? && p.seen.value != state.epoch
    then (Dropped(p).(seen := Some(state.epoch)), state.blocked || (p.handle != 0 && !closes))
    else (p.(seen := Some(state.epoch)), state.blocked)
  }

  /** Everything outside the manager that one acquisition meets, in order. */
  datatype Outside = Outside(
    expireAt: Time, firstClose: bool, before: Native, secondClose: bool, creation: Creation,
    after: Native, thirdClose: bool, id: string, grantAt: Time, armAt: Time)

  function WithHandle(p: Power, creation: Creation): (Power, bool) {
    if p.handle != 0 then (p, true)
    else match creation
      case Refused => (p, false)
      case Unusable(h) => (p.(made := p.made + {h}, ended := p.ended + [h]), false)
      case Usable(h) => (p.(made := p.made + {h}, handle := h), true)
  }

  function Grant(p: Power, id: string, now: Time): Power
    requires p.seen.Some?
  {
    p.(leases := p.leases[id := Lease(now + LEASE_TTL, p.seen.value)])
  }

  /** With a handle at hand: a second look at the power state, then the lease. */
  function Settle(c: Power, o: Outside): (Power, bool) {
    var (d, worse) := Synchronize(c, o.after, o.thirdClose);
    if worse || d.seen != c.seen || d.handle == 0 || d.seen.None? then (d, false)
    else (Grant(d, o.id, o.grantAt), true)
  }

  function Lay(b: Power, o: Outside): (Power, bool) {
    if |b.leases| >= MAX_LEASES then (b, false)
    else
      var (c, ready) := WithHandle(b, o.creation);
      if ready then Settle(c, o) else (c, false)
  }

  /** Closing the request of the last expired lease failed. */
  predicate Stuck(p: Power, o: Outside) { p.handle != 0 && Expire(p, o.expireAt).handle == 0 && !o.firstClose }

  /** An acquisition up to arming the timer; true means a lease was granted. */
  function Try(p: Power, o: Outside): (Power, bool) {
    var a := Expire(p, o.expireAt);
    if Stuck(p, o) then (a, false)
    else
      var (b, bad) := Synchronize(a, o.before, o.secondClose);
      if bad then (b, false) else Lay(b, o)
  }

  ghost function Acquire(p: Power, o: Outside): (Power, bool) {
    if p.closed then (p, false)
    else
      var (q, granted) := Try(p, o);
      (Arm(q, o.armAt), granted)
  }

  datatype Renewal = Renewal(expireAt: Time, state: Native, closes: bool, grantAt: Time, armAt: Time)

  function Checked(p: Power, r: Renewal): Power {
    var a := Expire(p, r.expireAt);
    if a.leases == map[] then a else Synchronize(a, r.state, r.closes).0
  }

  ghost function Refresh(p: Power, id: string, r: Renewal): (Power, bool) {
    if p.closed then (p, false)
    else
      var b := Checked(p, r);
      if id !in b.leases || b.seen.None? then (Arm(b, r.armAt), false)
      else (Arm(Grant(b, id, r.grantAt), r.armAt), true)
  }

  ghost function Release(p: Power, id: string, expireAt: Time, armAt: Time): Power {
    if p.closed then p else Arm(Expire(p.(leases := p.leases - {id}), expireAt), armAt)
  }

  function Shutdown(p: Power): Power {
    if p.closed then p else Dropped(p.(closed := true, epoch := p.epoch + 1, armed := None))
  }

  /** A timer's callback; one from an earlier arming finds its epoch passed. */
  ghost function Fire(p: Power, epoch: nat, expireAt: Time, armAt: Time): Power {
    if p.closed || epoch != p.epoch then p else Arm(Expire(p, expireAt), armAt)
  }

  class DisplayCapturePower {
    var leases: map<string, Lease>
    var handle: nat
    var closed: bool
    var epoch: nat
    var armed: Option<Timer>
    var seen: Option<nat>
    ghost var made: set<nat>
    ghost var ended: seq<nat>

    ghost function View(): Power
      reads this
    {
      Power(leases, handle, closed, epoch, armed, seen, made, ended)
    }

    constructor ()
      ensures View() == Power(map[], 0, false, 0, None, None, {}, [])
    {
      leases, handle, closed, epoch, armed, seen := map[], 0, false, 0, None, None;
      made, ended := {}, [];
    }

    /** `failed`: the native close reported an error; the handle is given up all the same. */
    method CloseHandleLocked(closes: bool) returns (failed: bool)
      modifies this`handle, this`ended
      ensures View() == CloseHandle(old(View()))
      ensures failed <==> old(handle) != 0 && !closes
    {
      var h := handle;
      handle := 0;
      if h == 0 { return false; }
      ended := ended + [h];
      return !closes;
    }

    method DropExpired(now: Time)
      modifies this`leases
      ensures leases == Live(old(leases), now)
    {
      ghost var was := leases;
      var todo := leases.Keys;
      while todo != {}
        invariant todo <= leases.Keys <= was.Keys
        invariant forall id :: id in was ==> (id in leases <==> id in todo || now < was[id].deadline)
        invariant forall id :: id in leases ==> leases[id] == was[id]
        decreases |todo|
      {
        var id :| id in todo;
        if !(now < leases[id].deadline) { leases := leases - {id}; }
        todo := todo - {id};
      }
    }

    method ExpireLocked(now: Time, closes: bool) returns (failed: bool)
      modifies this`leases, this`handle, this`ended
      ensures View() == Expire(old(View()), now)
      ensures failed <==> old(handle) != 0 && handle == 0 && !closes
    {
      DropExpired(now);
      failed := false;
      if |leases| == 0 { failed := CloseHandleLocked(closes); }
    }

    method FirstDeadline() returns (first: Time)
      requires leases != map[]
      ensures first == First(leases)
    {
      var todo := leases.Keys;
      var some :| some in todo;
      first := leases[some].deadline;
      todo := todo - {some};
      while todo != {}
        invariant todo <= leases.Keys && some !in todo
        invariant exists id :: id in leases && leases[id].deadline == first
        invariant forall id :: id in leases && id !in todo ==> first <= leases[id].deadline
        decreases |todo|
      {
        var id :| id in todo;
        if leases[id].deadline < first { first := leases[id].deadline; }
        todo := todo - {id};
      }
      assert IsFirst(leases, first);
    }

    method ArmLocked(now: Time)
      modifies this`epoch, this`armed
      ensures View() == Arm(old(View()), now)
    {
      epoch := epoch + 1;
      armed := None;
      if closed || |leases| == 0 { return; }
      var first := FirstDeadline();
      var delay := first - now;
      if delay < 0 { delay := 0; }
      armed := Some(Timer(epoch, now + delay));
    }

    method SynchronizeLocked(state: Native, closes: bool) returns (failed: bool)
      modifies this`leases, this`handle, this`ended, this`seen
      ensures (View(), failed) == Synchronize(old(View()), state, closes)
    {
      if state.Unknown? {
        leases := map[];
        var _ := CloseHandleLocked(closes);
        return true;
      }
      failed := false;
      if seen.Some? && state.epoch != seen.value {
        leases := map[];
        failed := CloseHandleLocked(closes);
      }
      seen := Some(state.epoch);
      failed := failed || state.blocked;
    }

    /** The handle for the leases; false means there is none. */
    method EnsureHandle(creation: Creation) returns (ready: bool)
      modifies this`handle, this`made, this`ended
      ensures (View(), ready) == WithHandle(old(View()), creation)
    {
      if handle != 0 { return true; }
      match creation
      case Refused => return false;
      case Unusable(h) =>
        made, ended := made + {h}, ended + [h];
        return false;
      case Usable(h) =>
        made, handle := made + {h}, h;
        return true;
    }

    method TryAcquire(o: Outside) returns (granted: bool)
      modifies this`leases, this`handle, this`made, this`ended, this`seen
      ensures (View(), granted) == Try(old(View()), o)
    {
      var failed := ExpireLocked(o.expireAt, o.firstClose);
      if failed { return false; }
      failed := SynchronizeLocked(o.before, o.secondClose);
      if failed || |leases| >= MAX_LEASES { return false; }
      var ready := EnsureHandle(o.creation);
      if !ready { return false; }
      var acquired := seen;
      failed := SynchronizeLocked(o.after, o.thirdClose);
      if failed || seen != acquired || handle == 0 { return false; }
      leases := leases[o.id := Lease(o.grantAt + LEASE_TTL, seen.value)];
      return true;
    }

    method AcquireLease(o: Outside) returns (granted: bool)
      modifies this
      ensures (View(), granted) == Acquire(old(View()), o)
    {
      if closed { return false; }
      granted := TryAcquire(o);
      ArmLocked(o.armAt);
    }

    method RefreshLease(id: string, r: Renewal) returns (renewed: bool)
      modifies this
      ensures (View(), renewed) == Refresh(old(View()), id, r)
    {
      if closed { return false; }
      var _ := ExpireLocked(r.expireAt, r.closes);
      if |leases| > 0 { var _ := SynchronizeLocked(r.state, r.closes); }
      if id !in leases {
        ArmLocked(r.armAt);
        return false;
      }
      leases := leases[id := Lease(r.grantAt + LEASE_TTL, seen.value)];
      ArmLocked(r.armAt);
      return true;
    }

    method ReleaseLease(id: string, expireAt: Time, armAt: Time, closes: bool)
      modifies this
      ensures View() == Release(old(View()), id, expireAt, armAt)
    {
      if closed { return; }
      leases := leases - {id};
      var _ := ExpireLocked(expireAt, closes);
      ArmLocked(armAt);
    }

    method ShutDown(closes: bool)
      modifies this
      ensures View() == Shutdown(old(View()))
    {
      if closed { return; }
      closed, epoch, armed, leases := true, epoch + 1, None, map[];
      var _ := CloseHandleLocked(closes);
    }

    method TimerFires(armedIn: nat, expireAt: Time, armAt: Time, closes: bool)
      modifies this
      ensures View() == Fire(old(View()), armedIn, expireAt, armAt)
    {
      if closed || armedIn != epoch { return; }
      var _ := ExpireLocked(expireAt, closes);
      ArmLocked(armAt);
    }
  }

  /* What holds between calls. */

  /** The request is held exactly while some lease is live. */
  predicate Held(p: Power) { p.handle != 0 <==> p.leases != map[] }

  /** Few leases, all of the power epoch last seen. */
  predicate LeasesOk(p: Power) {
    |p.leases| <= MAX_LEASES && forall id :: id in p.leases ==> p.seen == Some(p.leases[id].power)
  }

  /** Every handle made was closed once, save the one held. */
  predicate HandlesOk(p: Power) {
    && 0 !in p.made
    && (p.handle != 0 ==> p.handle in p.made && p.handle !in p.ended)
    && (forall i :: 0 <= i < |p.ended| ==> p.ended[i] in p.made)
    && (forall i, j :: 0 <= i < j < |p.ended| ==> p.ended[i] != p.ended[j])
    && (forall h :: h in p.made ==> h in p.ended || h == p.handle)
  }

  /** One current timer, for the earliest deadline, exactly while there are leases. */
  ghost predicate TimerOk(p: Power, clock: Time) {
    if p.closed || p.leases == map[] then p.armed == None
    else
      && p.armed.Some? && p.armed.value.epoch == p.epoch
      && First(p.leases) <= p.armed.value.at
      && (p.armed.value.at == First(p.leases) || p.armed.value.at <= clock)
  }

  datatype World = World(power: Power, clock: Time)

  ghost predicate Inv(w: World) {
    && Held(w.power) && LeasesOk(w.power) && HandlesOk(w.power) && TimerOk(w.power, w.clock)
    && (w.power.closed ==> w.power.leases == map[])
  }

  datatype Step =
    | Acquiring(o: Outside)
    | Refreshing(id: string, r: Renewal)
    | Releasing(id: string, expireAt: Time, armAt: Time)
    | Firing(epoch: nat, expireAt: Time, armAt: Time)
    | Stopping(at: Time)

  predicate NewHandle(c: Creation, made: set<nat>) { c.Refused? || (c.handle != 0 && c.handle !in made) }

  ghost predicate Enabled(w: World, s: Step, events: seq<PowerEvent>) {
    match s
    case Acquiring(o) =>
      && w.clock <= o.expireAt <= o.grantAt <= o.armAt && Read(o.before, events) && Read(o.after, events)
      && NewHandle(o.creation, w.power.made) && o.id !in w.power.leases
    case Refreshing(_, r) => w.clock <= r.expireAt <= r.grantAt <= r.armAt && Read(r.state, events)
    case Releasing(_, expireAt, armAt) => w.clock <= expireAt <= armAt
    case Firing(epoch, expireAt, armAt) =>
      w.clock <= expireAt <= armAt &&
          (epoch == w.power.epoch ==> w.power.armed.Some? && w.power.armed.value.at <= expireAt)
    case Stopping(at) => w.clock <= at
  }

  ghost function Next(w: World, s: Step): World {
    match s
    case Acquiring(o) => World(Acquire(w.power, o).0, o.armAt)
    case Refreshing(id, r) => World(Refresh(w.power, id, r).0, r.armAt)
    case Releasing(id, expireAt, armAt) => World(Release(w.power, id, expireAt, armAt), armAt)
    case Firing(epoch, expireAt, armAt) => World(Fire(w.power, epoch, expireAt, armAt), armAt)
    case Stopping(at) => World(Shutdown(w.power), at)
  }

  predicate Sound(p: Power) { Held(p) && LeasesOk(p) && HandlesOk(p) }

  lemma CloseKeeps(p: Power)
    requires HandlesOk(p)
    ensures HandlesOk(CloseHandle(p)) && CloseHandle(p).handle == 0
  {
  }

  lemma DropKeeps(p: Power)
    requires HandlesOk(p)
    ensures Sound(Dropped(p)) && Dropped(p).leases == map[]
  {
    CloseKeeps(p.(leases := map[]));
  }

  lemma FewerLeases(a: map<string, Lease>, b: map<string, Lease>)
    requires a.Keys <= b.Keys
    ensures |a| <= |b|
  {
    SubsetSize(a.Keys, b.Keys);
  }

  lemma {:induction false} SubsetSize(a: set<string>, b: set<string>)
    requires a <= b
    ensures |a| <= |b|
  {
    if a != {} {
      var x :| x in a;
      SubsetSize(a - {x}, b - {x});
    }
  }

  lemma ExpireKeeps(p: Power, now: Time)
    requires HandlesOk(p) && LeasesOk(p) && (p.handle == 0 ==> p.leases == map[])
    ensures Sound(Expire(p, now))
    ensures Expire(p, now).leases == Live(p.leases, now) && Expire(p, now).made == p.made &&
              Expire(p, now).seen == p.seen
  {
    var q := p.(leases := Live(p.leases, now));
    FewerLeases(q.leases, p.leases);
    CloseKeeps(q);
  }

  lemma SynchronizeKeeps(p: Power, state: Native, closes: bool)
    requires Sound(p)
    ensures Sound(Synchronize(p, state, closes).0) && Synchronize(p, state, closes).0.made == p.made
  {
    DropKeeps(p);
  }

  /** Making a handle, or failing to, leaves every handle accounted for. */
  lemma HandleKeeps(p: Power, c: Creation)
    requires Sound(p) && NewHandle(c, p.made)
    ensures HandlesOk(WithHandle(p, c).0) && LeasesOk(WithHandle(p, c).0)
    ensures if WithHandle(p, c).1 then WithHandle(p, c).0.handle != 0 else Sound(WithHandle(p, c).0)
    ensures WithHandle(p, c).0.leases == p.leases && WithHandle(p, c).0.seen == p.seen
  {
    var q := WithHandle(p, c).0;
    if c.Unusable? && p.handle == 0 {
      assert c.handle !in p.ended;
      forall h | h in q.made ensures h in q.ended || h == q.handle {
        if h == c.handle { assert q.ended[|p.ended|] == h; }
      }
    }
  }

  lemma GrantKeeps(p: Power, id: string, now: Time)
    requires HandlesOk(p) && LeasesOk(p) && p.seen.Some? && p.handle != 0 && (id in p.leases || |p.leases| < MAX_LEASES)
    ensures Sound(Grant(p, id, now))
  {
    var q := Grant(p, id, now);
    assert q.leases.Keys == p.leases.Keys + {id};
    assert id in q.leases;
  }

  /** The second look: a request held for nobody, exactly when the same epoch is now blocked. */
  lemma SettleKeeps(c: Power, o: Outside)
    requires HandlesOk(c) && LeasesOk(c) && c.handle != 0 && c.seen.Some? && |c.leases| < MAX_LEASES
    ensures var q := Settle(c, o).0;
            && (q.handle != 0 && q.leases == map[] <==> c.leases == map[] && o.after == PowerState(c.seen.value, true))
            && (!(q.handle != 0 && q.leases == map[]) ==> Sound(q)) && q.closed == c.closed
  {
    DropKeeps(c);
    var (d, worse) := Synchronize(c, o.after, o.thirdClose);
    if !(worse || d.seen != c.seen || d.handle == 0) { GrantKeeps(d, o.id, o.grantAt); }
  }

  lemma LayKeeps(b: Power, o: Outside)
    requires Sound(b) && b.seen.Some? && NewHandle(o.creation, b.made)
    ensures var q := Lay(b, o).0;
            && (q.handle != 0 && q.leases == map[] <==>
                   b.leases == map[] && o.creation.Usable? && o.after == PowerState(b.seen.value, true))
            && (!(q.handle != 0 && q.leases == map[]) ==> Sound(q)) && q.closed == b.closed
  {
    if |b.leases| < MAX_LEASES {
      HandleKeeps(b, o.creation);
      var (c, ready) := WithHandle(b, o.creation);
      if ready { SettleKeeps(c, o); }
    }
  }

  /**
   * An acquisition leaves the request held for nobody exactly when it made the handle itself and
   * the second look reports the epoch unchanged but now blocked; otherwise all is in order.
   */
  lemma HeldForNobodyIff(p: Power, o: Outside)
    requires Sound(p) && NewHandle(o.creation, p.made)
    ensures var q := Try(p, o).0;
            var (b, bad) := Synchronize(Expire(p, o.expireAt), o.before, o.secondClose);
            && (q.handle != 0 && q.leases == map[] <==>
                  !Stuck(p, o) && !bad && b.leases == map[] && o.creation.Usable? &&
                      o.after == PowerState(o.before.epoch, true))
            && (!(q.handle != 0 && q.leases == map[]) ==> Sound(q)) && q.closed == p.closed
  {
    var a := Expire(p, o.expireAt);
    ExpireKeeps(p, o.expireAt);
    SynchronizeKeeps(a, o.before, o.secondClose);
    var (b, bad) := Synchronize(a, o.before, o.secondClose);
    if !bad { LayKeeps(b, o); }
  }

  /** So it never does when "blocked" changes only with the power epoch. */
  lemma TryKeeps(p: Power, o: Outside, blocked: nat -> bool)
    requires Sound(p) && Steady(o.before, blocked) && Steady(o.after, blocked) && NewHandle(o.creation, p.made)
    ensures Sound(Try(p, o).0) && Try(p, o).0.closed == p.closed
  {
    HeldForNobodyIff(p, o);
  }

  lemma ArmKeeps(p: Power, now: Time)
    requires Sound(p) && (p.closed ==> p.leases == map[])
    ensures Inv(World(Arm(p, now), now))
  {
  }

  lemma CheckedKeeps(p: Power, r: Renewal)
    requires Sound(p)
    ensures Sound(Checked(p, r)) && Checked(p, r).closed == p.closed
    ensures Checked(p, r).leases != map[] ==> Checked(p, r).seen.Some?
  {
    ExpireKeeps(p, r.expireAt);
    SynchronizeKeeps(Expire(p, r.expireAt), r.state, r.closes);
  }

  lemma StepKeepsInv(w: World, s: Step, events: seq<PowerEvent>)
    requires Inv(w) && Enabled(w, s, events) && Moves(events) < GENERATIONS
    ensures Inv(Next(w, s))
  {
    var p := w.power;
    if !p.closed {
      match s
      case Acquiring(o) =>
        ReadsAreSteady(o.before, events);
        ReadsAreSteady(o.after, events);
        TryKeeps(p, o, BlockedIn(events));
        ArmKeeps(Try(p, o).0, o.armAt);
      case Refreshing(id, r) => RefreshKeeps(p, id, r);
      case Releasing(id, expireAt, armAt) => ReleaseKeeps(p, id, expireAt, armAt);
      case Firing(epoch, expireAt, armAt) =>
        ExpireKeeps(p, expireAt);
        ArmKeeps(Expire(p, expireAt), armAt);
      case Stopping(_) => DropKeeps(p.(closed := true, epoch := p.epoch + 1, armed := None));
    }
  }

  lemma RefreshKeeps(p: Power, id: string, r: Renewal)
    requires Sound(p) && !p.closed
    ensures Inv(World(Refresh(p, id, r).0, r.armAt))
  {
    var b := Checked(p, r);
    CheckedKeeps(p, r);
    if id in b.leases {
      GrantKeeps(b, id, r.grantAt);
      ArmKeeps(Grant(b, id, r.grantAt), r.armAt);
    } else {
      ArmKeeps(b, r.armAt);
    }
  }

  lemma ReleaseKeeps(p: Power, id: string, expireAt: Time, armAt: Time)
    requires Sound(p) && !p.closed
    ensures Inv(World(Release(p, id, expireAt, armAt), armAt))
  {
    var q := p.(leases := p.leases - {id});
    FewerLeases(q.leases, p.leases);
    ExpireKeeps(q, expireAt);
    ArmKeeps(Expire(q, expireAt), armAt);
  }

  /* Runs. */

  const NEW := Power(map[], 0, false, 0, None, None, {}, [])

  ghost predicate Run(ws: seq<World>, steps: seq<Step>, events: seq<PowerEvent>) {
    && |ws| == |steps| + 1 && ws[0].power == NEW && Moves(events) < GENERATIONS
    && forall i {:trigger steps[i]} :: 0 <= i < |steps| ==>
         Enabled(ws[i], steps[i], events) && ws[i + 1] == Next(ws[i], steps[i])
  }

  lemma {:induction false} RunsKeepInv(ws: seq<World>, steps: seq<Step>, events: seq<PowerEvent>, i: nat)
    requires Run(ws, steps, events) && i < |ws|
    ensures Inv(ws[i])
  {
    if i > 0 {
      RunsKeepInv(ws, steps, events, i - 1);
      assert ws[i - 1 + 1] == Next(ws[i - 1], steps[i - 1]);
      StepKeepsInv(ws[i - 1], steps[i - 1], events);
    }
  }

  /** After shutting down, every handle ever made has been closed, each exactly once. */
  lemma ShutdownClosesAll(ws: seq<World>, steps: seq<Step>, events: seq<PowerEvent>, i: nat, h: nat)
    requires Run(ws, steps, events) && i < |ws| && ws[i].power.closed && h in ws[i].power.made
    ensures multiset(ws[i].power.ended)[h] == 1
  {
    RunsKeepInv(ws, steps, events, i);
    OnceEach(ws[i].power.ended, h);
  }

  lemma {:induction false} OnceEach(s: seq<nat>, h: nat)
    requires h in s && forall i, j :: 0 <= i < j < |s| ==> s[i] != s[j]
    ensures multiset(s)[h] == 1
  {
    var k :| 0 <= k < |s| && s[k] == h;
    assert s == s[..k] + [h] + s[k + 1..];
    assert h !in multiset(s[..k]) && h !in multiset(s[k + 1..]);
  }

  /** A granted lease was acquired within one power epoch, the one reported before and after. */
  lemma GrantedInOneEpoch(p: Power, o: Outside)
    requires Acquire(p, o).1
    ensures o.before.PowerState? && o.after.PowerState? && o.before.epoch == o.after.epoch
    ensures o.id in Acquire(p, o).0.leases &&
              Acquire(p, o).0.leases[o.id] == Lease(o.grantAt + LEASE_TTL, o.after.epoch)
  {
  }

  /**
   * Exactly when a lease is renewed: it is there, was not over at the first reading of the clock,
   * and the power epoch is still its own. The new deadline counts from the second reading.
   */
  lemma RenewedIff(w: World, id: string, r: Renewal)
    requires Inv(w)
    ensures Refresh(w.power, id, r).1 <==>
              && !w.power.closed && id in w.power.leases && r.expireAt < w.power.leases[id].deadline
              && r.state.PowerState? && r.state.epoch == w.power.leases[id].power
    ensures Refresh(w.power, id, r).1 ==>
              Refresh(w.power, id, r).0.leases
                == Live(w.power.leases, r.expireAt)[id := Lease(r.grantAt + LEASE_TTL, r.state.epoch)]
  {
    ExpireKeeps(w.power, r.expireAt);
  }

  /** A lease is renewed after its deadline exactly if the deadline passes during the look at the power state. */
  lemma RenewedLateIff(w: World, id: string, r: Renewal)
    requires Inv(w) && id in w.power.leases
    ensures var lease := w.power.leases[id];
            && (Refresh(w.power, id, r).1 && lease.deadline <= r.grantAt <==>
                  && !w.power.closed && r.state.PowerState? && r.state.epoch == lease.power
                  && r.expireAt < lease.deadline <= r.grantAt)
            && (Refresh(w.power, id, r).1 ==> r.grantAt - lease.deadline < r.grantAt - r.expireAt)
  {
    RenewedIff(w, id, r);
  }

  /** And it can: a look of eleven seconds that begins one second before the deadline. */
  lemma RenewedLateAfterAll(events: seq<PowerEvent>) returns (w: World, r: Renewal)
    ensures Inv(w) && Enabled(w, Refreshing("a", r), events) && Refresh(w.power, "a", r).1
    ensures "a" in w.power.leases && w.power.leases["a"].deadline < r.grantAt
  {
    var leases := map["a" := Lease(120, 0)];
    assert "a" in leases;
    assert leases.Keys == {"a"};
    var p := Power(leases, 7, false, 0, None, Some(0), {7}, []);
    w := World(Arm(p, 0), 0);
    ArmKeeps(p, 0);
    assert events[..0] == [] && Reported([]) == PowerState(0, false);
    r := Renewal(119, PowerState(0, false), true, 130, 131);
    RenewedIff(w, "a", r);
  }

  /** A release ends that lease, and no other that is still live. */
  lemma ReleasedAlone(w: World, id: string, expireAt: Time, armAt: Time)
    requires Inv(w) && !w.power.closed
    ensures var q := Release(w.power, id, expireAt, armAt);
            && q.leases == Live(w.power.leases - {id}, expireAt)
            && (q.handle == 0 <==> q.leases == map[]) && (q.leases != map[] ==> q.handle == w.power.handle)
  {
    var q := w.power.(leases := w.power.leases - {id});
    FewerLeases(q.leases, w.power.leases);
    ExpireKeeps(q, expireAt);
  }

  /** The current timer ends exactly the leases whose time has come, and always at least one. */
  lemma FiringExpires(w: World, s: Step, events: seq<PowerEvent>)
    requires Inv(w) && Enabled(w, s, events) && s.Firing? && s.epoch == w.power.epoch && !w.power.closed
    ensures Next(w, s).power.leases == Live(w.power.leases, s.expireAt)
    ensures exists id :: id in w.power.leases && id !in Next(w, s).power.leases
  {
    ExpireKeeps(w.power, s.expireAt);
    var id :| id in w.power.leases && w.power.leases[id].deadline == First(w.power.leases);
    assert id !in Live(w.power.leases, s.expireAt);
  }

  // ----- exactly what each call leaves ---------------------------------------------------------

  /** The leases that an acquisition finds: not over, and of the power epoch reported first. */
  function Found(p: Power, o: Outside): map<string, Lease> {
    if o.before.PowerState? && (p.seen.None? || p.seen.value == o.before.epoch)
    then Live(p.leases, o.expireAt) else map[]
  }

  /** Closing a handle on the way fails: that of leases that are over, or of leases of an earlier epoch. */
  predicate CloseFails(p: Power, o: Outside) {
    || (p.handle != 0 && Live(p.leases, o.expireAt) == map[] && !o.firstClose)
    || (Live(p.leases, o.expireAt) != map[] && o.before.PowerState? && p.seen != Some(o.before.epoch) && !o.secondClose)
  }

  lemma LaidIff(b: Power, o: Outside)
    requires Held(b) && NewHandle(o.creation, b.made)
    requires o.before.PowerState? && !o.before.blocked && b.seen == Some(o.before.epoch)
    ensures Lay(b, o).1 <==>
            && |b.leases| < 16 && (b.leases != map[] || o.creation.Usable?)
            && o.after == PowerState(o.before.epoch, false)
    ensures Lay(b, o).1 ==> Lay(b, o).0.leases == b.leases[o.id := Lease(o.grantAt + 120, o.before.epoch)]
    ensures !Lay(b, o).1 ==>
              || Lay(b, o).0.leases == b.leases
              || ((o.after.Unknown? || o.after.epoch != o.before.epoch) && Lay(b, o).0.leases == map[])
  {
  }

  /**
   * Exactly when a lease is granted: the manager is open, no closing on the way fails, the power is not
   * blocked, fewer than 16 leases are found, the request is held or can be had, and the power epoch is the
   * same, and still not blocked, afterwards. The lease then joins those found, for two minutes.
   */
  lemma GrantedIff(w: World, o: Outside)
    requires Inv(w) && NewHandle(o.creation, w.power.made)
    ensures Acquire(w.power, o).1 <==>
            && !w.power.closed && !CloseFails(w.power, o)
            && o.before.PowerState? && !o.before.blocked
            && |Found(w.power, o)| < 16 && (Found(w.power, o) != map[] || o.creation.Usable?)
            && o.after == PowerState(o.before.epoch, false)
    ensures Acquire(w.power, o).1 ==>
              Acquire(w.power, o).0.leases == Found(w.power, o)[o.id := Lease(o.grantAt + 120, o.before.epoch)]
  {
    var p := w.power;
    var a := Expire(p, o.expireAt);
    ExpireKeeps(p, o.expireAt);
    SynchronizeKeeps(a, o.before, o.secondClose);
    var (b, bad) := Synchronize(a, o.before, o.secondClose);
    if !p.closed && !Stuck(p, o) && !bad { LaidIff(b, o); }
  }

  /**
   * An acquisition that grants nothing costs nobody a lease that is not over, unless the power state cannot
   * be read or a look reports another epoch.
   */
  lemma RefusalSparesLeases(w: World, o: Outside, id: string)
    requires Inv(w) && NewHandle(o.creation, w.power.made) && !Acquire(w.power, o).1
    requires id in w.power.leases && o.expireAt < w.power.leases[id].deadline
    requires o.before.PowerState? && o.before.epoch == w.power.leases[id].power
    requires o.after.PowerState? && o.after.epoch == o.before.epoch
    ensures id in Acquire(w.power, o).0.leases && Acquire(w.power, o).0.leases[id] == w.power.leases[id]
  {
    var p := w.power;
    var a := Expire(p, o.expireAt);
    ExpireKeeps(p, o.expireAt);
    SynchronizeKeeps(a, o.before, o.secondClose);
    assert id in a.leases;
    var (b, bad) := Synchronize(a, o.before, o.secondClose);
    if !p.closed && !bad { LaidIff(b, o); }
  }

  /** What a renewal leaves: what is not over, unless the power state cannot be read or its epoch has moved. */
  lemma LeasesAfterRenewal(w: World, id: string, r: Renewal)
    requires Inv(w) && !w.power.closed && !Refresh(w.power, id, r).1
    ensures Refresh(w.power, id, r).0.leases ==
            if r.state.PowerState? && w.power.seen == Some(r.state.epoch)
            then Live(w.power.leases, r.expireAt) else map[]
  {
    ExpireKeeps(w.power, r.expireAt);
  }

  /** A closed manager stays as it is; stopping closes it, with no lease and no timer; an old timer does nothing. */
  lemma ClosedStays(w: World, s: Step, events: seq<PowerEvent>)
    requires Inv(w) && Enabled(w, s, events)
    ensures w.power.closed ==> Next(w, s).power == w.power
    ensures s.Stopping? ==> Next(w, s).power.closed && Next(w, s).power.leases == map[]
                            && Next(w, s).power.handle == 0 && Next(w, s).power.armed == None
    ensures s.Firing? && s.epoch != w.power.epoch ==> Next(w, s).power == w.power
    ensures !s.Stopping? ==> Next(w, s).power.closed == w.power.closed
  {
    if s.Acquiring? { HeldForNobodyIff(w.power, s.o); }
    if s.Refreshing? { SynchronizeLeavesClosed(w.power, s.r); }
  }

  lemma SynchronizeLeavesClosed(p: Power, r: Renewal)
    ensures Checked(p, r).closed == p.closed
  {
  }
}
