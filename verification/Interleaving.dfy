/** The reservation service step by step: any number of clients, a clock, leased Redis locks and
    database row locks, interleaved in any order. The commits are those of Booking; each client goes
    through the tests and waits of the code in the code's order. */
module Interleaving {
  import opened Wrappers
  import opened Booking
  import opened Calls

  type ClientId = nat

  const LOCK_TTL_MICROS: int := 10_000_000

  /** Which method closes a reservation: cancel_reservation for a user, complete_reservation, or one of the
      two release methods. Only the release methods look at the status again inside the lock. A payment
      remembers the instant at which it tested the reservation's expiry. */
  datatype Kind = ByUser(user: UserId) | ByPayment(testedAt: Instant) | ByRelease

  datatype Job =
    | HoldJob(event: EventId, user: UserId, request: seq<SeatId>)
    | CloseJob(event: EventId, rid: ReservationId, kind: Kind)

  /** Where a client is. `until` is when the lease it was given runs out; `seen` holds the row locks it
      has, with the row each SELECT FOR UPDATE read. */
  datatype Pc =
    | Idle
    | Ready(job: Job)
    | Entered(job: Job, token: nat, until: Instant)
    | Locking(job: Job, token: nat, until: Instant, seen: map<SeatId, Seat>)
    | Leaving(event: EventId, token: nat, seen: map<SeatId, Seat>)
    | Unwinding(seen: map<SeatId, Seat>)

  datatype Lease = Lease(token: nat, until: Instant)

  datatype World = World(now: Instant, db: Db, leases: map<EventId, Lease>, rowLocks: map<SeatId, ClientId>,
                         clients: map<ClientId, Pc>, nextToken: nat)

  datatype Action =
    | Begin(c: ClientId, job: Job)
    | GiveUp(c: ClientId)
    | Acquire(c: ClientId)
    | Check(c: ClientId)
    | LockRow(c: ClientId, x: SeatId)
    | CommitWork(c: ClientId, rid: ReservationId, rows: seq<SeatId>, writeAt: Instant)
    | Abort(c: ClientId)
    | Release(c: ClientId)
    | Rollback(c: ClientId)
    | Crash(c: ClientId)
    | Tick(to: Instant)

  /** The rows a job selects FOR UPDATE. */
  function Target(db: Db, job: Job): set<SeatId> {
    match job
    case HoldJob(event, _, request) => Matching(db, event, request)
    case CloseJob(_, rid, _) => if rid in db.reservations then Existing(db, db.reservations[rid].seats) else {}
  }

  /** The test made inside the lock before any row is selected. */
  predicate Passes(w: World, job: Job) {
    match job
    case HoldJob(event, user, _) => !HasActiveHold(w.db, user, event, w.now)
    case CloseJob(_, rid, kind) =>
      kind == ByRelease ==> rid in w.db.reservations && w.db.reservations[rid].status == Held
  }

  /** The test made before the lock is asked for. */
  predicate MayBegin(w: World, job: Job) {
    match job
    case HoldJob(_, _, _) => true
    case CloseJob(event, rid, kind) =>
      && rid in w.db.reservations && w.db.reservations[rid].event == event && w.db.reservations[rid].status == Held
      && (kind.ByUser? ==> kind.user == w.db.reservations[rid].user)
      && (kind.ByPayment? ==> kind.testedAt == w.now && w.db.reservations[rid].expiresAt >= w.now)
  }

  predicate LockFree(w: World, event: EventId) {
    event !in w.leases || w.leases[event].until <= w.now
  }

  /** All rows are locked, and for a hold the rows read are as many as requested and all available. */
  ghost predicate ReadyToCommit(w: World, pc: Pc, rid: ReservationId, rows: seq<SeatId>) {
    && pc.Locking? && pc.seen.Keys == Target(w.db, pc.job)
    && (pc.job.HoldJob? ==>
          && |pc.seen| == |pc.job.request| && (forall x | x in pc.seen :: pc.seen[x].status == Available)
          && rid !in w.db.reservations && Enumerates(rows, pc.seen.Keys))
  }

  ghost predicate Can(w: World, a: Action) {
    match a
    case Tick(to) => w.now <= to
    case Begin(c, job) => c in w.clients && w.clients[c].Idle? && MayBegin(w, job)
    case GiveUp(c) => c in w.clients && w.clients[c].Ready?
    case Acquire(c) => c in w.clients && w.clients[c].Ready? && LockFree(w, w.clients[c].job.event)
    case Check(c) => c in w.clients && w.clients[c].Entered?
    case LockRow(c, x) =>
      c in w.clients && w.clients[c].Locking? && x in Target(w.db, w.clients[c].job) && x !in w.rowLocks
    case CommitWork(c, rid, rows, writeAt) =>
      c in w.clients && ReadyToCommit(w, w.clients[c], rid, rows) && writeAt <= w.now
    case Abort(c) => c in w.clients && (w.clients[c].Entered? || w.clients[c].Locking?)
    case Release(c) => c in w.clients && w.clients[c].Leaving?
    case Rollback(c) => c in w.clients && w.clients[c].Unwinding?
    case Crash(c) => c in w.clients
  }

  function Seen(pc: Pc): map<SeatId, Seat> {
    if pc.Locking? || pc.Leaving? || pc.Unwinding? then pc.seen else map[]
  }

  function Freed(rowLocks: map<SeatId, ClientId>, c: ClientId): map<SeatId, ClientId> {
    map x | x in rowLocks && rowLocks[x] != c :: rowLocks[x]
  }

  function Committed(db: Db, job: Job, rid: ReservationId, rows: seq<SeatId>, writeAt: Instant): Db {
    match job
    case HoldJob(event, user, _) => HoldCommit(db, rid, user, event, rows, writeAt + HOLD_MICROS)
    case CloseJob(_, closed, kind) => CloseCommit(db, closed, kind.ByPayment?)
  }

  /** The compare-and-delete script: only a live key that still holds this token is deleted. */
  function Unlocked(w: World, event: EventId, token: nat): map<EventId, Lease> {
    if !LockFree(w, event) && w.leases[event].token == token then w.leases - {event} else w.leases
  }

  function Move(w: World, c: ClientId, pc: Pc): World {
    w.(clients := w.clients[c := pc])
  }

  ghost function Do(w: World, a: Action): World
    requires Can(w, a)
  {
    match a
    case Tick(to) => w.(now := to)
    case Begin(c, job) => Move(w, c, Ready(job))
    case GiveUp(c) => Move(w, c, Idle)
    case Acquire(c) =>
      var job, until := w.clients[c].job, w.now + LOCK_TTL_MICROS;
      Move(w, c, Entered(job, w.nextToken, until))
        .(leases := w.leases[job.event := Lease(w.nextToken, until)], nextToken := w.nextToken + 1)
    case Check(c) =>
      var pc := w.clients[c];
      Move(w, c, if Passes(w, pc.job) then Locking(pc.job, pc.token, pc.until, map[])
           else Leaving(pc.job.event, pc.token, map[]))
    case LockRow(c, x) =>
      var pc := w.clients[c];
      Move(w, c, Locking(pc.job, pc.token, pc.until, pc.seen[x := w.db.seats[x]])).(rowLocks := w.rowLocks[x := c])
    case CommitWork(c, rid, rows, writeAt) =>
      var pc := w.clients[c];
      Move(w, c, Leaving(pc.job.event, pc.token, map[]))
        .(db := Committed(w.db, pc.job, rid, rows, writeAt), rowLocks := Freed(w.rowLocks, c))
    case Abort(c) =>
      var pc := w.clients[c];
      Move(w, c, Leaving(pc.job.event, pc.token, Seen(pc)))
    case Release(c) =>
      var pc := w.clients[c];
      Move(w, c, Unwinding(pc.seen)).(leases := Unlocked(w, pc.event, pc.token))
    case Rollback(c) => Move(w, c, Idle).(rowLocks := Freed(w.rowLocks, c))
    case Crash(c) => Move(w, c, Idle).(rowLocks := Freed(w.rowLocks, c))
  }

  ghost predicate Executable(w: World, acts: seq<Action>)
    decreases |acts|
  {
    acts == [] || (Can(w, acts[0]) && Executable(Do(w, acts[0]), acts[1..]))
  }

  ghost function After(w: World, acts: seq<Action>): World
    requires Executable(w, acts)
    decreases |acts|
  {
    if acts == [] then w else After(Do(w, acts[0]), acts[1..])
  }

  // ---- invariants that need no assumption about time --------------------------------------

  /** Row locks and clients agree, and what a client read under a row lock is still in the database. */
  ghost predicate RowsOk(w: World) {
    && (forall x | x in w.rowLocks :: w.rowLocks[x] in w.clients && x in Seen(w.clients[w.rowLocks[x]]))
    && (forall c, x | c in w.clients && x in Seen(w.clients[c]) ::
          && x in w.rowLocks && w.rowLocks[x] == c
          && (w.clients[c].Locking? ==> x in w.db.seats && w.clients[c].seen[x] == w.db.seats[x]))
  }

  /** Once acquired, the lock of an event is free again exactly ten seconds later, unless released; the locks
      of other events run on. */
  lemma LeaseLastsTenSecondsExactly(w: World, c: ClientId, to: Instant, event: EventId)
    requires Can(w, Acquire(c)) && w.now <= to
    ensures LockFree(Do(Do(w, Acquire(c)), Tick(to)), event) <==>
            if event == w.clients[c].job.event then w.now + 10_000_000 <= to
            else event !in w.leases || w.leases[event].until <= to
  {
  }

  /** The tests of a hold in steps are those of the call: if nothing has changed since it read its rows, it
      may commit exactly where the call does. */
  lemma HoldStepsTestAsTheCall(w: World, pc: Pc, rid: ReservationId, rows: seq<SeatId>, fate: Fate)
    requires pc.Locking? && pc.job.HoldJob? && Commits(fate) && fate.redisUp
    requires pc.seen == map x | x in Target(w.db, pc.job) :: w.db.seats[x]
    ensures Passes(w, pc.job) && ReadyToCommit(w, pc, rid, rows) <==>
            && HoldVerdict(w.db, pc.job.user, pc.job.event, pc.job.request, w.now, fate) == None
            && rid !in w.db.reservations && Enumerates(rows, Matching(w.db, pc.job.event, pc.job.request))
  {
    assert pc.seen.Keys == Target(w.db, pc.job);
    assert |pc.seen| == |pc.seen.Keys|;
  }

  /** So are the tests of the closings: before the lock for a user and a payment, inside it for a release. */
  lemma CloseStepsTestAsTheCall(w: World, rid: ReservationId, user: UserId, fate: Fate)
    requires rid in w.db.reservations && Commits(fate)
    ensures var event := w.db.reservations[rid].event;
            && (MayBegin(w, CloseJob(event, rid, ByUser(user))) <==> CancelRefusal(w.db, rid, user) == None)
            && (MayBegin(w, CloseJob(event, rid, ByPayment(w.now))) <==> CompleteRefusal(w.db, rid, w.now) == None)
            && (Passes(w, CloseJob(event, rid, ByRelease)) <==> Releases(w.db, rid, fate))
  {
  }

  ghost predicate HasToken(pc: Pc) {
    pc.Entered? || pc.Locking? || pc.Leaving?
  }

  ghost predicate TokensOk(w: World) {
    && (forall c | c in w.clients && HasToken(w.clients[c]) :: w.clients[c].token < w.nextToken)
    && (forall c, d | c in w.clients && d in w.clients && HasToken(w.clients[c]) && HasToken(w.clients[d])
                      && w.clients[c].token == w.clients[d].token :: c == d)
    && (forall e | e in w.leases :: w.leases[e].token < w.nextToken)
  }

  /** Client `c` moves on with the row locks it had. */
  lemma SameRows(w: World, after: World, c: ClientId, pc: Pc)
    requires RowsOk(w) && c in w.clients && after.clients == w.clients[c := pc]
    requires after.rowLocks == w.rowLocks && after.db == w.db
    requires Seen(pc) == Seen(w.clients[c]) && (pc.Locking? ==> Seen(pc) == map[])
    ensures RowsOk(after)
  {
  }

  /** Client `c` gives up its row locks; the rows of all others are as they were. */
  lemma RowsGivenUp(w: World, after: World, c: ClientId, pc: Pc)
    requires RowsOk(w) && c in w.clients && after.clients == w.clients[c := pc]
    requires after.rowLocks == Freed(w.rowLocks, c) && Seen(pc) == map[]
    requires forall x | x in w.db.seats && x in w.rowLocks && w.rowLocks[x] != c ::
               x in after.db.seats && after.db.seats[x] == w.db.seats[x]
    ensures RowsOk(after)
  {
  }

  lemma RowTaken(w: World, c: ClientId, x: SeatId)
    requires RowsOk(w) && Can(w, LockRow(c, x))
    ensures RowsOk(Do(w, LockRow(c, x)))
  {
  }

  lemma CommitKeepsRows(w: World, a: Action)
    requires RowsOk(w) && Can(w, a) && a.CommitWork?
    ensures RowsOk(Do(w, a))
  {
    CommitTouchesOwnRows(w, a);
    RowsGivenUp(w, Do(w, a), a.c, Do(w, a).clients[a.c]);
  }

  lemma StepKeepsRows(w: World, a: Action)
    requires RowsOk(w) && Can(w, a)
    ensures RowsOk(Do(w, a))
  {
    var after := Do(w, a);
    match a
    case Tick(_) =>
    case LockRow(c, x) => RowTaken(w, c, x);
    case CommitWork(c, _, _, _) => CommitKeepsRows(w, a);
    case Rollback(c) => RowsGivenUp(w, after, c, Idle);
    case Crash(c) => RowsGivenUp(w, after, c, Idle);
    case Begin(c, _) => SameRows(w, after, c, after.clients[c]);
    case GiveUp(c) => SameRows(w, after, c, after.clients[c]);
    case Acquire(c) => SameRows(w, after, c, after.clients[c]);
    case Check(c) => SameRows(w, after, c, after.clients[c]);
    case Abort(c) => SameRows(w, after, c, after.clients[c]);
    case Release(c) => SameRows(w, after, c, after.clients[c]);
  }

  /** A commit writes only rows its own client has locked, so nobody else's reading goes stale. */
  lemma CommitTouchesOwnRows(w: World, a: Action)
    requires RowsOk(w) && Can(w, a) && a.CommitWork?
    ensures forall x | x in w.db.seats && x in w.rowLocks && w.rowLocks[x] != a.c ::
              x in Do(w, a).db.seats && Do(w, a).db.seats[x] == w.db.seats[x]
  {
    var pc := w.clients[a.c];
    forall x | x in w.db.seats && x in w.rowLocks && w.rowLocks[x] != a.c
      ensures x in Do(w, a).db.seats && Do(w, a).db.seats[x] == w.db.seats[x]
    {
      assert x !in pc.seen;
      assert x !in Target(w.db, pc.job);
      if pc.job.HoldJob? { assert x in a.rows <==> x in Elements(a.rows); }
    }
  }

  ghost predicate InSection(pc: Pc) {
    pc.Entered? || pc.Locking?
  }

  /** The live key of an event is its client's for as long as that client's lease has time left. */
  ghost predicate LeaseOk(w: World) {
    forall c | c in w.clients && InSection(w.clients[c]) && w.now < w.clients[c].until :: Leased(w, w.clients[c])
  }

  ghost predicate Leased(w: World, pc: Pc)
    requires InSection(pc)
  {
    pc.job.event in w.leases && w.leases[pc.job.event] == Lease(pc.token, pc.until)
  }

  /** NX: nobody acquires over a live key, so an acquisition takes no lease from anyone in time. */
  lemma AcquireKeepsLeases(w: World, c: ClientId)
    requires LeaseOk(w) && Can(w, Acquire(c))
    ensures LeaseOk(Do(w, Acquire(c)))
  {
    var after := Do(w, Acquire(c));
    forall d | d in after.clients && InSection(after.clients[d]) && after.now < after.clients[d].until
      ensures Leased(after, after.clients[d])
    {
      if d != c { assert Leased(w, w.clients[d]); }
    }
  }

  /** Compare-and-delete: a release removes no key that carries another client's token. */
  lemma ReleaseKeepsLeases(w: World, c: ClientId)
    requires LeaseOk(w) && TokensOk(w) && Can(w, Release(c))
    ensures LeaseOk(Do(w, Release(c)))
  {
    var after := Do(w, Release(c));
    forall d | d in after.clients && InSection(after.clients[d]) && after.now < after.clients[d].until
      ensures Leased(after, after.clients[d])
    {
      assert d != c && Leased(w, w.clients[d]);
    }
  }

  /** Client `c` moves on inside its section or out of it, and no lease changes. */
  lemma SameLeases(w: World, after: World, c: ClientId, pc: Pc)
    requires LeaseOk(w) && c in w.clients && after.clients == w.clients[c := pc]
    requires after.leases == w.leases && after.now == w.now
    requires InSection(pc) ==> InSection(w.clients[c]) && pc.job == w.clients[c].job
                               && pc.token == w.clients[c].token && pc.until == w.clients[c].until
    ensures LeaseOk(after)
  {
    forall d | d in after.clients && InSection(after.clients[d]) && after.now < after.clients[d].until
      ensures Leased(after, after.clients[d])
    {
      assert Leased(w, w.clients[d]);
    }
  }

  lemma StepKeepsLeases(w: World, a: Action)
    requires LeaseOk(w) && TokensOk(w) && Can(w, a)
    ensures LeaseOk(Do(w, a))
  {
    match a
    case Acquire(c) => AcquireKeepsLeases(w, c);
    case Release(c) => ReleaseKeepsLeases(w, c);
    case Tick(to) =>
      forall d | d in w.clients && InSection(w.clients[d]) && to < w.clients[d].until
        ensures Leased(Do(w, a), w.clients[d])
      {
        assert Leased(w, w.clients[d]);
      }
    case Begin(c, _) => SameLeases(w, Do(w, a), c, Do(w, a).clients[c]);
    case GiveUp(c) => SameLeases(w, Do(w, a), c, Do(w, a).clients[c]);
    case Check(c) => SameLeases(w, Do(w, a), c, Do(w, a).clients[c]);
    case LockRow(c, _) => SameLeases(w, Do(w, a), c, Do(w, a).clients[c]);
    case CommitWork(c, _, _, _) => SameLeases(w, Do(w, a), c, Do(w, a).clients[c]);
    case Abort(c) => SameLeases(w, Do(w, a), c, Do(w, a).clients[c]);
    case Rollback(c) => SameLeases(w, Do(w, a), c, Do(w, a).clients[c]);
    case Crash(c) => SameLeases(w, Do(w, a), c, Do(w, a).clients[c]);
  }

  /** Client `c` moves on with the token it had, or without one, and no lease is added. */
  lemma SameTokens(w: World, after: World, c: ClientId, pc: Pc)
    requires TokensOk(w) && c in w.clients && after.clients == w.clients[c := pc] && after.nextToken == w.nextToken
    requires HasToken(pc) ==> HasToken(w.clients[c]) && pc.token == w.clients[c].token
    requires forall e | e in after.leases :: e in w.leases && after.leases[e] == w.leases[e]
    ensures TokensOk(after)
  {
  }

  lemma NewToken(w: World, c: ClientId)
    requires TokensOk(w) && Can(w, Acquire(c))
    ensures TokensOk(Do(w, Acquire(c)))
  {
  }

  lemma StepKeepsTokens(w: World, a: Action)
    requires TokensOk(w) && Can(w, a)
    ensures TokensOk(Do(w, a))
  {
    if a.Acquire? {
      NewToken(w, a.c);
    } else if !a.Tick? {
      var after := Do(w, a);
      SameTokens(w, after, a.c, after.clients[a.c]);
    }
  }
}
