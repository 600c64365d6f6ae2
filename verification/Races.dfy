/** Two concrete runs showing that the assumptions of DisciplinedRunIsSafe are needed: a payment that
    completes a reservation released while it waited for the lock, and a duplicate hold by a client
    whose lease ran out. */
module Races {
  import opened Wrappers
  import opened Booking
  import opened SeatLedger
  import opened Calls
  import opened Interleaving
  import opened InterleavingSafety

  /** `acts` leads from `w` to `v`, with every state on the way in time if that is asked for. */
  ghost predicate Leads(w: World, acts: seq<Action>, v: World, inTime: bool)
    decreases |acts|
  {
    && (inTime ==> InTime(w))
    && (if acts == [] then w == v else Can(w, acts[0]) && Leads(Do(w, acts[0]), acts[1..], v, inTime))
  }

  ghost predicate Reachable(w: World, v: World, inTime: bool) {
    exists acts :: Leads(w, acts, v, inTime)
  }

  lemma {:induction false} LeadsFurther(w: World, acts: seq<Action>, v: World, a: Action, inTime: bool)
    requires Leads(w, acts, v, inTime) && Can(v, a) && (inTime ==> InTime(Do(v, a)))
    ensures Leads(w, acts + [a], Do(v, a), inTime)
    decreases |acts|
  {
    if acts == [] {
      assert ([a])[1..] == [] && acts + [a] == [a];
    } else {
      assert (acts + [a])[1..] == acts[1..] + [a];
      LeadsFurther(Do(w, acts[0]), acts[1..], v, a, inTime);
    }
  }

  lemma Step(w: World, v: World, a: Action, next: World, inTime: bool)
    requires Reachable(w, v, inTime) && Can(v, a) && Do(v, a) == next && (inTime ==> InTime(next))
    ensures Reachable(w, next, inTime)
  {
    var acts :| Leads(w, acts, v, inTime);
    LeadsFurther(w, acts, v, a, inTime);
  }

  // ---- a payment racing a release ---------------------------------------------------------

  const FIRST := Reservation(10, 1, [7], Held, HOLD_MICROS)
  const SECOND := Reservation(20, 1, [7], Held, HOLD_MICROS)

  function Row(status: SeatStatus, user: Option<UserId>): Seat {
    Seat(1, 100, status, user, if user.Some? then Some(HOLD_MICROS) else None)
  }

  function Rows(seat: Seat, reservations: map<ReservationId, Reservation>): Db {
    Db(map[7 := seat], reservations, map[])
  }

  const HELD := Rows(Row(Hold, Some(10)), map[0 := FIRST])
  const FREED := Rows(Row(Available, None), map[0 := FIRST.(status := Cancelled)])
  const REHELD := Rows(Row(Hold, Some(20)), map[0 := FIRST.(status := Cancelled), 1 := SECOND])

  const PAY := CloseJob(1, 0, ByPayment(0))
  const DROP := CloseJob(1, 0, ByRelease)
  const RIVAL := HoldJob(1, 20, [7])

  function Two(now: Instant, db: Db, leases: map<EventId, Lease>, rowLocks: map<SeatId, ClientId>,
               first: Pc, second: Pc, next: nat): World
  {
    World(now, db, leases, rowLocks, map[1 := first, 2 := second], next)
  }

  function LeasedTo(token: nat, until: Instant): map<EventId, Lease> {
    map[1 := Lease(token, until)]
  }

  const TTL := LOCK_TTL_MICROS
  const START := Two(0, HELD, map[], map[], Idle, Idle, 0)

  lemma StartsSafely()
    ensures Initial(START)
  {
    assert Owns(HELD, 0, 7);
  }

  lemma PaymentTests()
    ensures Reachable(START, Two(0, HELD, map[], map[], Ready(PAY), Ready(DROP), 0), true)
  {
    assert Leads(START, [], START, true);
    var w1 := Two(0, HELD, map[], map[], Ready(PAY), Idle, 0);
    Step(START, START, Begin(1, PAY), w1, true);
    Step(START, w1, Begin(2, DROP), Two(0, HELD, map[], map[], Ready(PAY), Ready(DROP), 0), true);
  }

  lemma PaymentTestsThenReleaseEnters()
    ensures Reachable(START, Two(0, HELD, LeasedTo(0, TTL), map[], Ready(PAY), Locking(DROP, 0, TTL, map[]), 1), true)
  {
    PaymentTests();
    var w2 := Two(0, HELD, map[], map[], Ready(PAY), Ready(DROP), 0);
    var w3 := Two(0, HELD, LeasedTo(0, TTL), map[], Ready(PAY), Entered(DROP, 0, TTL), 1);
    Step(START, w2, Acquire(2), w3, true);
    Step(START, w3, Check(2), Two(0, HELD, LeasedTo(0, TTL), map[], Ready(PAY), Locking(DROP, 0, TTL, map[]), 1), true);
  }

  lemma DropCommit()
    ensures CloseCommit(HELD, 0, false) == FREED && Existing(HELD, [7]) == {7}
    ensures Freed(map[7 := 2], 2) == map[]
  {
  }

  const FREEING := Two(0, FREED, LeasedTo(0, TTL), map[], Ready(PAY), Leaving(1, 0, map[]), 1)

  const DROP_READY := Two(0, HELD, LeasedTo(0, TTL), map[7 := 2], Ready(PAY),
                          Locking(DROP, 0, TTL, map[7 := Row(Hold, Some(10))]), 1)

  lemma ReleaseLocksTheSeat()
    ensures Reachable(START, DROP_READY, true)
  {
    PaymentTestsThenReleaseEnters();
    var w4 := Two(0, HELD, LeasedTo(0, TTL), map[], Ready(PAY), Locking(DROP, 0, TTL, map[]), 1);
    Step(START, w4, LockRow(2, 7), DROP_READY, true);
  }

  lemma ReleaseFreesTheSeat()
    ensures Reachable(START, FREEING, true)
  {
    ReleaseLocksTheSeat();
    DropCommit();
    Step(START, DROP_READY, CommitWork(2, 0, [], 0), FREEING, true);
  }

  const UNLOCKED := Two(0, FREED, map[], map[], Ready(PAY), Unwinding(map[]), 1)

  lemma ReleaseUnlocks()
    ensures Reachable(START, UNLOCKED, true)
  {
    ReleaseFreesTheSeat();
    Step(START, FREEING, Release(2), UNLOCKED, true);
  }

  lemma ReleaseLeaves()
    ensures Reachable(START, Two(0, FREED, map[], map[], Ready(PAY), Ready(RIVAL), 1), true)
  {
    ReleaseUnlocks();
    var w8 := Two(0, FREED, map[], map[], Ready(PAY), Idle, 1);
    Step(START, UNLOCKED, Rollback(2), w8, true);
    Step(START, w8, Begin(2, RIVAL), Two(0, FREED, map[], map[], Ready(PAY), Ready(RIVAL), 1), true);
  }

  const SEEN := map[7 := Row(Available, None)]
  const RIVAL_READY := Two(0, FREED, LeasedTo(1, TTL), map[7 := 2], Ready(PAY), Locking(RIVAL, 1, TTL, SEEN), 2)

  const RIVAL_IN := Two(0, FREED, LeasedTo(1, TTL), map[], Ready(PAY), Locking(RIVAL, 1, TTL, map[]), 2)

  lemma RivalEnters()
    ensures Reachable(START, RIVAL_IN, true)
  {
    ReleaseLeaves();
    var w9 := Two(0, FREED, map[], map[], Ready(PAY), Ready(RIVAL), 1);
    var w10 := Two(0, FREED, LeasedTo(1, TTL), map[], Ready(PAY), Entered(RIVAL, 1, TTL), 2);
    Step(START, w9, Acquire(2), w10, true);
    Step(START, w10, Check(2), RIVAL_IN, true);
  }

  lemma RivalLocksTheSeat()
    ensures Reachable(START, RIVAL_READY, true)
  {
    RivalEnters();
    Step(START, RIVAL_IN, LockRow(2, 7), RIVAL_READY, true);
  }

  lemma RivalCommit()
    ensures HoldCommit(FREED, 1, 20, 1, [7], HOLD_MICROS) == REHELD && Freed(map[7 := 2], 2) == map[]
    ensures Matching(FREED, 1, [7]) == {7} == SEEN.Keys && Enumerates([7], {7})
  {
    assert Elements([7]) == {7};
  }

  const RIVAL_DONE := Two(0, REHELD, LeasedTo(1, TTL), map[], Ready(PAY), Leaving(1, 1, map[]), 2)

  lemma RivalHoldsTheSeat()
    ensures Reachable(START, RIVAL_DONE, true)
  {
    RivalLocksTheSeat();
    RivalCommit();
    Step(START, RIVAL_READY, CommitWork(2, 1, [7], 0), RIVAL_DONE, true);
  }

  const PAY_ENTERED := Two(0, REHELD, LeasedTo(2, TTL), map[], Entered(PAY, 2, TTL), Unwinding(map[]), 3)

  lemma PaymentEnters()
    ensures Reachable(START, PAY_ENTERED, true)
  {
    RivalHoldsTheSeat();
    var w14 := Two(0, REHELD, map[], map[], Ready(PAY), Unwinding(map[]), 2);
    Step(START, RIVAL_DONE, Release(2), w14, true);
    Step(START, w14, Acquire(1), PAY_ENTERED, true);
  }

  const PAY_READY := Two(0, REHELD, LeasedTo(2, TTL), map[7 := 1],
                         Locking(PAY, 2, TTL, map[7 := Row(Hold, Some(20))]), Unwinding(map[]), 3)

  const PAY_CHECKED := Two(0, REHELD, LeasedTo(2, TTL), map[], Locking(PAY, 2, TTL, map[]), Unwinding(map[]), 3)

  lemma PaymentPasses()
    ensures Reachable(START, PAY_CHECKED, true)
  {
    PaymentEnters();
    Step(START, PAY_ENTERED, Check(1), PAY_CHECKED, true);
  }

  lemma PaymentLocksTheSeat()
    ensures Reachable(START, PAY_READY, true)
  {
    PaymentPasses();
    Step(START, PAY_CHECKED, LockRow(1, 7), PAY_READY, true);
  }

  const DOUBLED := Rows(Row(Sold, None), map[0 := FIRST.(status := Completed), 1 := SECOND])
  const PAY_DONE := Two(0, DOUBLED, LeasedTo(2, TTL), map[], Leaving(1, 2, map[]), Unwinding(map[]), 3)

  lemma PaymentCommit()
    ensures CloseCommit(REHELD, 0, true) == DOUBLED && Existing(REHELD, [7]) == {7}
    ensures Freed(map[7 := 1], 1) == map[]
  {
  }

  lemma PaymentCompletes()
    ensures Reachable(START, PAY_DONE, true)
  {
    PaymentLocksTheSeat();
    PaymentCommit();
    Step(START, PAY_READY, CommitWork(1, 0, [], 0), PAY_DONE, true);
  }

  /** Without the assumption on closings, a run from a fresh system with every section in time sells a
      seat that another user holds: the payment tested its reservation before asking for the lock, a
      disconnect release and the rival's hold went first, and the completion does not look again. */
  lemma PaymentRaceDoublesASeat()
    ensures Initial(START)
    ensures exists w :: Reachable(START, w, true) && !Ledger(w.db)
                        && Owns(w.db, 0, 7) && w.db.reservations[0].status == Completed
                        && Owns(w.db, 1, 7) && w.db.reservations[1].status == Held
  {
    StartsSafely();
    PaymentCompletes();
    assert Owns(PAY_DONE.db, 0, 7) && Owns(PAY_DONE.db, 1, 7);
  }

  // ---- a duplicate hold after a lease ran out ---------------------------------------------

  const EMPTY := Db(map[7 := Row(Available, None), 8 := Row(Available, None)], map[], map[])
  const ONE := Db(map[7 := Row(Available, None), 8 := Row(Hold, Some(10))],
                  map[0 := Reservation(10, 1, [8], Held, HOLD_MICROS)], map[])
  const BOTH := Db(map[7 := Row(Hold, Some(10)), 8 := Row(Hold, Some(10))],
                   map[0 := Reservation(10, 1, [8], Held, HOLD_MICROS),
                       1 := Reservation(10, 1, [7], Held, HOLD_MICROS)], map[])
  const QUIET := Two(0, EMPTY, map[], map[], Idle, Idle, 0)
  const SEVEN := HoldJob(1, 10, [7])
  const EIGHT := HoldJob(1, 10, [8])

  const SLOW_IN := Two(0, EMPTY, LeasedTo(0, TTL), map[], Locking(SEVEN, 0, TTL, map[]), Idle, 1)

  lemma SlowClientTests()
    ensures Reachable(QUIET, SLOW_IN, false)
  {
    assert Leads(QUIET, [], QUIET, false);
    var w1 := Two(0, EMPTY, map[], map[], Ready(SEVEN), Idle, 0);
    var w2 := Two(0, EMPTY, LeasedTo(0, TTL), map[], Entered(SEVEN, 0, TTL), Idle, 1);
    Step(QUIET, QUIET, Begin(1, SEVEN), w1, false);
    Step(QUIET, w1, Acquire(1), w2, false);
    Step(QUIET, w2, Check(1), SLOW_IN, false);
  }

  lemma SlowClientStalls()
    ensures Reachable(QUIET, Two(TTL, EMPTY, LeasedTo(0, TTL), map[], Locking(SEVEN, 0, TTL, map[]),
                                 Ready(EIGHT), 1), false)
  {
    SlowClientTests();
    var w4 := Two(TTL, EMPTY, LeasedTo(0, TTL), map[], Locking(SEVEN, 0, TTL, map[]), Idle, 1);
    Step(QUIET, SLOW_IN, Tick(TTL), w4, false);
    Step(QUIET, w4, Begin(2, EIGHT), Two(TTL, EMPTY, LeasedTo(0, TTL), map[], Locking(SEVEN, 0, TTL, map[]),
                                         Ready(EIGHT), 1), false);
  }

  const FAST_READY := Two(TTL, EMPTY, LeasedTo(1, TTL + TTL), map[8 := 2], Locking(SEVEN, 0, TTL, map[]),
                          Locking(EIGHT, 1, TTL + TTL, map[8 := Row(Available, None)]), 2)

  lemma FastClientEnters()
    ensures Reachable(QUIET, FAST_READY, false)
  {
    SlowClientStalls();
    var w5 := Two(TTL, EMPTY, LeasedTo(0, TTL), map[], Locking(SEVEN, 0, TTL, map[]), Ready(EIGHT), 1);
    var w6 := Two(TTL, EMPTY, LeasedTo(1, TTL + TTL), map[], Locking(SEVEN, 0, TTL, map[]),
                  Entered(EIGHT, 1, TTL + TTL), 2);
    var w7 := Two(TTL, EMPTY, LeasedTo(1, TTL + TTL), map[], Locking(SEVEN, 0, TTL, map[]),
                  Locking(EIGHT, 1, TTL + TTL, map[]), 2);
    Step(QUIET, w5, Acquire(2), w6, false);
    Step(QUIET, w6, Check(2), w7, false);
    Step(QUIET, w7, LockRow(2, 8), FAST_READY, false);
  }

  const FAST_DONE := Two(TTL, ONE, LeasedTo(1, TTL + TTL), map[], Locking(SEVEN, 0, TTL, map[]),
                         Leaving(1, 1, map[]), 2)

  lemma FastCommit()
    ensures HoldCommit(EMPTY, 0, 10, 1, [8], HOLD_MICROS) == ONE
    ensures Matching(EMPTY, 1, [8]) == {8} && Enumerates([8], {8})
  {
    assert Elements([8]) == {8};
  }

  lemma FastClientHolds()
    ensures Reachable(QUIET, FAST_DONE, false)
  {
    FastClientEnters();
    FastCommit();
    assert map[8 := Row(Available, None)].Keys == {8};
    Step(QUIET, FAST_READY, CommitWork(2, 0, [8], 0), FAST_DONE, false);
  }

  const SLOW_READY := Two(TTL, ONE, LeasedTo(1, TTL + TTL), map[7 := 1], Locking(SEVEN, 0, TTL, SEEN),
                          Leaving(1, 1, map[]), 2)

  lemma SlowClientLocksItsSeat()
    ensures Reachable(QUIET, SLOW_READY, false)
  {
    FastClientHolds();
    Step(QUIET, FAST_DONE, LockRow(1, 7), SLOW_READY, false);
  }

  const SLOW_DONE := Two(TTL, BOTH, LeasedTo(1, TTL + TTL), map[], Leaving(1, 0, map[]), Leaving(1, 1, map[]), 2)

  lemma SlowCommit()
    ensures HoldCommit(ONE, 1, 10, 1, [7], HOLD_MICROS) == BOTH
    ensures Matching(ONE, 1, [7]) == {7} == SEEN.Keys && Enumerates([7], {7})
  {
    assert Elements([7]) == {7};
  }

  lemma SlowClientHolds()
    ensures Reachable(QUIET, SLOW_DONE, false)
  {
    SlowClientLocksItsSeat();
    SlowCommit();
    Step(QUIET, SLOW_READY, CommitWork(1, 1, [7], 0), SLOW_DONE, false);
  }

  /** Without the assumption on leases, one user ends up with two unexpired held reservations for the
      same event. The ledger still holds, as HoldsNeedNoLease promises. */
  lemma LeaseRaceDuplicatesAHold()
    ensures Initial(QUIET)
    ensures exists w :: Reachable(QUIET, w, false) && !OneActive(w.db, w.now)
  {
    SlowClientHolds();
    assert ActiveHold(BOTH.reservations[0], 10, 1, TTL) && ActiveHold(BOTH.reservations[1], 10, 1, TTL);
  }
}
