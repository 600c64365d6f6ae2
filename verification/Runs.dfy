/** Runs of service calls, one after another, each with whatever fate the environment deals it. */
module Runs {
  import opened Wrappers
  import opened Booking
  import opened SeatLedger
  import opened Money
  import opened Histories
  import opened Calls

  /** A service call with everything it reads from outside: clock readings, fresh keys, the order in
      which a query returned its rows, the gateway's answer, and its fate. */
  datatype Call =
    | HoldSeats(user: UserId, event: EventId, request: seq<SeatId>, rid: ReservationId,
                checkAt: Instant, writeAt: Instant, keyAt: Instant, rows: seq<SeatId>, fate: Fate)
    | CancelReservation(cancelled: ReservationId, user: UserId, fate: Fate)
    | ReleaseExpiredHolds(now: Instant, snapshot: seq<ReservationId>, fates: ReservationId -> Fate)
    | ReleaseUserHolds(user: UserId, snapshot: seq<ReservationId>, fates: ReservationId -> Fate)
    | ProcessPayment(user: UserId, paidFor: ReservationId, amount: int, pid: PaymentId,
                     checkAt: Instant, approved: bool, completeAt: Instant, fate: Fate)

  /** New keys are new, and queries return the rows they match. */
  ghost predicate Possible(db: Db, call: Call) {
    match call
    case HoldSeats(_, event, request, rid, _, _, _, rows, _) =>
      rid !in db.reservations && Enumerates(rows, Matching(db, event, request))
    case CancelReservation(_, _, _) => true
    case ReleaseExpiredHolds(now, snapshot, _) => Enumerates(snapshot, ExpiredHeld(db, now))
    case ReleaseUserHolds(user, snapshot, _) => Enumerates(snapshot, HeldByUser(db, user))
    case ProcessPayment(_, _, _, pid, _, _, _, _) => pid !in db.payments
  }

  ghost function CommitsOf(db: Db, call: Call): seq<Commit> {
    match call
    case HoldSeats(user, event, request, rid, checkAt, writeAt, _, rows, fate) =>
      if HoldVerdict(db, user, event, request, checkAt, fate) == None
      then [HoldC(rid, user, event, rows, writeAt + HOLD_MICROS)] else []
    case CancelReservation(rid, user, fate) =>
      if Cancels(db, rid, user, fate) then [CloseC(rid, false)] else []
    case ReleaseExpiredHolds(_, snapshot, fates) =>
      ReleaseAll(Began(db, Broker(map[], {}, {}, [])), snapshot, fates).commits
    case ReleaseUserHolds(_, snapshot, fates) =>
      ReleaseAll(Began(db, Broker(map[], {}, {}, [])), snapshot, fates).commits
    case ProcessPayment(user, rid, amount, pid, checkAt, approved, completeAt, fate) =>
      PayCommits(db, user, rid, amount, pid, checkAt, approved, completeAt, fate)
  }

  /** After the gateway's approval something fails late: the Redis cleanup, giving back the lock, or the
      stamp's own commit. */
  predicate FailsAfterApproval(call: Call) {
    call.ProcessPayment? && call.approved && !Settles(call.fate)
  }

  /** This call completes a sale and leaves its payment unstamped. */
  ghost predicate EndsUnstamped(db: Db, call: Call) {
    && call.ProcessPayment?
    && PayVerdict(db, call.user, call.paidFor, call.amount, call.checkAt) == None && call.fate.recorded
    && LeavesUnstamped(db, call.paidFor, call.approved, call.completeAt, call.fate)
  }

  ghost predicate SomeEndsUnstamped(db: Db, calls: seq<Call>)
    decreases |calls|
  {
    calls != [] && (EndsUnstamped(db, calls[0]) || SomeEndsUnstamped(Play(db, CommitsOf(db, calls[0])), calls[1..]))
  }

  lemma SingleIsLegal(db: Db, c: Commit)
    requires Sound(db) && Enabled(db, c)
    ensures Legal(db, [c]) && Play(db, [c]) == Apply(db, c)
    ensures c.HoldC? || (c.CloseC? && !c.sold) ==>
              UnsettledReservations(Play(db, [c])) == UnsettledReservations(db)
  {
    Append(db, [], c);
    assert [] + [c] == [c];
    UnsettledMoves(db, c);
  }

  lemma {:induction false} ReleaseSettlesNothing(db: Db, b: Broker, snapshot: seq<ReservationId>,
                                                 fates: ReservationId -> Fate)
    requires Sound(db)
    ensures UnsettledReservations(ReleaseAll(Began(db, b), snapshot, fates).db) == UnsettledReservations(db)
    decreases |snapshot|
  {
    if snapshot != [] {
      var n := |snapshot| - 1;
      ReleaseSettlesNothing(db, b, snapshot[..n], fates);
      ReleaseIsLegal(db, b, snapshot[..n], fates);
      var p := ReleaseAll(Began(db, b), snapshot[..n], fates);
      if Releases(p.db, snapshot[n], fates(snapshot[n])) { UnsettledMoves(p.db, CloseC(snapshot[n], false)); }
    }
  }

  /** Every service call commits a legal history, whatever the environment does to it; and the sales
      unstamped after it are those before, and its own if it ends so. */
  lemma CallIsLegal(db: Db, call: Call)
    requires Sound(db) && Possible(db, call)
    ensures Legal(db, CommitsOf(db, call))
    ensures UnsettledReservations(Play(db, CommitsOf(db, call))) ==
            UnsettledReservations(db) + (if EndsUnstamped(db, call) then {call.paidFor} else {})
    ensures EndsUnstamped(db, call) ==> call.paidFor !in UnsettledReservations(db)
  {
    match call
    case HoldSeats(user, event, request, rid, checkAt, writeAt, _, rows, fate) =>
      if CommitsOf(db, call) != [] {
        HoldSucceedsExactly(db, user, event, request, checkAt, fate);
        assert forall x | x in rows :: x in Elements(rows);
        SingleIsLegal(db, CommitsOf(db, call)[0]);
      }
    case CancelReservation(rid, user, fate) =>
      if CommitsOf(db, call) != [] { SingleIsLegal(db, CloseC(rid, false)); }
    case ReleaseExpiredHolds(_, snapshot, fates) =>
      ReleaseIsLegal(db, Broker(map[], {}, {}, []), snapshot, fates);
      ReleaseSettlesNothing(db, Broker(map[], {}, {}, []), snapshot, fates);
    case ReleaseUserHolds(_, snapshot, fates) =>
      ReleaseIsLegal(db, Broker(map[], {}, {}, []), snapshot, fates);
      ReleaseSettlesNothing(db, Broker(map[], {}, {}, []), snapshot, fates);
    case ProcessPayment(user, rid, amount, pid, checkAt, approved, completeAt, fate) =>
      PaymentIsLegal(db, user, rid, amount, pid, checkAt, approved, completeAt, fate);
  }

  /** Everything the calls commit, run one after another from `db`. */
  ghost function History(db: Db, calls: seq<Call>): seq<Commit>
    decreases |calls|
  {
    if calls == [] then []
    else var cs := CommitsOf(db, calls[0]); cs + History(Play(db, cs), calls[1..])
  }

  ghost predicate PossibleRun(db: Db, calls: seq<Call>)
    decreases |calls|
  {
    calls == [] || (Possible(db, calls[0]) && PossibleRun(Play(db, CommitsOf(db, calls[0])), calls[1..]))
  }

  /** The history of any run of service calls is legal, so that everything proved of legal histories
      holds at each of its moments, including a crash in the middle of a call. It leaves a sale newly
      unstamped exactly when one of its calls ends so. */
  lemma {:induction false} RunIsLegal(db: Db, calls: seq<Call>)
    requires Sound(db) && PossibleRun(db, calls)
    ensures Legal(db, History(db, calls)) && Sound(Play(db, History(db, calls)))
    ensures UnsettledReservations(db) <= UnsettledReservations(Play(db, History(db, calls)))
    ensures UnsettledReservations(Play(db, History(db, calls))) == UnsettledReservations(db)
        <==> !SomeEndsUnstamped(db, calls)
    decreases |calls|
  {
    if calls == [] {
    } else {
      var cs := CommitsOf(db, calls[0]);
      CallIsLegal(db, calls[0]);
      assert Sound(Play(db, cs)) by { HistoryKeepsSound(db, cs); }
      RunIsLegal(Play(db, cs), calls[1..]);
      LegalSplits(db, cs, History(Play(db, cs), calls[1..]));
    }
  }

  lemma {:induction false} NoneEndsUnstamped(db: Db, calls: seq<Call>)
    requires forall call | call in calls :: !FailsAfterApproval(call)
    ensures !SomeEndsUnstamped(db, calls)
    decreases |calls|
  {
    if calls != [] {
      assert calls[0] in calls;
      NoneEndsUnstamped(Play(db, CommitsOf(db, calls[0])), calls[1..]);
    }
  }

  /** Every completed reservation has its one paid payment after a run, exactly when no call of the run
      was admitted, approved and completed and then failed before its stamp. */
  lemma TillBalancesExactly(db: Db, calls: seq<Call>)
    requires Sound(db) && UnsettledReservations(db) == {} && PossibleRun(db, calls)
    ensures var after := Play(db, History(db, calls));
            && (!SomeEndsUnstamped(db, calls) <==>
                forall rid | rid in after.reservations ::
                  after.reservations[rid].status == Completed <==> PaidOnce(after, rid))
            && (!SomeEndsUnstamped(db, calls) ==> PaidTotal(after) == SoldTotal(after))
  {
    var after := Play(db, History(db, calls));
    RunIsLegal(db, calls);
    if SomeEndsUnstamped(db, calls) {
      var rid :| rid in UnsettledReservations(after);
      assert !PaidOnce(after, rid);
    } else {
      SettledBooksBalance(after);
    }
  }

  /** Money conservation: after any run of calls without a failure after approval, the money stamped
      paid is exactly the price of the sold seats, and each completed reservation has exactly one
      paid payment. */
  lemma TillBalances(db: Db, calls: seq<Call>)
    requires Sound(db) && UnsettledReservations(db) == {} && PossibleRun(db, calls)
    requires forall call | call in calls :: !FailsAfterApproval(call)
    ensures var after := Play(db, History(db, calls));
            && PaidTotal(after) == SoldTotal(after)
            && forall rid | rid in after.reservations ::
                 after.reservations[rid].status == Completed <==> PaidOnce(after, rid)
  {
    NoneEndsUnstamped(db, calls);
    TillBalancesExactly(db, calls);
  }

  /** At any crash point of any run, however its calls fail: the ledger holds, money stamped paid never
      exceeds what was sold, a paid payment has a completed reservation, and whatever was sold by an
      earlier moment is still sold, to the same completed reservation and no other. */
  lemma CrashSafety(db: Db, calls: seq<Call>, i: nat, j: nat, x: SeatId)
    requires Sound(db) && PossibleRun(db, calls) && i <= j <= |History(db, calls)|
    ensures var was, later := Play(db, History(db, calls)[..i]), Play(db, History(db, calls)[..j]);
            && Ledger(later) && PaidTotal(later) <= SoldTotal(later)
            && (forall pid | pid in later.payments && later.payments[pid].status == Paid ::
                  var rid := later.payments[pid].reservation;
                  rid in later.reservations && later.reservations[rid].status == Completed)
            && Evolves(was, later) && StaysSold(was, later, x)
  {
    RunIsLegal(db, calls);
    EveryMomentIsSound(db, History(db, calls), j);
    NoDoubleBooking(db, History(db, calls), i, j, x);
    var later := Play(db, History(db, calls)[..j]);
    forall pid | pid in later.payments ensures Covers(later, later.payments[pid]) {}
  }
}
