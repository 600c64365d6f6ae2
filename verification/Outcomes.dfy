/** What each service call does and answers, said of the columns themselves: who is refused and why, who
    may close a reservation, where a payment row ends, what is sent. These laws do not go through the
    predicates the calls are specified with, and so say what those must mean. */
module Outcomes {
  import opened Wrappers
  import opened Sums
  import opened Booking
  import opened SeatLedger
  import opened Money
  import opened Histories
  import opened Calls
  import opened Runs
  import opened Replicas

  const FIVE_MINUTES: int := 300_000_000

  // ---- who is refused ---------------------------------------------------------------------

  /** Each answer to a hold, exactly. Only the same user's unexpired hold for the same event blocks. */
  lemma HoldIsRefusedExactly(db: Db, user: UserId, event: EventId, request: seq<SeatId>, checkAt: Instant, fate: Fate)
    ensures var verdict := HoldVerdict(db, user, event, request, checkAt, fate);
            var blocked := exists r | r in db.reservations ::
                             db.reservations[r].user == user && db.reservations[r].event == event
                             && db.reservations[r].status == Held && db.reservations[r].expiresAt > checkAt;
            var fits := NoDuplicates(request)
                        && forall x | x in request ::
                             x in db.seats && db.seats[x].event == event && db.seats[x].status == Available;
            && (verdict == Some(LockNotAcquired) <==> !fate.locked)
            && (verdict == Some(DuplicateReservation) <==> fate.locked && blocked)
            && (verdict == Some(SeatNotAvailable) <==> fate.locked && !blocked && !fits)
            && (verdict == Some(RedisUnavailable) <==> fate.locked && !blocked && fits && !fate.redisUp)
            && (verdict == Some(DatabaseUnavailable) <==>
                fate.locked && !blocked && fits && fate.redisUp && !fate.stored)
            && (verdict == None <==> fate.locked && !blocked && fits && fate.redisUp && fate.stored)
  {
    HoldSucceedsExactly(db, user, event, request, checkAt, fate.(redisUp := true, stored := true));
    BlockedExactly(db, user, event, checkAt);
  }

  lemma BlockedExactly(db: Db, user: UserId, event: EventId, at: Instant)
    ensures HasActiveHold(db, user, event, at) <==>
            exists r | r in db.reservations ::
              db.reservations[r].user == user && db.reservations[r].event == event
              && db.reservations[r].status == Held && db.reservations[r].expiresAt > at
  {
    if HasActiveHold(db, user, event, at) {
      var r :| r in db.reservations && ActiveHold(db.reservations[r], user, event, at);
      assert db.reservations[r].user == user;
    }
    if r :| r in db.reservations && db.reservations[r].user == user && db.reservations[r].event == event
            && db.reservations[r].status == Held && db.reservations[r].expiresAt > at {
      assert ActiveHold(db.reservations[r], user, event, at);
    }
  }

  /** Each answer to a cancellation, exactly. To anybody but the owner the reservation does not exist. */
  lemma CancelIsAnsweredExactly(db: Db, rid: ReservationId, user: UserId, fate: Fate)
    ensures var answer := ClosingAnswer(CancelRefusal(db, rid, user), fate);
            var mine := rid in db.reservations && db.reservations[rid].user == user;
            var open := mine && db.reservations[rid].status == Held;
            && (answer == Some(ReservationNotFound) <==> !mine)
            && (answer == Some(SeatNotAvailable) <==> mine && !open)
            && (answer == Some(LockNotAcquired) <==> open && !fate.locked)
            && (answer == Some(DatabaseUnavailable) <==> open && fate.locked && fate.unlocked && !fate.stored)
            && (answer == Some(RedisUnavailable) <==>
                open && fate.locked && (!fate.unlocked || (fate.stored && !fate.redisUp)))
            && (answer == None <==> open && fate.locked && fate.unlocked && fate.stored && fate.redisUp)
            && (Cancels(db, rid, user, fate) <==> open && fate.locked && fate.stored)
  {
  }

  /** The same for the completion. A reservation is too old strictly after its expiry. */
  lemma CompletionIsAnsweredExactly(db: Db, rid: ReservationId, now: Instant, fate: Fate)
    ensures var answer := ClosingAnswer(CompleteRefusal(db, rid, now), fate);
            var open := rid in db.reservations && db.reservations[rid].status == Held;
            var inTime := open && now <= db.reservations[rid].expiresAt;
            && (answer == Some(ReservationNotFound) <==> !open)
            && (answer == Some(ReservationExpired) <==> open && !inTime)
            && (answer == Some(LockNotAcquired) <==> inTime && !fate.locked)
            && (answer == Some(DatabaseUnavailable) <==> inTime && fate.locked && fate.unlocked && !fate.stored)
            && (answer == Some(RedisUnavailable) <==>
                inTime && fate.locked && (!fate.unlocked || (fate.stored && !fate.redisUp)))
            && (answer == None <==> inTime && fate.locked && fate.unlocked && fate.stored && fate.redisUp)
            && (Completes(db, rid, now, fate) <==> inTime && fate.locked && fate.stored)
  {
  }

  /** Each refusal of a payment before its row is created, exactly. */
  lemma PaymentIsRefusedExactly(db: Db, user: UserId, rid: ReservationId, amount: int, checkAt: Instant)
    ensures var verdict := PayVerdict(db, user, rid, amount, checkAt);
            var mine := rid in db.reservations && db.reservations[rid].user == user;
            var open := mine && db.reservations[rid].status == Held;
            var inTime := open && checkAt <= db.reservations[rid].expiresAt;
            && (verdict == Some(ReservationNotFound) <==> !mine)
            && (verdict == Some(BusinessRule) <==> mine && !open)
            && (verdict == Some(ReservationExpired) <==> open && !inTime)
            && (verdict == Some(AmountMismatch) <==> inTime && amount != Price(db.seats, db.reservations[rid].seats))
            && (verdict == None <==> inTime && amount == Price(db.seats, db.reservations[rid].seats))
  {
  }

  /** What the gateway's answer leads to. A payment is answered as made exactly when it was approved and
      completed and nothing failed; a declined one that was recorded as such is a broken business rule. */
  lemma ChargeIsAnsweredExactly(db: Db, payment: Payment, approved: bool, completeAt: Instant, fate: Fate)
    requires payment.reservation in db.reservations && db.reservations[payment.reservation].status == Held
    ensures var answer := ChargeAnswer(db, payment, approved, completeAt, fate);
            var inTime := completeAt <= db.reservations[payment.reservation].expiresAt;
            && (answer.Ok? <==>
                approved && inTime && fate.locked && fate.stored && fate.redisUp && fate.unlocked && fate.stamped)
            && (answer.Ok? ==> answer.value == payment.(status := Paid))
            && (answer == Err(BusinessRule) <==> !approved && fate.stamped)
            && (answer == Err(ReservationExpired) <==> approved && !inTime)
  {
  }

  /** What the listed seats cost: each existing seat's own price, once. */
  lemma PriceIsTheSum(seats: map<SeatId, Seat>, listed: seq<SeatId>, x: SeatId)
    ensures Price(seats, []) == 0
    ensures Price(seats, listed + [x]) ==
            Price(seats, listed) + if x in seats && x !in listed then seats[x].price else 0
  {
    assert Elements<SeatId>([]) * seats.Keys == {};
    assert Elements(listed + [x]) == Elements(listed) + {x};
    if x in seats && x !in listed {
      assert Elements(listed + [x]) * seats.Keys == Elements(listed) * seats.Keys + {x};
      TotalAdd(Elements(listed) * seats.Keys, Prices(seats), x);
    } else {
      assert Elements(listed + [x]) * seats.Keys == Elements(listed) * seats.Keys;
    }
  }

  // ---- what a call changes ----------------------------------------------------------------

  ghost function DbAfterCall(db: Db, call: Call): Db {
    Play(db, CommitsOf(db, call))
  }

  /** A hold that goes through makes the reservation it was asked for, for five minutes, and puts exactly
      its seats on hold; one that does not changes nothing. */
  lemma HoldWritesExactly(db: Db, call: Call)
    requires call.HoldSeats? && Possible(db, call)
    ensures var after, until := DbAfterCall(db, call), call.writeAt + FIVE_MINUTES;
            if HoldVerdict(db, call.user, call.event, call.request, call.checkAt, call.fate) != None then after == db
            else
              && after.payments == db.payments && after.seats.Keys == db.seats.Keys
              && after.reservations ==
                 db.reservations[call.rid := Reservation(call.user, call.event, call.rows, Held, until)]
              && Elements(call.rows) == Elements(call.request)
              && forall x | x in db.seats ::
                   after.seats[x] == if x !in call.request then db.seats[x]
                                     else Seat(db.seats[x].event, db.seats[x].price, Hold, Some(call.user), Some(until))
  {
    if CommitsOf(db, call) != [] {
      HoldSucceedsExactly(db, call.user, call.event, call.request, call.checkAt, call.fate);
      OneCommit(db, HoldC(call.rid, call.user, call.event, call.rows, call.writeAt + HOLD_MICROS));
      forall x ensures x in call.rows <==> x in call.request {
        assert x in Elements(call.rows) <==> x in Matching(db, call.event, call.request);
      }
    }
  }

  /** Who may cancel a held reservation: its owner; a sweep strictly after its expiry; a release of its
      own user. Each does, if its section can commit. */
  ghost predicate CancelledBy(db: Db, call: Call, rid: ReservationId)
    requires rid in db.reservations
  {
    match call
    case HoldSeats(_, _, _, _, _, _, _, _, _) => false
    case CancelReservation(cancelled, user, fate) =>
      cancelled == rid && user == db.reservations[rid].user && fate.locked && fate.stored
    case ReleaseExpiredHolds(now, _, fates) =>
      db.reservations[rid].expiresAt < now && fates(rid).locked && fates(rid).stored
    case ReleaseUserHolds(user, _, fates) =>
      user == db.reservations[rid].user && fates(rid).locked && fates(rid).stored
    case ProcessPayment(_, _, _, _, _, _, _, _) => false
  }

  /** Who may complete one: its owner, paying its price, found in time at the first test and at the last,
      with the gateway's approval. */
  ghost predicate CompletedBy(db: Db, call: Call, rid: ReservationId)
    requires rid in db.reservations
  {
    && call.ProcessPayment? && call.paidFor == rid && call.user == db.reservations[rid].user
    && call.amount == Price(db.seats, db.reservations[rid].seats) && call.approved
    && call.checkAt <= db.reservations[rid].expiresAt && call.completeAt <= db.reservations[rid].expiresAt
    && call.fate.recorded && call.fate.locked && call.fate.stored
  }

  /** The fate of every reservation in every call, both ways: it is cancelled exactly by those who may
      cancel it, completed exactly by those who may complete it, and otherwise stays as it is. */
  lemma ReservationsMoveExactly(db: Db, call: Call, rid: ReservationId)
    requires Sound(db) && Possible(db, call) && rid in db.reservations
    ensures var was, after := db.reservations[rid], DbAfterCall(db, call);
            && rid in after.reservations
            && after.reservations[rid] ==
               if was.status != Held then was
               else if CancelledBy(db, call, rid) then was.(status := Cancelled)
               else if CompletedBy(db, call, rid) then was.(status := Completed)
               else was
  {
    match call
    case HoldSeats(_, _, _, _, _, _, _, _, _) => HoldWritesExactly(db, call);
    case CancelReservation(cancelled, user, fate) =>
      CancelIsAnsweredExactly(db, cancelled, user, fate);
      OneCommit(db, CloseC(cancelled, false));
    case ReleaseExpiredHolds(now, snapshot, fates) =>
      ReleaseMovesExactly(db, snapshot, fates, rid);
      assert rid in snapshot <==> rid in Elements(snapshot);
    case ReleaseUserHolds(user, snapshot, fates) =>
      ReleaseMovesExactly(db, snapshot, fates, rid);
      assert rid in snapshot <==> rid in Elements(snapshot);
    case ProcessPayment(_, _, _, _, _, _, _, _) => PaymentMovesExactly(db, call, rid);
  }

  lemma OneCommit(db: Db, c: Commit)
    ensures Play(db, [c]) == Apply(db, c)
  {
    assert [c][1..] == [];
  }

  lemma ReleaseMovesExactly(db: Db, snapshot: seq<ReservationId>, fates: ReservationId -> Fate, rid: ReservationId)
    requires Sound(db) && rid in db.reservations
    ensures var b := Broker(map[], {}, {}, []);
            var after := Play(db, ReleaseAll(Began(db, b), snapshot, fates).commits);
            && rid in after.reservations
            && after.reservations[rid] ==
               if db.reservations[rid].status == Held && rid in snapshot && fates(rid).locked && fates(rid).stored
               then db.reservations[rid].(status := Cancelled) else db.reservations[rid]
  {
    var b := Broker(map[], {}, {}, []);
    ReleaseIsLegal(db, b, snapshot, fates);
    ReleaseTouches(db, b, snapshot, fates, rid);
  }

  // ---- where a payment row ends -----------------------------------------------------------

  ghost predicate Admitted(db: Db, call: Call) {
    && call.ProcessPayment? && call.fate.recorded
    && PayVerdict(db, call.user, call.paidFor, call.amount, call.checkAt) == None
  }

  /** Declined: failed. Approved and completed with nothing failing on the way: paid. Otherwise the row
      stays pending. */
  ghost function RowAfter(db: Db, call: Call): PaymentStatus
    requires Admitted(db, call)
  {
    if !call.approved then (if call.fate.stamped then Failed else Pending)
    else
      var nothingFails := call.fate.redisUp && call.fate.unlocked && call.fate.stamped;
      if CompletedBy(db, call, call.paidFor) && nothingFails then Paid else Pending
  }

  /** Everything a payment writes. A decline touches no seat and no reservation. */
  lemma PaymentWritesExactly(db: Db, call: Call)
    requires call.ProcessPayment? && Sound(db) && Possible(db, call)
    ensures var after := DbAfterCall(db, call);
            if !Admitted(db, call) then after == db
            else
              && after.payments ==
                 db.payments[call.pid := Payment(call.paidFor, call.user, call.amount, RowAfter(db, call))]
              && (if CompletedBy(db, call, call.paidFor)
                  then
                    after.reservations ==
                    db.reservations[call.paidFor := db.reservations[call.paidFor].(status := Completed)]
                  else after.reservations == db.reservations && after.seats == db.seats)
  {
    PaymentIsRefusedExactly(db, call.user, call.paidFor, call.amount, call.checkAt);
    if Admitted(db, call) {
      var opening := OpenC(call.pid, Payment(call.paidFor, call.user, call.amount, Pending));
      var pending := Apply(db, opening);
      var rest := ChargeCommits(db, call.paidFor, call.pid, call.approved, call.completeAt, call.fate);
      assert CommitsOf(db, call) == [opening] + rest;
      assert ([opening] + rest)[1..] == rest;
      CompletionIsAnsweredExactly(db, call.paidFor, call.completeAt, call.fate);
      ChargeWritesExactly(pending, call.paidFor, call.pid, call.approved, call.completeAt, call.fate, rest);
    }
  }

  lemma ChargeWritesExactly(db: Db, rid: ReservationId, pid: PaymentId, approved: bool, completeAt: Instant,
                            fate: Fate, cs: seq<Commit>)
    requires rid in db.reservations && pid in db.payments
    requires cs == ChargeCommits(db, rid, pid, approved, completeAt, fate)
    ensures var after, completes := Play(db, cs), approved && Completes(db, rid, completeAt, fate);
            && after.payments == db.payments[pid := db.payments[pid].(status :=
                 if !approved then (if fate.stamped then Failed else db.payments[pid].status)
                 else if completes && fate.redisUp && fate.unlocked && fate.stamped then Paid
                 else db.payments[pid].status)]
            && (if completes
                then after.reservations == db.reservations[rid := db.reservations[rid].(status := Completed)]
                else after.reservations == db.reservations && after.seats == db.seats)
  {
    if |cs| == 1 {
      assert cs == [cs[0]];
      OneCommit(db, cs[0]);
    } else if |cs| == 2 {
      assert cs[1..] == [cs[1]];
      OneCommit(Apply(db, cs[0]), cs[1]);
    }
  }

  lemma PaymentMovesExactly(db: Db, call: Call, rid: ReservationId)
    requires call.ProcessPayment? && Sound(db) && Possible(db, call) && rid in db.reservations
    ensures var was, after := db.reservations[rid], DbAfterCall(db, call);
            && rid in after.reservations
            && after.reservations[rid] ==
               if was.status == Held && CompletedBy(db, call, rid) then was.(status := Completed) else was
  {
    PaymentWritesExactly(db, call);
    PaymentIsRefusedExactly(db, call.user, call.paidFor, call.amount, call.checkAt);
  }

  lemma OthersLeavePayments(db: Db, call: Call)
    requires Sound(db) && Possible(db, call) && !call.ProcessPayment?
    ensures DbAfterCall(db, call).payments == db.payments
  {
    match call
    case HoldSeats(_, _, _, _, _, _, _, _, _) => HoldWritesExactly(db, call);
    case CancelReservation(cancelled, _, _) => OneCommit(db, CloseC(cancelled, false));
    case ReleaseExpiredHolds(_, snapshot, fates) => ReleaseLeavesPayments(db, snapshot, fates);
    case ReleaseUserHolds(_, snapshot, fates) => ReleaseLeavesPayments(db, snapshot, fates);
  }

  lemma ReleaseLeavesPayments(db: Db, snapshot: seq<ReservationId>, fates: ReservationId -> Fate)
    requires Sound(db)
    ensures Play(db, ReleaseAll(Began(db, Broker(map[], {}, {}, [])), snapshot, fates).commits).payments == db.payments
  {
    ReleaseIsLegal(db, Broker(map[], {}, {}, []), snapshot, fates);
    ReleaseKeepsPayments(db, Broker(map[], {}, {}, []), snapshot, fates);
  }

  lemma {:induction false} ReleaseKeepsPayments(db: Db, b: Broker, snapshot: seq<ReservationId>,
                                                fates: ReservationId -> Fate)
    ensures ReleaseAll(Began(db, b), snapshot, fates).db.payments == db.payments
    decreases |snapshot|
  {
    if snapshot != [] { ReleaseKeepsPayments(db, b, snapshot[..|snapshot| - 1], fates); }
  }

  ghost function PendingRows(db: Db): set<PaymentId> {
    set pid | pid in db.payments && db.payments[pid].status == Pending
  }

  /** The rows the calls of a run leave pending. */
  ghost function LeftPending(db: Db, calls: seq<Call>): set<PaymentId>
    decreases |calls|
  {
    if calls == [] then {}
    else
      (if Admitted(db, calls[0]) && RowAfter(db, calls[0]) == Pending then {calls[0].pid} else {})
      + LeftPending(DbAfterCall(db, calls[0]), calls[1..])
  }

  lemma PendingMovesExactly(db: Db, call: Call)
    requires Sound(db) && Possible(db, call)
    ensures PendingRows(DbAfterCall(db, call)) ==
            PendingRows(db) + if Admitted(db, call) && RowAfter(db, call) == Pending then {call.pid} else {}
  {
    if call.ProcessPayment? { PaymentWritesExactly(db, call); } else { OthersLeavePayments(db, call); }
  }

  /** After a run, pending are exactly the rows that were and those of admitted payments that were neither
      recorded as declined nor completed and stamped. */
  lemma {:induction false} RunLeavesPendingExactly(db: Db, calls: seq<Call>)
    requires Sound(db) && PossibleRun(db, calls)
    ensures PendingRows(Play(db, History(db, calls))) == PendingRows(db) + LeftPending(db, calls)
    decreases |calls|
  {
    if calls == [] {
    } else {
      var cs, next := CommitsOf(db, calls[0]), DbAfterCall(db, calls[0]);
      PendingMovesExactly(db, calls[0]);
      CallKeepsSound(db, calls[0]);
      RunLeavesPendingExactly(next, calls[1..]);
      LegalSplits(db, cs, History(next, calls[1..]));
    }
  }

  // ---- who closes a reservation over a whole run ------------------------------------------

  /** The database the `i`th call of a run finds. */
  ghost function FoundBy(db: Db, calls: seq<Call>, i: nat): Db
    requires i < |calls|
    decreases i
  {
    if i == 0 then db else FoundBy(DbAfterCall(db, calls[0]), calls[1..], i - 1)
  }

  ghost predicate CancelledAt(db: Db, calls: seq<Call>, i: nat, rid: ReservationId) {
    i < |calls|
    && var found := FoundBy(db, calls, i);
       rid in found.reservations && found.reservations[rid].status == Held && CancelledBy(found, calls[i], rid)
  }

  ghost predicate CompletedAt(db: Db, calls: seq<Call>, i: nat, rid: ReservationId) {
    i < |calls|
    && var found := FoundBy(db, calls, i);
       rid in found.reservations && found.reservations[rid].status == Held && CompletedBy(found, calls[i], rid)
  }

  lemma LaterAt(db: Db, calls: seq<Call>, i: nat, rid: ReservationId)
    requires calls != []
    ensures CancelledAt(db, calls, i + 1, rid) <==> CancelledAt(DbAfterCall(db, calls[0]), calls[1..], i, rid)
    ensures CompletedAt(db, calls, i + 1, rid) <==> CompletedAt(DbAfterCall(db, calls[0]), calls[1..], i, rid)
  {
  }

  /** Over any run: a reservation ends cancelled exactly if it was, or some call that may cancel it found it
      held; and completed exactly if it was, or its owner's payment found it held. */
  lemma {:induction false} RunClosesExactly(db: Db, calls: seq<Call>, rid: ReservationId)
    requires Sound(db) && PossibleRun(db, calls) && rid in db.reservations
    ensures var was, after := db.reservations[rid], Play(db, History(db, calls));
            && rid in after.reservations && after.reservations[rid] == was.(status := after.reservations[rid].status)
            && (after.reservations[rid].status == Cancelled <==>
                was.status == Cancelled || exists i: nat :: CancelledAt(db, calls, i, rid))
            && (after.reservations[rid].status == Completed <==>
                was.status == Completed || exists i: nat :: CompletedAt(db, calls, i, rid))
    decreases |calls|
  {
    if calls == [] {
    } else {
      var cs, next := CommitsOf(db, calls[0]), DbAfterCall(db, calls[0]);
      ReservationsMoveExactly(db, calls[0], rid);
      CallKeepsSound(db, calls[0]);
      RunClosesExactly(next, calls[1..], rid);
      LegalSplits(db, cs, History(next, calls[1..]));
      ClosingsSplit(db, calls, rid);
    }
  }

  lemma ClosingsSplit(db: Db, calls: seq<Call>, rid: ReservationId)
    requires calls != []
    ensures var next := DbAfterCall(db, calls[0]);
            && ((exists i: nat :: CancelledAt(db, calls, i, rid)) <==>
                CancelledAt(db, calls, 0, rid) || exists i: nat :: CancelledAt(next, calls[1..], i, rid))
            && ((exists i: nat :: CompletedAt(db, calls, i, rid)) <==>
                CompletedAt(db, calls, 0, rid) || exists i: nat :: CompletedAt(next, calls[1..], i, rid))
  {
    var next := DbAfterCall(db, calls[0]);
    if i: nat :| i > 0 && CancelledAt(db, calls, i, rid) { LaterAt(db, calls, i - 1, rid); }
    if i: nat :| i > 0 && CompletedAt(db, calls, i, rid) { LaterAt(db, calls, i - 1, rid); }
    if i: nat :| CancelledAt(next, calls[1..], i, rid) {
      LaterAt(db, calls, i, rid);
      assert CancelledAt(db, calls, i + 1, rid);
    }
    if i: nat :| CompletedAt(next, calls[1..], i, rid) {
      LaterAt(db, calls, i, rid);
      assert CompletedAt(db, calls, i + 1, rid);
    }
  }

  // ---- what is sent, and which cached lists go --------------------------------------------

  /** One reservation closed: a message for its rows, exactly if the section got so far. */
  ghost function ClosingMessages(db: Db, rid: ReservationId, status: SeatStatus, fate: Fate): seq<Message>
    requires rid in db.reservations
  {
    var r := db.reservations[rid];
    if fate.locked && fate.stored && fate.redisUp && fate.published
    then [Message(r.event, (set x | x in r.seats && x in db.seats), status)] else []
  }

  /** Redis after sending `messages`: each drops both cached lists of its event, and no other. */
  ghost predicate SentAndDropped(b: Broker, after: Broker, messages: seq<Message>) {
    && after.sent == b.sent + messages
    && (forall e :: e in after.allCached <==> e in b.allCached && forall m | m in messages :: m.event != e)
    && (forall e :: e in after.availableCached <==> e in b.availableCached && forall m | m in messages :: m.event != e)
  }

  /** Redis with the keys of the `listed` seats of an event set to `key`, and no other key touched. */
  ghost predicate KeysSet(b: Broker, after: Broker, event: EventId, listed: seq<SeatId>, key: HoldKey) {
    && (forall k :: k in after.holdKeys <==> k in b.holdKeys || (k.0 == event && k.1 in listed))
    && (forall k | k in after.holdKeys ::
          after.holdKeys[k] == if k.0 == event && k.1 in listed then key else b.holdKeys[k])
  }

  /** Redis without the keys of the rows of `r`, and no other key touched. */
  ghost predicate KeysDropped(b: Broker, after: Broker, db: Db, r: Reservation) {
    && (forall k :: k in after.holdKeys <==> k in b.holdKeys && !(k.0 == r.event && k.1 in r.seats && k.1 in db.seats))
    && (forall k | k in after.holdKeys :: after.holdKeys[k] == b.holdKeys[k])
  }

  /** The keys are set before the commit: a commit that fails leaves them. */
  lemma HoldSetsKeysExactly(b: Broker, db: Db, call: Call)
    requires call.HoldSeats?
    ensures var verdict := HoldVerdict(db, call.user, call.event, call.request, call.checkAt, call.fate);
            var after := BrokerAfter(b, db, call);
            if verdict == None || verdict == Some(DatabaseUnavailable)
            then KeysSet(b, after, call.event, call.request, HoldKey(call.user, call.keyAt + FIVE_MINUTES))
            else after.holdKeys == b.holdKeys
  {
    var key := HoldKey(call.user, call.keyAt + FIVE_MINUTES);
    var after := SetKeys(b, call.event, Elements(call.request), HoldKey(call.user, call.keyAt + SEAT_HOLD_TTL));
    forall k: (EventId, SeatId)
      ensures k in after.holdKeys <==> k in b.holdKeys || (k.0 == call.event && k.1 in call.request)
      ensures k in after.holdKeys ==>
                after.holdKeys[k] == if k.0 == call.event && k.1 in call.request then key else b.holdKeys[k]
    {
      assert k == (k.0, k.1) && (k.1 in call.request <==> k.1 in Elements(call.request));
    }
  }

  /** A closing that has committed drops its rows' keys, or none where Redis fails. */
  lemma CloseDropsKeysExactly(b: Broker, db: Db, rid: ReservationId, sold: bool, fate: Fate)
    requires rid in db.reservations
    ensures var after := AfterClose(b, db, rid, sold, fate);
            if fate.redisUp then KeysDropped(b, after, db, db.reservations[rid]) else after == b
  {
  }

  lemma HoldSendsExactly(b: Broker, db: Db, call: Call)
    requires call.HoldSeats?
    ensures var verdict := HoldVerdict(db, call.user, call.event, call.request, call.checkAt, call.fate);
            SentAndDropped(b, BrokerAfter(b, db, call),
              if verdict == None && call.fate.published
              then [Message(call.event, (set x | x in call.request), Hold)] else [])
  {
  }

  lemma CancelSendsExactly(b: Broker, db: Db, call: Call)
    requires call.CancelReservation?
    ensures var rid := call.cancelled;
            SentAndDropped(b, BrokerAfter(b, db, call),
              if rid in db.reservations && db.reservations[rid].user == call.user && db.reservations[rid].status == Held
              then ClosingMessages(db, rid, Available, call.fate) else [])
  {
    CancelIsAnsweredExactly(db, call.cancelled, call.user, call.fate);
  }

  lemma PaymentSendsExactly(b: Broker, db: Db, call: Call)
    requires call.ProcessPayment?
    ensures SentAndDropped(b, BrokerAfter(b, db, call),
              if Admitted(db, call) && CompletedBy(db, call, call.paidFor)
              then ClosingMessages(db, call.paidFor, Sold, call.fate) else [])
  {
    PaymentIsRefusedExactly(db, call.user, call.paidFor, call.amount, call.checkAt);
    if Admitted(db, call) { CompletionIsAnsweredExactly(db, call.paidFor, call.completeAt, call.fate); }
  }

  /** One round of a release loop: what it sends and what it counts. */
  lemma ReleaseSendsExactly(p: Progress, rid: ReservationId, fate: Fate)
    ensures var after := ReleaseOne(p, rid, fate);
            var held := rid in p.db.reservations && p.db.reservations[rid].status == Held;
            && SentAndDropped(p.broker, after.broker, if held then ClosingMessages(p.db, rid, Available, fate) else [])
            && after.released == p.released + if held && fate.locked && fate.stored && fate.redisUp
                 then |set x | x in p.db.reservations[rid].seats && x in p.db.seats| else 0
  {
    if rid in p.db.reservations {
      var listed := p.db.reservations[rid].seats;
      assert Existing(p.db, listed) == set x | x in listed && x in p.db.seats;
    }
  }
}
