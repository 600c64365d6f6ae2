/** The reservation and payment services, in the order the code takes its steps. */
module Services {
  import opened Wrappers
  import opened Booking
  import opened SeatLedger
  import opened Histories
  import opened Calls
  import opened Stores

  datatype Response = Response(reservation: Reservation, total: nat)

  function HoldOf(rid: ReservationId, r: Reservation): Commit {
    HoldC(rid, r.user, r.event, r.seats, r.expiresAt)
  }

  /** What the section of a hold did to the database, and answered. */
  ghost predicate HoldMade(was: Db, now: Db, user: UserId, event: EventId, request: seq<SeatId>, rid: ReservationId,
                           checkAt: Instant, writeAt: Instant, fate: Fate, answer: Result<Response, Error>)
  {
    match HoldVerdict(was, user, event, request, checkAt, fate)
    case Some(error) => answer == Err(error) && now == was
    case None =>
      && answer.Ok?
      && var held := answer.value.reservation;
      && held == Reservation(user, event, held.seats, Held, writeAt + HOLD_MICROS)
      && Enumerates(held.seats, Elements(request))
      && answer.value.total == Price(was.seats, request)
      && now == Apply(was, HoldOf(rid, held))
  }

  class ReservationService {
    const db: Session
    const r: Redis

    constructor (db: Session, r: Redis)
      ensures this.db == db && this.r == r
    {
      this.db, this.r := db, r;
    }

    /** `rid` is the primary key the new row gets; `checkAt` and `writeAt` are the two clock readings,
        `keyAt` is when Redis gets the keys. `section` is what the section itself answered. */
    method HoldSeats(user: UserId, event: EventId, request: seq<SeatId>, rid: ReservationId,
                     checkAt: Instant, writeAt: Instant, keyAt: Instant, fate: Fate)
      returns (result: Result<Response, Error>, ghost section: Result<Response, Error>)
      requires db.Valid() && rid !in db.committed.reservations
      modifies db, r
      ensures db.Valid()
      ensures HoldMade(old(db.committed), db.committed, user, event, request, rid, checkAt, writeAt, fate, section)
      ensures db.journal == old(db.journal) + if section.Ok? then [HoldOf(rid, section.value.reservation)] else []
      ensures var verdict := HoldVerdict(old(db.committed), user, event, request, checkAt, fate);
              r.View() == AfterHold(old(r.View()), verdict, event, request, HoldKey(user, keyAt + SEAT_HOLD_TTL), fate)
      ensures result == if fate.locked && !fate.unlocked then Err(RedisUnavailable) else section
    {
      if !fate.locked { return Err(LockNotAcquired), Err(LockNotAcquired); }
      result := HoldSection(user, event, request, rid, checkAt, writeAt, keyAt, fate);
      section := result;
      if !fate.unlocked { return Err(RedisUnavailable), section; }
    }

    /** The block inside the lock. */
    method HoldSection(user: UserId, event: EventId, request: seq<SeatId>, rid: ReservationId,
                       checkAt: Instant, writeAt: Instant, keyAt: Instant, fate: Fate)
      returns (result: Result<Response, Error>)
      requires fate.locked && db.Valid() && rid !in db.committed.reservations
      modifies db, r
      ensures db.Valid()
      ensures HoldMade(old(db.committed), db.committed, user, event, request, rid, checkAt, writeAt, fate, result)
      ensures db.journal == old(db.journal) + if result.Ok? then [HoldOf(rid, result.value.reservation)] else []
      ensures var verdict := HoldVerdict(old(db.committed), user, event, request, checkAt, fate);
              r.View() == AfterHold(old(r.View()), verdict, event, request, HoldKey(user, keyAt + SEAT_HOLD_TTL), fate)
    {
      HoldSucceedsExactly(db.committed, user, event, request, checkAt, fate.(redisUp := true, stored := true));
      if HasActiveHold(db.rows, user, event, checkAt) { return Err(DuplicateReservation); }
      var seats := db.Select(Matching(db.rows, event, request));
      LengthOfElements(seats);
      if |seats| != |request| { return Err(SeatNotAvailable); }
      assert forall x | x in seats :: x in Elements(seats);
      if exists x | x in seats :: db.rows.seats[x].status != Available {
        return Err(SeatNotAvailable);
      }
      assert forall x | x in Matching(db.rows, event, request) :: x in Elements(seats) && x in seats;
      assert Elements(request) == Matching(db.rows, event, request);
      var reservation := Reservation(user, event, seats, Held, writeAt + HOLD_MICROS);
      assert Price(db.rows.seats, seats) == Price(db.rows.seats, request);
      var total := db.SumPrices(seats);
      var raised := WriteHold(rid, reservation, keyAt, fate);
      if raised.Some? { return Err(raised.value); }
      return Ok(Response(reservation, total));
    }

    /** From the seat loop on: write the rows, create the reservation, set the keys, commit, publish. */
    method WriteHold(rid: ReservationId, reservation: Reservation, keyAt: Instant, fate: Fate)
      returns (raised: Option<Error>)
      requires fate.locked && db.Valid() && Enabled(db.committed, HoldOf(rid, reservation))
          && reservation.status == Held
      modifies db, r
      ensures db.Valid()
      ensures raised == if !fate.redisUp then Some(RedisUnavailable)
                        else if !fate.stored then Some(DatabaseUnavailable) else None
      ensures db.committed == if raised == None then Apply(old(db.committed), HoldOf(rid, reservation))
          else old(db.committed)
      ensures db.journal == old(db.journal) + if raised == None then [HoldOf(rid, reservation)] else []
      ensures r.View() == AfterHold(old(r.View()), raised, reservation.event, reservation.seats,
                                    HoldKey(reservation.user, keyAt + SEAT_HOLD_TTL), fate)
    {
      var seats := reservation.seats;
      db.WriteRows(seats, Hold, Some(reservation.user), Some(reservation.expiresAt));
      db.rows := db.rows.(reservations := db.rows.reservations[rid := reservation]);
      if !fate.redisUp {
        db.Rollback();
        return Some(RedisUnavailable);
      }
      r.SetHoldKeys(reservation.event, seats, reservation.user, keyAt);
      if !fate.stored {
        db.Rollback();
        return Some(DatabaseUnavailable);
      }
      db.Commit(HoldOf(rid, reservation));
      r.PublishSeatUpdate(reservation.event, seats, Hold, fate.published);
      return None;
    }

    /** The section shared by all four ways a reservation is closed: select its seats, write them,
        set the status, commit, drop the hold keys, publish. Returns the number of rows, their price,
        and the error it raised, if any: before the commit, which then did not happen, or after it. */
    method CloseHeld(rid: ReservationId, sold: bool, fate: Fate) returns (rows: nat, total: nat, raised: Option<Error>)
      requires fate.locked && db.Valid() && Enabled(db.committed, CloseC(rid, sold))
      modifies db, r
      ensures db.Valid()
      ensures db.committed == if Commits(fate) then CloseCommit(old(db.committed), rid, sold) else old(db.committed)
      ensures db.journal == old(db.journal) + if Commits(fate) then [CloseC(rid, sold)] else []
      ensures r.View() == if Commits(fate) then AfterClose(old(r.View()), old(db.committed), rid, sold, fate)
          else old(r.View())
      ensures rows == |Existing(old(db.committed), old(db.committed).reservations[rid].seats)|
      ensures total == Price(old(db.committed).seats, old(db.committed).reservations[rid].seats)
      ensures raised == ClosingError(fate)
    {
      var reservation := db.rows.reservations[rid];
      var seats := db.Select(Existing(db.rows, reservation.seats));
      assert forall x | x in seats :: x in Elements(seats);
      total := db.SumPrices(seats);
      assert Elements(seats) * db.rows.seats.Keys == Elements(reservation.seats) * db.rows.seats.Keys;
      LengthOfElements(seats);
      rows := |seats|;
      ghost var was := db.rows;
      db.WriteRows(seats, if sold then Sold else Available, None, None);
      SameWrites(was.seats, seats, reservation.seats, if sold then Sold else Available);
      var closed := reservation.(status := if sold then Completed else Cancelled);
      db.rows := db.rows.(reservations := db.rows.reservations[rid := closed]);
      if !fate.stored {
        db.Rollback();
        return rows, total, Some(DatabaseUnavailable);
      }
      db.Commit(CloseC(rid, sold));
      if !fate.redisUp { return rows, total, Some(RedisUnavailable); }
      r.DeleteHoldKeys(reservation.event, seats);
      r.PublishSeatUpdate(reservation.event, seats, if sold then Sold else Available, fate.published);
      return rows, total, None;
    }

    method CancelReservation(rid: ReservationId, user: UserId, fate: Fate) returns (result: Result<Response, Error>)
      requires db.Valid()
      modifies db, r
      ensures db.Valid()
      ensures var was, cancels := old(db.committed), Cancels(old(db.committed), rid, user, fate);
              && db.committed == (if cancels then CloseCommit(was, rid, false) else was)
              && db.journal == old(db.journal) + (if cancels then [CloseC(rid, false)] else [])
              && r.View() == (if cancels then AfterClose(old(r.View()), was, rid, false, fate) else old(r.View()))
      ensures match ClosingAnswer(CancelRefusal(old(db.committed), rid, user), fate)
              case Some(error) => result == Err(error)
              case None =>
                result == Ok(Response(db.committed.reservations[rid],
                                      Price(old(db.committed).seats, old(db.committed).reservations[rid].seats)))
    {
      if rid !in db.rows.reservations { return Err(ReservationNotFound); }
      if db.rows.reservations[rid].user != user { return Err(ReservationNotFound); }
      if db.rows.reservations[rid].status != Held { return Err(SeatNotAvailable); }
      if !fate.locked { return Err(LockNotAcquired); }
      var _, total, raised := CloseHeld(rid, false, fate);
      if !fate.unlocked { return Err(RedisUnavailable); }
      if raised.Some? { return Err(raised.value); }
      return Ok(Response(db.rows.reservations[rid], total));
    }

    method CompleteReservation(rid: ReservationId, now: Instant, fate: Fate)
      returns (result: Result<Reservation, Error>)
      requires db.Valid()
      modifies db, r
      ensures db.Valid()
      ensures var was, completes := old(db.committed), Completes(old(db.committed), rid, now, fate);
              && db.committed == (if completes then CloseCommit(was, rid, true) else was)
              && db.journal == old(db.journal) + (if completes then [CloseC(rid, true)] else [])
              && r.View() == (if completes then AfterClose(old(r.View()), was, rid, true, fate) else old(r.View()))
      ensures match ClosingAnswer(CompleteRefusal(old(db.committed), rid, now), fate)
              case Some(error) => result == Err(error)
              case None => result == Ok(db.committed.reservations[rid])
    {
      if rid !in db.rows.reservations || db.rows.reservations[rid].status != Held { return Err(ReservationNotFound); }
      if db.rows.reservations[rid].expiresAt < now { return Err(ReservationExpired); }
      if !fate.locked { return Err(LockNotAcquired); }
      var _, _, raised := CloseHeld(rid, true, fate);
      if !fate.unlocked { return Err(RedisUnavailable); }
      if raised.Some? { return Err(raised.value); }
      return Ok(db.rows.reservations[rid]);
    }

    /** One round of the loop: look again inside the lock, close what is still held, and count its rows
        unless something failed. */
    method ReleaseHeld(ghost p: Progress, rid: ReservationId, fate: Fate) returns (counted: nat)
      requires db.Valid() && db.committed == p.db && r.View() == p.broker
      modifies db, r
      ensures db.Valid()
      ensures var after := ReleaseOne(p, rid, fate);
              db.committed == after.db && r.View() == after.broker && p.released + counted == after.released
      ensures db.journal == old(db.journal) + if Releases(p.db, rid, fate) then [CloseC(rid, false)] else []
    {
      counted := 0;
      if !fate.locked { return; }
      var raised: Option<Error> := None;
      if rid in db.rows.reservations && db.rows.reservations[rid].status == Held {
        var rows, _, error := CloseHeld(rid, false, fate);
        if error.None? { counted := rows; }
        raised := error;
      }
      if raised.Some? || !fate.unlocked { db.Rollback(); }
    }

    /** The loop of both release methods; a failing reservation is skipped, the rest go on. */
    method ReleaseEach(snapshot: seq<ReservationId>, fates: ReservationId -> Fate) returns (released: nat)
      requires db.Valid()
      modifies db, r
      ensures db.Valid()
      ensures var p := ReleaseAll(Began(old(db.committed), old(r.View())), snapshot, fates);
              && db.committed == p.db && r.View() == p.broker && released == p.released
              && db.journal == old(db.journal) + p.commits
    {
      ghost var start := Began(db.committed, r.View());
      ghost var p := start;
      released := 0;
      var i := 0;
      while i < |snapshot|
        invariant 0 <= i <= |snapshot| && db.Valid()
        invariant p == ReleaseAll(start, snapshot[..i], fates)
        invariant db.committed == p.db && r.View() == p.broker && released == p.released
        invariant db.journal == old(db.journal) + p.commits
      {
        var rid := snapshot[i];
        ReleaseNext(start, snapshot, fates, i);
        var rows := ReleaseHeld(p, rid, fates(rid));
        released := released + rows;
        p := ReleaseOne(p, rid, fates(rid));
        i := i + 1;
      }
      assert snapshot[..i] == snapshot;
    }

    method ReleaseExpiredHolds(now: Instant, fates: ReservationId -> Fate)
      returns (released: nat, ghost snapshot: seq<ReservationId>)
      requires db.Valid()
      modifies db, r
      ensures db.Valid()
      ensures Enumerates(snapshot, ExpiredHeld(old(db.committed), now))
      ensures var p := ReleaseAll(Began(old(db.committed), old(r.View())), snapshot, fates);
              && db.committed == p.db && r.View() == p.broker && released == p.released
              && db.journal == old(db.journal) + p.commits
    {
      var expired := db.Select(ExpiredHeld(db.rows, now));
      snapshot := expired;
      if expired == [] { return 0, snapshot; }
      released := ReleaseEach(expired, fates);
    }

    method ReleaseUserHolds(user: UserId, fates: ReservationId -> Fate)
      returns (released: nat, ghost snapshot: seq<ReservationId>)
      requires db.Valid()
      modifies db, r
      ensures db.Valid()
      ensures Enumerates(snapshot, HeldByUser(old(db.committed), user))
      ensures var p := ReleaseAll(Began(old(db.committed), old(r.View())), snapshot, fates);
              && db.committed == p.db && r.View() == p.broker && released == p.released
              && db.journal == old(db.journal) + p.commits
    {
      var reservations := db.Select(HeldByUser(db.rows, user));
      snapshot := reservations;
      if reservations == [] { return 0, snapshot; }
      released := ReleaseEach(reservations, fates);
    }
  }

  lemma SameWrites(seats: map<SeatId, Seat>, a: seq<SeatId>, b: seq<SeatId>, status: SeatStatus)
    requires Elements(a) == set x | x in b && x in seats
    ensures WriteSeats(seats, a, status, None, None) == WriteSeats(seats, b, status, None, None)
  {
    forall x | x in seats ensures x in a <==> x in b { assert x in a <==> x in Elements(a); }
  }

  class PaymentService {
    const db: Session
    const reservations: ReservationService

    constructor (db: Session, r: Redis)
      ensures this.db == db && fresh(reservations) && reservations.db == db && reservations.r == r
    {
      this.db := db;
      reservations := new ReservationService(db, r);
    }

    /** `pid` is the key of the new payment row; `approved` is what the payment gateway answered. */
    method ProcessPayment(user: UserId, rid: ReservationId, amount: int, pid: PaymentId,
                          checkAt: Instant, approved: bool, completeAt: Instant, fate: Fate)
      returns (result: Result<Payment, Error>)
      requires reservations.db == db && db.Valid() && pid !in db.committed.payments
      modifies db, reservations.r
      ensures db.Valid()
      ensures var was := old(db.committed);
              var cs := PayCommits(was, user, rid, amount, pid, checkAt, approved, completeAt, fate);
              Legal(was, cs) && db.committed == Play(was, cs) && db.journal == old(db.journal) + cs
      ensures var was := old(db.committed);
              match PayVerdict(was, user, rid, amount, checkAt)
              case Some(error) => result == Err(error) && reservations.r.View() == old(reservations.r.View())
              case None =>
                if !fate.recorded then result == Err(DatabaseUnavailable)
                    && reservations.r.View() == old(reservations.r.View())
                else
                  && result == ChargeAnswer(was, Payment(rid, user, amount, Pending), approved, completeAt, fate)
                  && reservations.r.View()
                        == ChargeBroker(old(reservations.r.View()), was, rid, approved, completeAt, fate)
    {
      ghost var was := db.committed;
      var refused := Verify(user, rid, amount, checkAt);
      if refused.Some? { return Err(refused.value); }
      var payment := Payment(rid, user, amount, Pending);
      ghost var rest := ChargeCommits(was, rid, pid, approved, completeAt, fate);
      assert ([OpenC(pid, payment)] + rest)[1..] == rest;
      db.rows := db.rows.(payments := db.rows.payments[pid := payment]);
      if !fate.recorded {
        db.Rollback();
        return Err(DatabaseUnavailable);
      }
      db.Commit(OpenC(pid, payment));
      result := Charge(rid, pid, approved, completeAt, fate);
    }

    /** From the gateway's answer on. */
    method Charge(rid: ReservationId, pid: PaymentId, approved: bool, completeAt: Instant, fate: Fate)
      returns (result: Result<Payment, Error>)
      requires reservations.db == db && db.Valid() && Enabled(db.committed, CloseC(rid, true))
      requires pid in db.committed.payments
      requires db.committed.payments[pid].status == Pending && db.committed.payments[pid].reservation == rid
      modifies db, reservations.r
      ensures db.Valid()
      ensures var was := old(db.committed);
              var cs := ChargeCommits(was, rid, pid, approved, completeAt, fate);
              Legal(was, cs) && db.committed == Play(was, cs) && db.journal == old(db.journal) + cs
      ensures result == ChargeAnswer(old(db.committed), old(db.committed).payments[pid], approved, completeAt, fate)
      ensures reservations.r.View() ==
              ChargeBroker(old(reservations.r.View()), old(db.committed), rid, approved, completeAt, fate)
    {
      if approved {
        result := CompleteAndStamp(rid, pid, completeAt, fate);
      } else {
        ChargeIsLegal(db.committed, rid, pid, false, completeAt, fate);
        var stamped := Stamp(pid, Failed, fate.stamped);
        return Err(if stamped then BusinessRule else DatabaseUnavailable);
      }
    }

    /** The gateway has approved: complete the reservation, then stamp the payment. */
    method CompleteAndStamp(rid: ReservationId, pid: PaymentId, completeAt: Instant, fate: Fate)
      returns (result: Result<Payment, Error>)
      requires reservations.db == db && db.Valid() && Enabled(db.committed, CloseC(rid, true))
      requires pid in db.committed.payments
      requires db.committed.payments[pid].status == Pending && db.committed.payments[pid].reservation == rid
      modifies db, reservations.r
      ensures db.Valid()
      ensures var was := old(db.committed);
              var cs := ChargeCommits(was, rid, pid, true, completeAt, fate);
              Legal(was, cs) && db.committed == Play(was, cs) && db.journal == old(db.journal) + cs
      ensures result == ChargeAnswer(old(db.committed), old(db.committed).payments[pid], true, completeAt, fate)
      ensures reservations.r.View() ==
              ChargeBroker(old(reservations.r.View()), old(db.committed), rid, true, completeAt, fate)
    {
      ApprovedIsLegal(db.committed, rid, pid, completeAt, fate);
      var completed := reservations.CompleteReservation(rid, completeAt, fate);
      if completed.Err? { return Err(completed.error); }
      var stamped := Stamp(pid, Paid, fate.stamped);
      if !stamped { return Err(DatabaseUnavailable); }
      return Ok(db.rows.payments[pid]);
    }

    /** The tests made before the payment row is created; the price is summed from the seat rows. */
    method Verify(user: UserId, rid: ReservationId, amount: int, checkAt: Instant) returns (refused: Option<Error>)
      requires db.Valid()
      ensures refused == PayVerdict(db.rows, user, rid, amount, checkAt)
    {
      if rid !in db.rows.reservations { return Some(ReservationNotFound); }
      var reservation := db.rows.reservations[rid];
      if reservation.user != user { return Some(ReservationNotFound); }
      if reservation.status != Held { return Some(BusinessRule); }
      if reservation.expiresAt < checkAt { return Some(ReservationExpired); }
      var seats := db.Select(Existing(db.rows, reservation.seats));
      assert forall x | x in seats :: x in Elements(seats);
      var expected := db.SumPrices(seats);
      assert Elements(seats) * db.rows.seats.Keys == Elements(reservation.seats) * db.rows.seats.Keys;
      if amount != expected { return Some(AmountMismatch); }
      return None;
    }

    /** `payment_repo.update_status` followed by its commit. */
    method Stamp(pid: PaymentId, outcome: PaymentStatus, succeeds: bool) returns (stamped: bool)
      requires db.Valid() && Enabled(db.committed, StampC(pid, outcome))
      modifies db
      ensures db.Valid() && stamped == succeeds
      ensures db.committed == if succeeds then Apply(old(db.committed), StampC(pid, outcome)) else old(db.committed)
      ensures db.journal == old(db.journal) + if succeeds then [StampC(pid, outcome)] else []
    {
      var payment := db.rows.payments[pid];
      db.rows := db.rows.(payments := db.rows.payments[pid := payment.(status := outcome)]);
      if succeeds { db.Commit(StampC(pid, outcome)); } else { db.Rollback(); }
      return succeeds;
    }
  }
}
