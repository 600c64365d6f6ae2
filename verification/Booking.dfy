/** The rows of the booking database and the transactions the services commit to it.
    Identifiers are natural numbers, instants are microseconds, money is a count of hundredths. */
module Booking {
  import opened Wrappers
  import opened Sums

  type SeatId = nat
  type EventId = nat
  type UserId = nat
  type ReservationId = nat
  type PaymentId = nat
  type Instant = int

  /** How long a reservation is held, and how long the hold keys live in Redis. */
  const HOLD_MICROS: int := 5 * 60 * 1_000_000
  const SEAT_HOLD_TTL: int := 300 * 1_000_000

  datatype SeatStatus = Available | Hold | Sold

  datatype Seat = Seat(event: EventId, price: nat, status: SeatStatus,
                       heldBy: Option<UserId>, heldUntil: Option<Instant>)

  datatype ReservationStatus = Held | Completed | Cancelled

  datatype Reservation = Reservation(user: UserId, event: EventId, seats: seq<SeatId>,
                                     status: ReservationStatus, expiresAt: Instant)

  datatype PaymentStatus = Pending | Paid | Failed

  datatype Payment = Payment(reservation: ReservationId, user: UserId, amount: nat, status: PaymentStatus)

  datatype Db = Db(seats: map<SeatId, Seat>,
                   reservations: map<ReservationId, Reservation>,
                   payments: map<PaymentId, Payment>)

  datatype Error =
    | LockNotAcquired | DuplicateReservation | SeatNotAvailable | ReservationNotFound
    | ReservationExpired | BusinessRule | AmountMismatch | RedisUnavailable | DatabaseUnavailable

  /** One database transaction, named by what it commits. */
  datatype Commit =
    | HoldC(rid: ReservationId, user: UserId, event: EventId, rows: seq<SeatId>, until: Instant)
    | CloseC(closed: ReservationId, sold: bool)
    | OpenC(pid: PaymentId, payment: Payment)
    | StampC(stamped: PaymentId, outcome: PaymentStatus)

  function Written(seat: Seat, status: SeatStatus, heldBy: Option<UserId>, heldUntil: Option<Instant>): Seat {
    seat.(status := status, heldBy := heldBy, heldUntil := heldUntil)
  }

  function WriteSeats(seats: map<SeatId, Seat>, rows: seq<SeatId>, status: SeatStatus,
                      heldBy: Option<UserId>, heldUntil: Option<Instant>): map<SeatId, Seat>
  {
    map x | x in seats ::
      if x in rows then Written(seats[x], status, heldBy, heldUntil) else seats[x]
  }

  function HoldCommit(db: Db, rid: ReservationId, user: UserId, event: EventId, rows: seq<SeatId>, until: Instant): Db {
    db.(seats := WriteSeats(db.seats, rows, Hold, Some(user), Some(until)),
        reservations := db.reservations[rid := Reservation(user, event, rows, Held, until)])
  }

  function CloseCommit(db: Db, rid: ReservationId, sold: bool): Db {
    if rid !in db.reservations then db else
      var r := db.reservations[rid];
      db.(seats := WriteSeats(db.seats, r.seats, if sold then Sold else Available, None, None),
          reservations := db.reservations[rid := r.(status := if sold then Completed else Cancelled)])
  }

  function StampCommit(db: Db, pid: PaymentId, outcome: PaymentStatus): Db {
    if pid !in db.payments then db else
      db.(payments := db.payments[pid := db.payments[pid].(status := outcome)])
  }

  function Apply(db: Db, c: Commit): Db {
    match c
    case HoldC(rid, user, event, rows, until) => HoldCommit(db, rid, user, event, rows, until)
    case CloseC(rid, sold) => CloseCommit(db, rid, sold)
    case OpenC(pid, p) => db.(payments := db.payments[pid := p])
    case StampC(pid, outcome) => StampCommit(db, pid, outcome)
  }

  /** The held reservation that blocks a second one: same user, same event, not yet expired. */
  predicate HasActiveHold(db: Db, user: UserId, event: EventId, now: Instant) {
    exists rid | rid in db.reservations :: ActiveHold(db.reservations[rid], user, event, now)
  }

  predicate ActiveHold(r: Reservation, user: UserId, event: EventId, now: Instant) {
    r.user == user && r.event == event && r.status == Held && r.expiresAt > now
  }

  function Prices(seats: map<SeatId, Seat>): map<SeatId, nat> {
    map x | x in seats :: seats[x].price
  }

  /** What the listed seats cost together: each existing row counts once, however often it is listed. */
  ghost function Price(seats: map<SeatId, Seat>, listed: seq<SeatId>): nat {
    Total(Elements(listed) * seats.Keys, Prices(seats))
  }
}
