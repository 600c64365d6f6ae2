/** The seat ledger: what every committed transaction keeps, and why no seat is booked twice. */
module SeatLedger {
  import opened Wrappers
  import opened Booking

  /** Reservation `rid` currently owns seat `x`: it lists it and is not cancelled. */
  ghost predicate Owns(db: Db, rid: ReservationId, x: SeatId) {
    rid in db.reservations && db.reservations[rid].status != Cancelled && x in db.reservations[rid].seats
  }

  ghost predicate WellFormed(db: Db, r: Reservation) {
    NoDuplicates(r.seats) && forall x | x in r.seats :: x in db.seats && db.seats[x].event == r.event
  }

  /** The columns a seat row must show while `r` owns it. */
  ghost predicate Shows(seat: Seat, r: Reservation) {
    if r.status == Held then
      seat.status == Hold && seat.heldBy == Some(r.user) && seat.heldUntil == Some(r.expiresAt)
    else
      seat.status == Sold && seat.heldBy == None && seat.heldUntil == None
  }

  ghost predicate Ledger(db: Db) {
    && (forall rid | rid in db.reservations :: WellFormed(db, db.reservations[rid]))
    && (forall rid, x | Owns(db, rid, x) :: x in db.seats && Shows(db.seats[x], db.reservations[rid]))
    && (forall rid1, rid2, x | Owns(db, rid1, x) && Owns(db, rid2, x) :: rid1 == rid2)
    && (forall x | x in db.seats && db.seats[x].status == Available ::
          db.seats[x].heldBy == None && db.seats[x].heldUntil == None)
    && (forall x | x in db.seats && db.seats[x].status != Available :: exists rid :: Owns(db, rid, x))
  }

  ghost predicate OwnedOnlyBy(db: Db, x: SeatId, status: ReservationStatus) {
    exists rid :: Owns(db, rid, x) && db.reservations[rid].status == status
                  && forall other | Owns(db, other, x) :: other == rid
  }

  /** The ledger, read seat by seat: each status is equivalent to a fact about reservations. */
  lemma SeatStatusIsExact(db: Db, x: SeatId)
    requires Ledger(db) && x in db.seats
    ensures db.seats[x].status == Hold <==> OwnedOnlyBy(db, x, Held)
    ensures db.seats[x].status == Sold <==> OwnedOnlyBy(db, x, Completed)
    ensures db.seats[x].status == Available <==> forall rid :: !Owns(db, rid, x)
    ensures db.seats[x].status == Available ==> db.seats[x].heldBy == None && db.seats[x].heldUntil == None
    ensures forall rid | Owns(db, rid, x) :: Shows(db.seats[x], db.reservations[rid])
  {
    if db.seats[x].status != Available {
      var rid :| Owns(db, rid, x);
      assert forall other | Owns(db, other, x) :: other == rid;
    }
  }

  /** What the services have checked by the time they commit `c`. */
  ghost predicate Enabled(db: Db, c: Commit) {
    match c
    case HoldC(rid, user, event, rows, until) =>
      && rid !in db.reservations && NoDuplicates(rows)
      && forall x | x in rows :: x in db.seats && db.seats[x].event == event && db.seats[x].status == Available
    case CloseC(rid, sold) =>
      rid in db.reservations && db.reservations[rid].status == Held
    case OpenC(pid, p) =>
      && pid !in db.payments && p.reservation in db.reservations && p.status == Pending
      && db.reservations[p.reservation].status == Held && p.user == db.reservations[p.reservation].user
      && p.amount == Price(db.seats, db.reservations[p.reservation].seats)
    case StampC(pid, outcome) =>
      && pid in db.payments && db.payments[pid].status == Pending && outcome != Pending
      && (outcome == Paid ==> Unsettled(db, db.payments[pid].reservation))
  }

  ghost predicate StillHeld(db: Db, rid: ReservationId) {
    rid in db.reservations && db.reservations[rid].status == Held
  }

  ghost predicate HasPaid(db: Db, rid: ReservationId) {
    exists pid | pid in db.payments :: db.payments[pid].status == Paid && db.payments[pid].reservation == rid
  }

  /** Sold, but the payment row that paid for it is not stamped yet. */
  ghost predicate Unsettled(db: Db, rid: ReservationId) {
    rid in db.reservations && db.reservations[rid].status == Completed && !HasPaid(db, rid)
  }

  lemma HoldKeepsLedger(db: Db, rid: ReservationId, user: UserId, event: EventId, rows: seq<SeatId>, until: Instant)
    requires Ledger(db) && Enabled(db, HoldC(rid, user, event, rows, until))
    ensures Ledger(HoldCommit(db, rid, user, event, rows, until))
  {
    var after := HoldCommit(db, rid, user, event, rows, until);
    forall r, x | Owns(after, r, x)
      ensures x in db.seats && Shows(after.seats[x], after.reservations[r])
      ensures r == rid <==> x in rows
      ensures r != rid ==> Owns(db, r, x)
    {
      if r != rid { assert Owns(db, r, x); }
    }
    forall x | x in after.seats && after.seats[x].status != Available ensures exists r :: Owns(after, r, x) {
      if x in rows {
        assert Owns(after, rid, x);
      } else {
        var r :| Owns(db, r, x);
        assert Owns(after, r, x);
      }
    }
  }

  /** Closing a held reservation takes ownership from nobody else. */
  lemma CloseOwns(db: Db, rid: ReservationId, sold: bool, r: ReservationId, x: SeatId)
    requires Ledger(db) && Enabled(db, CloseC(rid, sold))
    ensures Owns(CloseCommit(db, rid, sold), r, x) <==> Owns(db, r, x) && (r != rid || sold)
    ensures Owns(db, r, x) ==> (r == rid <==> x in db.reservations[rid].seats)
  {
    if x in db.reservations[rid].seats { assert Owns(db, rid, x); }
  }

  lemma CloseKeepsLedger(db: Db, rid: ReservationId, sold: bool)
    requires Ledger(db) && Enabled(db, CloseC(rid, sold))
    ensures Ledger(CloseCommit(db, rid, sold))
  {
    var after := CloseCommit(db, rid, sold);
    forall r, x | Owns(after, r, x)
      ensures Owns(db, r, x) && x in after.seats && Shows(after.seats[x], after.reservations[r])
    {
      CloseOwns(db, rid, sold, r, x);
    }
    forall x | x in after.seats && after.seats[x].status != Available ensures exists r :: Owns(after, r, x) {
      TakenIsOwned(db, rid, sold, x);
    }
  }

  lemma TakenIsOwned(db: Db, rid: ReservationId, sold: bool, x: SeatId)
    requires Ledger(db) && Enabled(db, CloseC(rid, sold))
    requires x in db.seats && CloseCommit(db, rid, sold).seats[x].status != Available
    ensures exists r :: Owns(CloseCommit(db, rid, sold), r, x)
  {
    var r :| Owns(db, r, x);
    CloseOwns(db, rid, sold, r, x);
  }

  /** Every transaction the services commit keeps the ledger. */
  lemma CommitKeepsLedger(db: Db, c: Commit)
    requires Ledger(db) && Enabled(db, c)
    ensures Ledger(Apply(db, c))
  {
    match c
    case HoldC(rid, user, event, rows, until) => HoldKeepsLedger(db, rid, user, event, rows, until);
    case CloseC(rid, sold) => CloseKeepsLedger(db, rid, sold);
    case OpenC(pid, p) => SameSeatsSameLedger(db, Apply(db, c));
    case StampC(pid, outcome) => SameSeatsSameLedger(db, Apply(db, c));
  }

  lemma SameSeatsSameLedger(db: Db, after: Db)
    requires Ledger(db) && after.seats == db.seats && after.reservations == db.reservations
    ensures Ledger(after)
  {
    assert forall rid, x :: Owns(after, rid, x) <==> Owns(db, rid, x);
  }

  /** `after` is a possible later database: nothing is deleted, fixed columns stay fixed, and a
      reservation leaves `held` once and nothing else ever. */
  ghost predicate Evolves(db: Db, after: Db) {
    && db.seats.Keys == after.seats.Keys
    && (forall x | x in db.seats ::
          after.seats[x].event == db.seats[x].event && after.seats[x].price == db.seats[x].price)
    && (forall rid | rid in db.reservations ::
          rid in after.reservations && ReservationEvolves(db.reservations[rid], after.reservations[rid]))
    && (forall pid | pid in db.payments ::
          pid in after.payments && PaymentEvolves(db.payments[pid], after.payments[pid]))
  }

  ghost predicate ReservationEvolves(r: Reservation, later: Reservation) {
    later == r || (r.status == Held && later == r.(status := later.status))
  }

  ghost predicate PaymentEvolves(p: Payment, later: Payment) {
    later == p || (p.status == Pending && later == p.(status := later.status))
  }

  lemma EvolvesIsTransitive(a: Db, b: Db, c: Db)
    requires Evolves(a, b) && Evolves(b, c)
    ensures Evolves(a, c)
  {
  }

  lemma CommitEvolves(db: Db, c: Commit)
    requires Enabled(db, c)
    ensures Evolves(db, Apply(db, c))
  {
  }

  /** If `x` was sold, it still is, to the same completed reservation and to no other. */
  ghost predicate StaysSold(db: Db, after: Db, x: SeatId) {
    x in db.seats && db.seats[x].status == Sold ==>
      && x in after.seats && after.seats[x].status == Sold
      && exists rid :: Owns(db, rid, x) && db.reservations[rid].status == Completed
                       && Owns(after, rid, x) && after.reservations[rid] == db.reservations[rid]
                       && forall other | Owns(after, other, x) :: other == rid
  }

  lemma SoldSeatStaysSold(db: Db, after: Db, x: SeatId)
    requires Ledger(db) && Ledger(after) && Evolves(db, after)
    ensures StaysSold(db, after, x)
  {
    if x in db.seats && db.seats[x].status == Sold {
      var rid :| Owns(db, rid, x);
      assert Shows(db.seats[x], db.reservations[rid]);
      assert Owns(after, rid, x);
    }
  }

  /** What a cancellation or completion does to seats and reservations when its reservation may no longer
      be held by the time the transaction commits: ledger and history stay intact exactly when the
      reservation is still held, or the same change has already been made and nobody has taken the seats
      since. Money is another matter: a second completion lets a second payment be stamped. */
  lemma CloseIsSafeExactly(db: Db, rid: ReservationId, sold: bool)
    requires Ledger(db) && rid in db.reservations
    ensures Ledger(CloseCommit(db, rid, sold)) && Evolves(db, CloseCommit(db, rid, sold)) <==>
            var r := db.reservations[rid];
            || r.status == Held
            || (sold && r.status == Completed)
            || (!sold && r.status == Cancelled && forall x | x in r.seats :: db.seats[x].status == Available)
  {
    var r := db.reservations[rid];
    var after := CloseCommit(db, rid, sold);
    if r.status == Held {
      CloseKeepsLedger(db, rid, sold);
      CommitEvolves(db, CloseC(rid, sold));
    } else if r.status == Completed {
      if sold {
        forall x | x in r.seats ensures after.seats[x] == db.seats[x] { assert Owns(db, rid, x); }
        assert after.seats == db.seats && after.reservations == db.reservations;
      } else {
        assert !ReservationEvolves(r, after.reservations[rid]);
      }
    } else if sold {
      assert !ReservationEvolves(r, after.reservations[rid]);
    } else if forall x | x in r.seats :: db.seats[x].status == Available {
      assert after.seats == db.seats && after.reservations == db.reservations;
    } else {
      var x :| x in r.seats && db.seats[x].status != Available;
      assert WellFormed(db, r);
      var other :| Owns(db, other, x);
      assert Owns(after, other, x) && after.seats[x].status == Available;
      assert !Shows(after.seats[x], after.reservations[other]);
    }
  }
}
