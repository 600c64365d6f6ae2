/** Payments: what every committed transaction keeps, and where the money is at every moment. */
module Money {
  import opened Wrappers
  import opened Sums
  import opened Booking
  import opened SeatLedger

  ghost predicate Books(db: Db) {
    AllCover(db) && !PaidTwice(db)
  }

  ghost predicate AllCover(db: Db) {
    forall pid | pid in db.payments :: Covers(db, db.payments[pid])
  }

  ghost predicate BothPay(db: Db, pid1: PaymentId, pid2: PaymentId) {
    && pid1 in db.payments && pid2 in db.payments
    && db.payments[pid1].status == Paid && db.payments[pid2].status == Paid
    && db.payments[pid1].reservation == db.payments[pid2].reservation
  }

  /** Some reservation has two payments stamped paid. */
  ghost predicate PaidTwice(db: Db) {
    exists pid1, pid2 :: pid1 != pid2 && BothPay(db, pid1, pid2)
  }

  /** A payment row is for exactly the price of its reservation, and is stamped paid only after
      the reservation is completed. */
  ghost predicate Covers(db: Db, p: Payment) {
    && p.reservation in db.reservations
    && p.user == db.reservations[p.reservation].user
    && p.amount == Price(db.seats, db.reservations[p.reservation].seats)
    && (p.status == Paid ==> db.reservations[p.reservation].status == Completed)
  }

  ghost predicate Sound(db: Db) {
    Ledger(db) && Books(db)
  }

  /** Everything the books ask for but that no reservation is paid twice. */
  ghost predicate Covered(db: Db) {
    Ledger(db) && AllCover(db)
  }

  /** What a transaction may find when the tests behind it were made earlier: a completion its reservation
      completed by somebody else, a pending payment its reservation closed, a stamp another payment. */
  ghost predicate Tolerates(db: Db, c: Commit) {
    match c
    case HoldC(_, _, _, _, _) => Enabled(db, c)
    case CloseC(rid, sold) => StillHeld(db, rid)
        || (sold && rid in db.reservations && db.reservations[rid].status == Completed)
    case OpenC(pid, p) =>
      && pid !in db.payments && p.status == Pending && p.reservation in db.reservations
      && p.user == db.reservations[p.reservation].user
      && p.amount == Price(db.seats, db.reservations[p.reservation].seats)
    case StampC(pid, outcome) =>
      && pid in db.payments && db.payments[pid].status == Pending && outcome != Pending
      && (outcome == Paid ==> db.payments[pid].reservation in db.reservations
                              && db.reservations[db.payments[pid].reservation].status == Completed)
  }

  ghost predicate StampsAgain(db: Db, c: Commit) {
    c.StampC? && c.outcome == Paid && c.stamped in db.payments && HasPaid(db, db.payments[c.stamped].reservation)
  }

  lemma EnabledIsTolerated(db: Db, c: Commit)
    requires Enabled(db, c)
    ensures Tolerates(db, c) && !StampsAgain(db, c)
  {
  }

  lemma EvolvingPrice(db: Db, after: Db, rid: ReservationId)
    requires Evolves(db, after) && rid in db.reservations
    ensures Price(after.seats, after.reservations[rid].seats) == Price(db.seats, db.reservations[rid].seats)
  {
    assert Prices(db.seats) == Prices(after.seats);
  }

  lemma CommitKeepsCovers(db: Db, c: Commit, pid: PaymentId)
    requires Covered(db) && Tolerates(db, c) && Evolves(db, Apply(db, c)) && pid in Apply(db, c).payments
    ensures Covers(Apply(db, c), Apply(db, c).payments[pid])
  {
    EvolvingPrice(db, Apply(db, c), Apply(db, c).payments[pid].reservation);
    if pid in db.payments { assert Covers(db, db.payments[pid]); }
  }

  lemma ToleratedKeepsLedger(db: Db, c: Commit)
    requires Ledger(db) && Tolerates(db, c)
    ensures Ledger(Apply(db, c)) && Evolves(db, Apply(db, c))
  {
    match c
    case HoldC(_, _, _, _, _) =>
      CommitKeepsLedger(db, c);
      CommitEvolves(db, c);
    case CloseC(rid, sold) => CloseIsSafeExactly(db, rid, sold);
    case OpenC(_, _) => SameSeatsSameLedger(db, Apply(db, c));
    case StampC(_, _) => SameSeatsSameLedger(db, Apply(db, c));
  }

  lemma CommitKeepsCovered(db: Db, c: Commit)
    requires Covered(db) && Tolerates(db, c)
    ensures Covered(Apply(db, c)) && Evolves(db, Apply(db, c))
  {
    ToleratedKeepsLedger(db, c);
    forall pid | pid in Apply(db, c).payments ensures Covers(Apply(db, c), Apply(db, c).payments[pid]) {
      CommitKeepsCovers(db, c, pid);
    }
  }

  /** A reservation comes to be paid twice exactly by a stamp on one that is already paid. */
  lemma PaidTwiceExactly(db: Db, c: Commit)
    requires Tolerates(db, c)
    ensures PaidTwice(Apply(db, c)) <==> PaidTwice(db) || StampsAgain(db, c)
  {
    var after := Apply(db, c);
    if pid1, pid2 :| pid1 != pid2 && BothPay(db, pid1, pid2) {
      assert BothPay(after, pid1, pid2);
    }
    if StampsAgain(db, c) {
      var pid :| pid in db.payments && db.payments[pid].status == Paid
                 && db.payments[pid].reservation == db.payments[c.stamped].reservation;
      assert BothPay(after, pid, c.stamped);
    }
    if pid1, pid2 :| pid1 != pid2 && BothPay(after, pid1, pid2) {
      assert BothPay(db, pid1, pid2) || StampsAgain(db, c);
    }
  }

  /** The exact condition on a tolerated transaction: ledger and books stay sound if and only if it does
      not stamp a payment paid whose reservation is already paid for. */
  lemma CommitIsSoundExactly(db: Db, c: Commit)
    requires Sound(db) && Tolerates(db, c)
    ensures Sound(Apply(db, c)) <==> !StampsAgain(db, c)
  {
    CommitKeepsCovered(db, c);
    PaidTwiceExactly(db, c);
  }

  /** In particular the stamp of a pending payment for a completed reservation keeps the books if and only
      if no other payment has been stamped for it. */
  lemma StampIsSoundExactly(db: Db, pid: PaymentId)
    requires Sound(db) && pid in db.payments && db.payments[pid].status == Pending
    requires db.payments[pid].reservation in CompletedReservations(db)
    ensures Sound(StampCommit(db, pid, Paid)) <==> !HasPaid(db, db.payments[pid].reservation)
  {
    CommitIsSoundExactly(db, StampC(pid, Paid));
  }

  /** Every transaction the services commit keeps both the seat ledger and the payment books. */
  lemma CommitKeepsSound(db: Db, c: Commit)
    requires Sound(db) && Enabled(db, c)
    ensures Sound(Apply(db, c)) && Evolves(db, Apply(db, c))
  {
    EnabledIsTolerated(db, c);
    CommitKeepsCovered(db, c);
    PaidTwiceExactly(db, c);
  }

  ghost function PaidPayments(db: Db): set<PaymentId> {
    set pid | pid in db.payments && db.payments[pid].status == Paid
  }

  ghost function SoldSeats(db: Db): set<SeatId> {
    set x | x in db.seats && db.seats[x].status == Sold
  }

  ghost function CompletedReservations(db: Db): set<ReservationId> {
    set rid | rid in db.reservations && db.reservations[rid].status == Completed
  }

  ghost function UnsettledReservations(db: Db): set<ReservationId> {
    set rid | rid in db.reservations && Unsettled(db, rid)
  }

  ghost function Amounts(db: Db): map<PaymentId, nat> {
    map pid | pid in db.payments :: db.payments[pid].amount
  }

  ghost function Bills(db: Db): map<ReservationId, nat> {
    map rid | rid in db.reservations :: Price(db.seats, db.reservations[rid].seats)
  }

  ghost function PaidTotal(db: Db): nat { Total(PaidPayments(db), Amounts(db)) }

  ghost function SoldTotal(db: Db): nat { Total(SoldSeats(db), Prices(db.seats)) }

  ghost function UnsettledTotal(db: Db): nat { Total(UnsettledReservations(db), Bills(db)) }

  ghost function SeatsOf(db: Db, rids: set<ReservationId>): set<SeatId> {
    set rid, x | rid in rids && rid in db.reservations && x in db.reservations[rid].seats && x in db.seats :: x
  }

  lemma {:induction false} BillsAddUp(db: Db, rids: set<ReservationId>)
    requires Ledger(db) && rids <= CompletedReservations(db)
    ensures Total(SeatsOf(db, rids), Prices(db.seats)) == Total(rids, Bills(db))
  {
    if rids == {} {
    } else {
      var rid :| rid in rids;
      BillsAddUp(db, rids - {rid});
      TotalRemove(rids, Bills(db), rid);
      SeatsSplit(db, rids, rid);
      TotalUnion(Elements(db.reservations[rid].seats) * db.seats.Keys, SeatsOf(db, rids - {rid}), Prices(db.seats));
    }
  }

  lemma SeatsSplit(db: Db, rids: set<ReservationId>, rid: ReservationId)
    requires Ledger(db) && rid in rids && rids <= CompletedReservations(db)
    ensures var mine := Elements(db.reservations[rid].seats) * db.seats.Keys;
            SeatsOf(db, rids) == mine + SeatsOf(db, rids - {rid}) && mine !! SeatsOf(db, rids - {rid})
  {
    forall x, other | x in db.reservations[rid].seats && other in rids - {rid} && other in db.reservations
      ensures x !in db.reservations[other].seats
    {
      assert Owns(db, rid, x) && (x in db.reservations[other].seats ==> Owns(db, other, x));
    }
  }

  ghost function PaidFor(db: Db, pids: set<PaymentId>): set<ReservationId> {
    set pid | pid in pids && pid in db.payments :: db.payments[pid].reservation
  }

  /** Where a reservation is paid twice, it was for nothing. */
  ghost predicate NothingPaidTwice(db: Db) {
    forall pid1, pid2 | pid1 != pid2 && BothPay(db, pid1, pid2) :: db.payments[pid1].amount == 0
  }

  /** Payments cover at least the bills of the reservations they pay for, and exactly those where nothing
      is paid twice. */
  lemma {:induction false} AmountsCover(db: Db, pids: set<PaymentId>)
    requires AllCover(db) && pids <= PaidPayments(db)
    ensures PaidFor(db, pids) <= db.reservations.Keys
    ensures Total(pids, Amounts(db)) >= Total(PaidFor(db, pids), Bills(db))
    ensures NothingPaidTwice(db) ==> Total(pids, Amounts(db)) == Total(PaidFor(db, pids), Bills(db))
  {
    if pids == {} {
    } else {
      var pid :| pid in pids;
      var rest, rid := pids - {pid}, db.payments[pid].reservation;
      AmountsCover(db, rest);
      TotalRemove(pids, Amounts(db), pid);
      PaidForNext(db, pids, pid);
      if rid in PaidFor(db, rest) {
        assert PaidFor(db, pids) == PaidFor(db, rest);
      } else {
        TotalAdd(PaidFor(db, rest), Bills(db), rid);
      }
    }
  }

  /** What one more payment adds: its reservation, whose bill it covers, unless another pays for it. */
  lemma PaidForNext(db: Db, pids: set<PaymentId>, pid: PaymentId)
    requires AllCover(db) && pids <= PaidPayments(db) && pid in pids
    ensures var rest, rid := pids - {pid}, db.payments[pid].reservation;
            && rid in db.reservations && Amounts(db)[pid] == Bills(db)[rid]
            && PaidFor(db, pids) == PaidFor(db, rest) + {rid}
            && (NothingPaidTwice(db) && rid in PaidFor(db, rest) ==> Amounts(db)[pid] == 0)
  {
    assert Covers(db, db.payments[pid]);
    var rid := db.payments[pid].reservation;
    if rid in PaidFor(db, pids - {pid}) {
      var other :| other in pids - {pid} && db.payments[other].reservation == rid;
      assert BothPay(db, pid, other);
    }
  }

  /** A reservation paid twice for something makes the payments exceed the bills. */
  lemma AmountsExceed(db: Db, pid1: PaymentId, pid2: PaymentId)
    requires AllCover(db) && pid1 != pid2 && BothPay(db, pid1, pid2) && db.payments[pid1].amount > 0
    ensures PaidFor(db, PaidPayments(db)) <= db.reservations.Keys
    ensures PaidTotal(db) > Total(PaidFor(db, PaidPayments(db)), Bills(db))
  {
    var all := PaidPayments(db);
    AmountsCover(db, all - {pid1});
    TotalRemove(all, Amounts(db), pid1);
    assert pid2 in all - {pid1};
    assert PaidFor(db, all - {pid1}) == PaidFor(db, all);
  }

  lemma SoldSeatsAreCompleted(db: Db)
    requires Ledger(db)
    ensures SoldSeats(db) == SeatsOf(db, CompletedReservations(db))
  {
    forall x | x in SoldSeats(db) ensures x in SeatsOf(db, CompletedReservations(db)) {
      var rid :| Owns(db, rid, x);
      assert Shows(db.seats[x], db.reservations[rid]);
    }
    forall rid, x | rid in CompletedReservations(db) && x in db.reservations[rid].seats ensures x in SoldSeats(db) {
      assert Owns(db, rid, x);
    }
  }

  lemma CompletedSplit(db: Db)
    requires AllCover(db)
    ensures CompletedReservations(db) == PaidFor(db, PaidPayments(db)) + UnsettledReservations(db)
    ensures PaidFor(db, PaidPayments(db)) !! UnsettledReservations(db)
  {
    forall pid | pid in PaidPayments(db)
      ensures db.payments[pid].reservation in CompletedReservations(db) && HasPaid(db, db.payments[pid].reservation)
    {
      assert Covers(db, db.payments[pid]);
    }
    forall rid | rid in CompletedReservations(db) && HasPaid(db, rid) ensures rid in PaidFor(db, PaidPayments(db)) {
      var pid :| pid in db.payments && db.payments[pid].status == Paid && db.payments[pid].reservation == rid;
      assert pid in PaidPayments(db);
    }
  }

  /** Nothing sold is ever missing: payments and open bills together are at least the price of the sold
      seats. They are exactly that if and only if no reservation is paid twice for something. */
  lemma MoneyIsConservedExactly(db: Db)
    requires Covered(db)
    ensures PaidTotal(db) + UnsettledTotal(db) >= SoldTotal(db)
    ensures PaidTotal(db) + UnsettledTotal(db) == SoldTotal(db) <==> NothingPaidTwice(db)
  {
    SoldSeatsAreCompleted(db);
    CompletedSplit(db);
    BillsAddUp(db, CompletedReservations(db));
    AmountsCover(db, PaidPayments(db));
    TotalUnion(PaidFor(db, PaidPayments(db)), UnsettledReservations(db), Bills(db));
    if pid1, pid2 :| pid1 != pid2 && BothPay(db, pid1, pid2) && db.payments[pid1].amount > 0 {
      AmountsExceed(db, pid1, pid2);
    }
  }

  /** Conservation: the price of all sold seats is exactly the money stamped paid plus the bills of
      reservations completed but not stamped yet. */
  lemma MoneyIsConserved(db: Db)
    requires Sound(db)
    ensures PaidTotal(db) + UnsettledTotal(db) == SoldTotal(db)
  {
    MoneyIsConservedExactly(db);
  }

  /** Exactly one payment stamped paid pays for `rid`. */
  ghost predicate PaidOnce(db: Db, rid: ReservationId) {
    exists pid :: pid in db.payments && db.payments[pid].status == Paid && db.payments[pid].reservation == rid
                  && forall other | other in db.payments && db.payments[other].status == Paid
                                    && db.payments[other].reservation == rid :: other == pid
  }

  lemma PaidOnceExactly(db: Db, rid: ReservationId)
    requires Books(db) && rid in db.reservations && !Unsettled(db, rid)
    ensures db.reservations[rid].status == Completed <==> PaidOnce(db, rid)
  {
    assert forall pid | pid in db.payments :: Covers(db, db.payments[pid]);
    if db.reservations[rid].status == Completed {
      var pid :| pid in db.payments && db.payments[pid].status == Paid && db.payments[pid].reservation == rid;
      forall other | other in db.payments && db.payments[other].status == Paid && db.payments[other].reservation == rid
        ensures other == pid
      {
        assert other == pid || !BothPay(db, pid, other);
      }
    }
  }

  /** When nothing is unsettled the till balances, with one paid payment for each completed reservation. */
  lemma SettledBooksBalance(db: Db)
    requires Sound(db) && UnsettledReservations(db) == {}
    ensures PaidTotal(db) == SoldTotal(db)
    ensures forall rid | rid in db.reservations :: db.reservations[rid].status == Completed <==> PaidOnce(db, rid)
  {
    MoneyIsConserved(db);
    forall rid | rid in db.reservations ensures db.reservations[rid].status == Completed <==> PaidOnce(db, rid) {
      assert rid !in UnsettledReservations(db);
      PaidOnceExactly(db, rid);
    }
  }
}
