/** What lies behind a payment row, in every interleaving and without any assumption about races: each row
    that is paid was verified, recorded, approved, tested, completed and stamped, in that order and by one
    client, and each row that has failed was declined. */
module PaymentTrails {
  import opened Wrappers
  import opened Booking
  import opened SeatLedger
  import opened Calls
  import opened InterleavedPayments

  /** The payment rows after one step, exactly. */
  lemma PaymentRowsMoveExactly(t: Till, s: Step, pid: PaymentId)
    requires Can(t, s)
    ensures var before, after := t.db.payments, Do(t, s).db.payments;
            && (pid in after <==> pid in before || (s.Record? && s.pid == pid))
            && (pid in after ==>
                  after[pid] ==
                  if pid !in before
                  then Payment(StageOf(t, s.c).rid, StageOf(t, s.c).user, StageOf(t, s.c).amount, Pending)
                  else if s.Decline? && StageOf(t, s.c) == Recorded(pid) then before[pid].(status := Failed)
                  else if s.Stamp? && StageOf(t, s.c) == Done(pid) then before[pid].(status := Paid)
                  else before[pid])
  {
  }

  /** The reservations after one step, exactly: a completion completes the one its payment is for, a
      cancellation elsewhere cancels its own, and no other moves. */
  lemma ReservationsMoveExactly(t: Till, s: Step, rid: ReservationId)
    requires Can(t, s) && rid in t.db.reservations
    ensures var was, after := t.db.reservations[rid], Do(t, s).db.reservations;
            && rid in after
            && after[rid] ==
               if s.Complete? && Paying(t, s.c) == rid then was.(status := Completed)
               else if s.Elsewhere? && s.commit.CloseC? && s.commit.closed == rid then was.(status := Cancelled)
               else was
  {
  }

  /** A run that begins with every client outside. */
  ghost predicate Trace(states: seq<Till>, steps: seq<Step>) {
    && |states| == |steps| + 1 && states[0].stages == map[]
    && forall k | 0 <= k < |steps| :: Can(states[k], steps[k]) && states[k + 1] == Do(states[k], steps[k])
  }

  /** The step by which a client entered the stage it is in, and the stage it came from. */
  lemma {:induction false} EnteredBy(states: seq<Till>, steps: seq<Step>, k: nat, c: ClientId) returns (j: nat)
    requires Trace(states, steps) && k < |states| && !StageOf(states[k], c).Outside?
    ensures j < k
    ensures var step, was := steps[j], StageOf(states[j], c);
            match StageOf(states[k], c)
            case Outside => true
            case Verified(user, rid, amount) => step.Verify? && step == Verify(c, user, rid, amount, step.checkAt)
            case Recorded(pid) => step == Record(c, pid) && was.Verified?
            case Approved(pid) => step == Approve(c) && was == Recorded(pid)
            case Tested(pid) => step.Test? && step.c == c && was == Approved(pid)
            case Done(pid) => step == Complete(c) && was == Tested(pid)
  {
    if k > 0 {
      assert Can(states[k - 1], steps[k - 1]) && states[k] == Do(states[k - 1], steps[k - 1]);
      if StageOf(states[k - 1], c) == StageOf(states[k], c) {
        j := EnteredBy(states, steps, k - 1, c);
      } else {
        j := k - 1;
      }
    }
  }

  /** A row is for the reservation, the user and the amount it was recorded with. */
  lemma {:induction false} RowStays(states: seq<Till>, steps: seq<Step>, j: nat, k: nat, pid: PaymentId)
    requires Trace(states, steps) && j <= k < |states| && pid in states[j].db.payments
    ensures pid in states[k].db.payments
    ensures states[k].db.payments[pid] == states[j].db.payments[pid].(status := states[k].db.payments[pid].status)
    decreases k
  {
    if j < k {
      RowStays(states, steps, j, k - 1, pid);
      assert Can(states[k - 1], steps[k - 1]) && states[k] == Do(states[k - 1], steps[k - 1]);
      PaymentRowsMoveExactly(states[k - 1], steps[k - 1], pid);
    }
  }

  /** The step that stamped a row: paid by its client's stamp after the completion, failed by a decline. */
  lemma {:induction false} StampedBy(states: seq<Till>, steps: seq<Step>, k: nat, pid: PaymentId)
    returns (p: nat, c: ClientId)
    requires Trace(states, steps) && k < |states| && pid !in states[0].db.payments
    requires pid in states[k].db.payments && states[k].db.payments[pid].status != Pending
    ensures p < k
    ensures if states[k].db.payments[pid].status == Paid
            then steps[p] == Stamp(c) && StageOf(states[p], c) == Done(pid)
            else steps[p] == Decline(c) && StageOf(states[p], c) == Recorded(pid)
  {
    assert k > 0 && Can(states[k - 1], steps[k - 1]) && states[k] == Do(states[k - 1], steps[k - 1]);
    PaymentRowsMoveExactly(states[k - 1], steps[k - 1], pid);
    if pid in states[k - 1].db.payments && states[k - 1].db.payments[pid] == states[k].db.payments[pid] {
      p, c := StampedBy(states, steps, k - 1, pid);
    } else {
      p, c := k - 1, steps[k - 1].c;
    }
  }

  /** The recording of a row, and before it the test of everything it says: the reservation was held by this
      user, not over, and for this price. */
  lemma RecordedAfterVerifying(states: seq<Till>, steps: seq<Step>, k: nat, c: ClientId, pid: PaymentId)
    returns (v: nat, r: nat)
    requires Trace(states, steps) && k < |states| && StageOf(states[k], c) == Recorded(pid)
    ensures v < r < k && steps[r] == Record(c, pid) && steps[v].Verify? && steps[v].c == c
    ensures pid in states[k].db.payments
    ensures var row, db := states[k].db.payments[pid], states[v].db;
            && row.reservation in db.reservations
            && var held := db.reservations[row.reservation];
               && held.user == row.user && held.status == Held && steps[v].checkAt <= held.expiresAt
               && row.amount == Price(db.seats, held.seats)
  {
    r := EnteredBy(states, steps, k, c);
    v := EnteredBy(states, steps, r, c);
    assert Can(states[r], steps[r]) && states[r + 1] == Do(states[r], steps[r]);
    assert Can(states[v], steps[v]);
    PaymentRowsMoveExactly(states[r], steps[r], pid);
    RowStays(states, steps, r + 1, k, pid);
  }

  /** Behind every paid row: one client verified it, recorded it, had it approved, found its reservation held
      and not over, completed that reservation and stamped the row, in this order. */
  lemma PaidWasEarned(states: seq<Till>, steps: seq<Step>, k: nat, pid: PaymentId)
    returns (c: ClientId, v: nat, r: nat, a: nat, t: nat, m: nat, p: nat)
    requires Trace(states, steps) && k < |states| && pid !in states[0].db.payments
    requires pid in states[k].db.payments && states[k].db.payments[pid].status == Paid
    ensures v < r < a < t < m < p < k
    ensures steps[v].Verify? && steps[v].c == c && steps[r] == Record(c, pid) && steps[a] == Approve(c)
    ensures steps[t].Test? && steps[t].c == c && steps[m] == Complete(c) && steps[p] == Stamp(c)
    ensures var row, rid := states[k].db.payments[pid], states[k].db.payments[pid].reservation;
            && rid in states[v].db.reservations && rid in states[t].db.reservations
            && var verified, tested := states[v].db.reservations[rid], states[t].db.reservations[rid];
               && verified.user == row.user && verified.status == Held && steps[v].checkAt <= verified.expiresAt
               && row.amount == Price(states[v].db.seats, verified.seats)
               && tested.status == Held && steps[t].now <= tested.expiresAt
    ensures var rid := states[k].db.payments[pid].reservation;
            rid in states[m + 1].db.reservations && states[m + 1].db.reservations[rid].status == Completed
  {
    p, c := StampedBy(states, steps, k, pid);
    m := EnteredBy(states, steps, p, c);
    t := EnteredBy(states, steps, m, c);
    a := EnteredBy(states, steps, t, c);
    v, r := RecordedAfterVerifying(states, steps, a, c, pid);
    RowStays(states, steps, a, k, pid);
    RowStays(states, steps, a, t, pid);
    RowStays(states, steps, a, m, pid);
    var rid := states[k].db.payments[pid].reservation;
    assert Can(states[t], steps[t]);
    assert Can(states[m], steps[m]) && states[m + 1] == Do(states[m], steps[m]);
    ReservationLasts(states, steps, t, m, rid);
    ReservationsMoveExactly(states[m], steps[m], rid);
  }

  lemma {:induction false} ReservationLasts(states: seq<Till>, steps: seq<Step>, j: nat, k: nat, rid: ReservationId)
    requires Trace(states, steps) && j <= k < |states| && rid in states[j].db.reservations
    ensures rid in states[k].db.reservations
    decreases k
  {
    if j < k {
      ReservationLasts(states, steps, j, k - 1, rid);
      assert Can(states[k - 1], steps[k - 1]) && states[k] == Do(states[k - 1], steps[k - 1]);
      ReservationsMoveExactly(states[k - 1], steps[k - 1], rid);
    }
  }

  /** Behind every failed row: its client verified it, recorded it and saw it declined. */
  lemma FailedWasDeclined(states: seq<Till>, steps: seq<Step>, k: nat, pid: PaymentId)
    returns (c: ClientId, v: nat, r: nat, p: nat)
    requires Trace(states, steps) && k < |states| && pid !in states[0].db.payments
    requires pid in states[k].db.payments && states[k].db.payments[pid].status == Failed
    ensures v < r < p < k && steps[v].Verify? && steps[v].c == c && steps[r] == Record(c, pid) && steps[p] == Decline(c)
  {
    p, c := StampedBy(states, steps, k, pid);
    v, r := RecordedAfterVerifying(states, steps, p, c, pid);
  }
}
