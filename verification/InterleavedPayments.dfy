/** Payments interleaved step by step: any number of clients between their first tests, the payment row,
    the gateway's answer, the test of complete_reservation, its commit, and the stamp, while holds,
    cancellations and releases go on. Neither the row nor the completion is tested again when it commits. */
module InterleavedPayments {
  import opened Wrappers
  import opened Sums
  import opened Booking
  import opened SeatLedger
  import opened Money
  import opened Calls

  type ClientId = nat

  datatype Stage =
    | Outside
    | Verified(user: UserId, rid: ReservationId, amount: nat)
    | Recorded(pid: PaymentId)
    | Approved(pid: PaymentId)
    | Tested(pid: PaymentId)
    | Done(pid: PaymentId)

  datatype Till = Till(db: Db, stages: map<ClientId, Stage>)

  datatype Step =
    | Verify(c: ClientId, user: UserId, rid: ReservationId, amount: nat, checkAt: Instant)
    | Record(c: ClientId, pid: PaymentId)
    | Approve(c: ClientId)
    | Decline(c: ClientId)
    | Test(c: ClientId, now: Instant)
    | Complete(c: ClientId)
    | Stamp(c: ClientId)
    | Leave(c: ClientId)
    | Elsewhere(commit: Commit)

  function StageOf(t: Till, c: ClientId): Stage {
    if c in t.stages then t.stages[c] else Outside
  }

  predicate HasRow(stage: Stage) {
    stage.Recorded? || stage.Approved? || stage.Tested? || stage.Done?
  }

  function ReservationOf(t: Till, pid: PaymentId): ReservationId {
    if pid in t.db.payments then t.db.payments[pid].reservation else 0
  }

  /** The reservation a client with a payment row pays for. */
  function Paying(t: Till, c: ClientId): ReservationId
    requires HasRow(StageOf(t, c))
  {
    ReservationOf(t, StageOf(t, c).pid)
  }

  /** A client may leave at any moment: refused, failed or crashed. Elsewhere the reservation service
      commits a hold or gives seats back; a cancellation, like a completion, may be late. */
  ghost predicate Can(t: Till, s: Step) {
    match s
    case Verify(c, user, rid, amount, checkAt) =>
      StageOf(t, c).Outside? && PayVerdict(t.db, user, rid, amount, checkAt) == None
    case Record(c, pid) => StageOf(t, c).Verified? && pid !in t.db.payments
    case Approve(c) => StageOf(t, c).Recorded?
    case Decline(c) => StageOf(t, c).Recorded?
    case Test(c, now) => StageOf(t, c).Approved? && CompleteRefusal(t.db, Paying(t, c), now) == None
    case Complete(c) => StageOf(t, c).Tested?
    case Stamp(c) => StageOf(t, c).Done?
    case Leave(_) => true
    case Elsewhere(commit) =>
      || (commit.HoldC? && Enabled(t.db, commit))
      || (commit.CloseC? && !commit.sold && commit.closed in t.db.reservations)
  }

  /** What a step commits, if anything. */
  ghost function CommitOf(t: Till, s: Step): Option<Commit>
    requires Can(t, s)
  {
    match s
    case Record(c, pid) =>
      var v := StageOf(t, c);
      Some(OpenC(pid, Payment(v.rid, v.user, v.amount, Pending)))
    case Decline(c) => Some(StampC(StageOf(t, c).pid, Failed))
    case Complete(c) => Some(CloseC(Paying(t, c), true))
    case Stamp(c) => Some(StampC(StageOf(t, c).pid, Paid))
    case Elsewhere(commit) => Some(commit)
    case Verify(_, _, _, _, _) => None
    case Approve(_) => None
    case Test(_, _) => None
    case Leave(_) => None
  }

  ghost function DbAfter(t: Till, s: Step): Db
    requires Can(t, s)
  {
    match CommitOf(t, s) case Some(c) => Apply(t.db, c) case None => t.db
  }

  ghost function StagesAfter(t: Till, s: Step): map<ClientId, Stage>
    requires Can(t, s)
  {
    match s
    case Verify(c, user, rid, amount, _) => t.stages[c := Verified(user, rid, amount)]
    case Record(c, pid) => t.stages[c := Recorded(pid)]
    case Approve(c) => t.stages[c := Approved(StageOf(t, c).pid)]
    case Test(c, _) => t.stages[c := Tested(StageOf(t, c).pid)]
    case Complete(c) => t.stages[c := Done(StageOf(t, c).pid)]
    case Decline(c) => t.stages[c := Outside]
    case Stamp(c) => t.stages[c := Outside]
    case Leave(c) => t.stages[c := Outside]
    case Elsewhere(_) => t.stages
  }

  ghost function Do(t: Till, s: Step): Till
    requires Can(t, s)
  {
    Till(DbAfter(t, s), StagesAfter(t, s))
  }

  // ---- assumptions about a run ------------------------------------------------------------

  /** Every closing commit finds its reservation still held. */
  ghost predicate Orderly(t: Till, s: Step) {
    && (s.Complete? && StageOf(t, s.c).Tested? ==> StillHeld(t.db, Paying(t, s.c)))
    && (s.Elsewhere? && s.commit.CloseC? ==> StillHeld(t.db, s.commit.closed))
  }

  /** The same, except that a completion may find its reservation completed by another payment. */
  ghost predicate Tolerable(t: Till, s: Step) {
    && (s.Complete? && StageOf(t, s.c).Tested? ==> Tolerates(t.db, CloseC(Paying(t, s.c), true)))
    && (s.Elsewhere? && s.commit.CloseC? ==> StillHeld(t.db, s.commit.closed))
  }

  // ---- what holds even where payments race ------------------------------------------------

  /** What a client knows stays true: it verified a reservation's owner and price, its payment row is its
      own and pending, and after its completion its reservation is completed. */
  ghost predicate Knows(db: Db, stage: Stage) {
    match stage
    case Outside => true
    case Verified(user, rid, amount) =>
      && rid in db.reservations && user == db.reservations[rid].user
      && amount == Price(db.seats, db.reservations[rid].seats)
    case Recorded(pid) => IsPending(db, pid)
    case Approved(pid) => IsPending(db, pid)
    case Tested(pid) => IsPending(db, pid)
    case Done(pid) =>
      && IsPending(db, pid) && db.payments[pid].reservation in db.reservations
      && db.reservations[db.payments[pid].reservation].status == Completed
  }

  ghost predicate IsPending(db: Db, pid: PaymentId) {
    pid in db.payments && db.payments[pid].status == Pending
  }

  ghost predicate ClientsOk(t: Till) {
    && (forall c | c in t.stages :: Knows(t.db, t.stages[c]))
    && (forall c, d | c in t.stages && d in t.stages && HasRow(t.stages[c]) && HasRow(t.stages[d])
                      && t.stages[c].pid == t.stages[d].pid :: c == d)
  }

  lemma StepIsTolerated(t: Till, s: Step)
    requires Covered(t.db) && ClientsOk(t) && Can(t, s) && Tolerable(t, s)
    ensures CommitOf(t, s).Some? ==> Tolerates(t.db, CommitOf(t, s).value)
  {
  }

  lemma StepKeepsCovered(t: Till, s: Step)
    requires Covered(t.db) && ClientsOk(t) && Can(t, s) && Tolerable(t, s)
    ensures Covered(DbAfter(t, s)) && Evolves(t.db, DbAfter(t, s))
  {
    StepIsTolerated(t, s);
    if CommitOf(t, s).Some? { CommitKeepsCovered(t.db, CommitOf(t, s).value); }
  }

  /** Which payments a step stamps: the acting client's own, and no other. */
  lemma PaymentsAfter(t: Till, s: Step)
    requires Can(t, s)
    ensures forall pid | pid in t.db.payments ::
              && pid in DbAfter(t, s).payments
              && DbAfter(t, s).payments[pid].reservation == t.db.payments[pid].reservation
              && (DbAfter(t, s).payments[pid] == t.db.payments[pid]
                  || ((s.Decline? || s.Stamp?) && StageOf(t, s.c).pid == pid))
    ensures s.Record? ==> IsPending(DbAfter(t, s), s.pid)
  {
  }

  lemma KnowledgeLasts(db: Db, after: Db, stage: Stage)
    requires Knows(db, stage) && Evolves(db, after)
    requires HasRow(stage) ==> stage.pid in after.payments && after.payments[stage.pid] == db.payments[stage.pid]
    ensures Knows(after, stage)
  {
    if stage.Verified? { EvolvingPrice(db, after, stage.rid); }
  }

  /** A client that moves on knows what its new stage asks for. */
  lemma ActorKnows(t: Till, s: Step)
    requires Covered(t.db) && ClientsOk(t) && Can(t, s) && Tolerable(t, s) && !s.Elsewhere?
    ensures s.c in Do(t, s).stages && Knows(Do(t, s).db, Do(t, s).stages[s.c])
  {
    PaymentsAfter(t, s);
    if s.Complete? { assert Covers(t.db, t.db.payments[StageOf(t, s.c).pid]); }
  }

  lemma OthersKeepTheirRows(t: Till, s: Step, c: ClientId)
    requires ClientsOk(t) && Can(t, s) && c in t.stages && HasRow(t.stages[c]) && (s.Elsewhere? || c != s.c)
    ensures t.stages[c].pid in DbAfter(t, s).payments
        && DbAfter(t, s).payments[t.stages[c].pid] == t.db.payments[t.stages[c].pid]
    ensures s.Record? ==> t.stages[c].pid != s.pid
  {
    PaymentsAfter(t, s);
  }

  /** Only the acting client has changed, to a stage with the payment it had or a new one. */
  ghost predicate OnlyActorMoves(t: Till, s: Step, after: Till)
    requires Can(t, s)
  {
    && (forall c | c in after.stages && (s.Elsewhere? || c != s.c) ::
          c in t.stages && after.stages[c] == t.stages[c]
          && (HasRow(t.stages[c]) && s.Record? ==> t.stages[c].pid != s.pid))
    && (!s.Elsewhere? && s.c in after.stages && HasRow(after.stages[s.c]) ==>
          if s.Record? then after.stages[s.c].pid == s.pid
          else s.c in t.stages && HasRow(t.stages[s.c]) && after.stages[s.c].pid == t.stages[s.c].pid)
  }

  lemma RowsStayApart(t: Till, s: Step, after: Till)
    requires ClientsOk(t) && Can(t, s) && OnlyActorMoves(t, s, after)
    ensures forall c, d | c in after.stages && d in after.stages && HasRow(after.stages[c]) && HasRow(after.stages[d])
                          && after.stages[c].pid == after.stages[d].pid :: c == d
  {
  }

  lemma StepMovesOnlyActor(t: Till, s: Step)
    requires ClientsOk(t) && Can(t, s)
    ensures OnlyActorMoves(t, s, Do(t, s))
  {
    forall c | c in t.stages && (s.Elsewhere? || c != s.c) && HasRow(t.stages[c]) && s.Record?
      ensures t.stages[c].pid != s.pid
    {
      OthersKeepTheirRows(t, s, c);
    }
  }

  lemma StepKeepsClients(t: Till, s: Step)
    requires Covered(t.db) && ClientsOk(t) && Can(t, s) && Tolerable(t, s)
    ensures ClientsOk(Do(t, s))
  {
    var after := Do(t, s);
    StepMovesOnlyActor(t, s);
    RowsStayApart(t, s, after);
    forall c | c in after.stages ensures Knows(after.db, after.stages[c]) { StepKeepsKnowledge(t, s, c); }
  }

  lemma StepKeepsKnowledge(t: Till, s: Step, c: ClientId)
    requires Covered(t.db) && ClientsOk(t) && Can(t, s) && Tolerable(t, s) && c in StagesAfter(t, s)
    ensures Knows(DbAfter(t, s), StagesAfter(t, s)[c])
  {
    StepKeepsCovered(t, s);
    if s.Elsewhere? || c != s.c { OthersKnow(t, s, c); } else { ActorKnows(t, s); }
  }

  lemma OthersKnow(t: Till, s: Step, c: ClientId)
    requires ClientsOk(t) && Can(t, s) && Evolves(t.db, DbAfter(t, s)) && c in t.stages && (s.Elsewhere? || c != s.c)
    ensures Knows(DbAfter(t, s), t.stages[c])
  {
    if HasRow(t.stages[c]) { OthersKeepTheirRows(t, s, c); }
    KnowledgeLasts(t.db, DbAfter(t, s), t.stages[c]);
  }

  ghost predicate Executable(t: Till, steps: seq<Step>)
    decreases |steps|
  {
    steps == [] || (Can(t, steps[0]) && Executable(Do(t, steps[0]), steps[1..]))
  }

  ghost function After(t: Till, steps: seq<Step>): Till
    requires Executable(t, steps)
    decreases |steps|
  {
    if steps == [] then t else After(Do(t, steps[0]), steps[1..])
  }

  ghost predicate TolerableRun(t: Till, steps: seq<Step>)
    decreases |steps|
  {
    steps == [] || (Can(t, steps[0]) && Tolerable(t, steps[0]) && TolerableRun(Do(t, steps[0]), steps[1..]))
  }

  /** Some step of the run stamps a payment whose reservation is already paid for. */
  ghost predicate StampsTwice(t: Till, steps: seq<Step>)
    decreases |steps|
  {
    && steps != [] && Can(t, steps[0])
    && ((steps[0].Stamp? && HasPaid(t.db, Paying(t, steps[0].c))) || StampsTwice(Do(t, steps[0]), steps[1..]))
  }

  lemma StepPaysTwiceExactly(t: Till, s: Step)
    requires Covered(t.db) && ClientsOk(t) && Can(t, s) && Tolerable(t, s)
    ensures PaidTwice(Do(t, s).db) <==> PaidTwice(t.db) || (s.Stamp? && HasPaid(t.db, Paying(t, s.c)))
  {
    StepIsTolerated(t, s);
    if CommitOf(t, s).Some? { PaidTwiceExactly(t.db, CommitOf(t, s).value); }
  }

  /** Racing payments of one reservation cost nobody a seat and lose no money: the ledger holds, every
      payment is for its reservation's price, and payments and open bills are at least what was sold. The
      books end sound exactly if they were, and no step stamped a payment for a reservation already paid. */
  lemma {:induction false} RacingPaymentsExactly(t: Till, steps: seq<Step>)
    requires Covered(t.db) && ClientsOk(t) && TolerableRun(t, steps)
    ensures Executable(t, steps)
    ensures var end := After(t, steps);
            && Covered(end.db) && ClientsOk(end) && Evolves(t.db, end.db)
            && PaidTotal(end.db) + UnsettledTotal(end.db) >= SoldTotal(end.db)
            && (Sound(end.db) <==> !PaidTwice(t.db) && !StampsTwice(t, steps))
    decreases |steps|
  {
    if steps == [] {
      MoneyIsConservedExactly(t.db);
    } else {
      var next := Do(t, steps[0]);
      StepKeepsCovered(t, steps[0]);
      StepKeepsClients(t, steps[0]);
      StepPaysTwiceExactly(t, steps[0]);
      RacingPaymentsExactly(next, steps[1..]);
      EvolvesIsTransitive(t.db, next.db, After(t, steps).db);
    }
  }

  // ---- two payments of one reservation ----------------------------------------------------

  ghost predicate Reaches(t: Till, u: Till) {
    exists steps :: TolerableRun(t, steps) && Executable(t, steps) && After(t, steps) == u
  }

  lemma {:induction false} RunFurther(t: Till, steps: seq<Step>, s: Step)
    requires TolerableRun(t, steps) && Executable(t, steps) && Can(After(t, steps), s) && Tolerable(After(t, steps), s)
    ensures TolerableRun(t, steps + [s]) && Executable(t, steps + [s])
    ensures After(t, steps + [s]) == Do(After(t, steps), s)
    decreases |steps|
  {
    if steps == [] {
      assert steps + [s] == [s] && [s][1..] == [];
    } else {
      assert (steps + [s])[1..] == steps[1..] + [s];
      RunFurther(Do(t, steps[0]), steps[1..], s);
    }
  }

  lemma Go(t: Till, u: Till, s: Step, v: Till)
    requires Reaches(t, u) && Can(u, s) && Tolerable(u, s) && Do(u, s) == v
    ensures Reaches(t, v)
  {
    var steps :| TolerableRun(t, steps) && Executable(t, steps) && After(t, steps) == u;
    RunFurther(t, steps, s);
  }

  /** Two clients pay for one held reservation; the others are as in `stages`. */
  datatype Rivals = Rivals(stages: map<ClientId, Stage>, c: ClientId, d: ClientId, user: UserId, rid: ReservationId,
                           amount: nat, now: Instant, p: PaymentId, q: PaymentId)

  function Two(r: Rivals, db: Db, a: Stage, b: Stage): Till {
    Till(db, r.stages[r.c := a][r.d := b])
  }

  ghost predicate MayRace(r: Rivals, db: Db) {
    r.c != r.d && r.p != r.q && r.p !in db.payments && r.q !in db.payments
    && PayVerdict(db, r.user, r.rid, r.amount, r.now) == None
  }

  function Row(r: Rivals): Payment {
    Payment(r.rid, r.user, r.amount, Pending)
  }

  function FirstRow(r: Rivals, db: Db): Db { Apply(db, OpenC(r.p, Row(r))) }

  function BothRows(r: Rivals, db: Db): Db { Apply(FirstRow(r, db), OpenC(r.q, Row(r))) }

  function Sale(r: Rivals, db: Db): Db { CloseCommit(BothRows(r, db), r.rid, true) }

  function FirstPaid(r: Rivals, db: Db): Db { StampCommit(Sale(r, db), r.p, Paid) }

  lemma BothVerify(t: Till, r: Rivals)
    requires r.stages == t.stages && MayRace(r, t.db)
    ensures var v := Verified(r.user, r.rid, r.amount); Reaches(t, Two(r, t.db, v, v))
  {
    var v := Verified(r.user, r.rid, r.amount);
    assert TolerableRun(t, []) && After(t, []) == t;
    var t1 := Till(t.db, t.stages[r.c := Outside]);
    var t2, t3, t4 := Two(r, t.db, Outside, Outside), Two(r, t.db, v, Outside), Two(r, t.db, v, v);
    Go(t, t, Leave(r.c), t1);
    Go(t, t1, Leave(r.d), t2);
    assert t3.stages == t2.stages[r.c := v];
    Go(t, t2, Verify(r.c, r.user, r.rid, r.amount, r.now), t3);
    assert t4.stages == t3.stages[r.d := v];
    Go(t, t3, Verify(r.d, r.user, r.rid, r.amount, r.now), t4);
  }

  lemma BothRecord(t: Till, r: Rivals)
    requires r.stages == t.stages && MayRace(r, t.db)
    ensures Reaches(t, Two(r, BothRows(r, t.db), Recorded(r.p), Recorded(r.q)))
  {
    var v := Verified(r.user, r.rid, r.amount);
    BothVerify(t, r);
    var t4, t5 := Two(r, t.db, v, v), Two(r, FirstRow(r, t.db), Recorded(r.p), v);
    var t6 := Two(r, BothRows(r, t.db), Recorded(r.p), Recorded(r.q));
    assert t5.stages == t4.stages[r.c := Recorded(r.p)];
    Go(t, t4, Record(r.c, r.p), t5);
    assert t6.stages == t5.stages[r.d := Recorded(r.q)];
    Go(t, t5, Record(r.d, r.q), t6);
  }

  lemma BothAreApproved(t: Till, r: Rivals)
    requires r.stages == t.stages && MayRace(r, t.db)
    ensures Reaches(t, Two(r, BothRows(r, t.db), Approved(r.p), Approved(r.q)))
  {
    BothRecord(t, r);
    var db := BothRows(r, t.db);
    var t6, t7 := Two(r, db, Recorded(r.p), Recorded(r.q)), Two(r, db, Approved(r.p), Recorded(r.q));
    var t8 := Two(r, db, Approved(r.p), Approved(r.q));
    assert t7.stages == t6.stages[r.c := Approved(r.p)];
    Go(t, t6, Approve(r.c), t7);
    assert t8.stages == t7.stages[r.d := Approved(r.q)];
    Go(t, t7, Approve(r.d), t8);
  }

  lemma BothTest(t: Till, r: Rivals)
    requires r.stages == t.stages && MayRace(r, t.db)
    ensures Reaches(t, Two(r, BothRows(r, t.db), Tested(r.p), Tested(r.q)))
  {
    BothAreApproved(t, r);
    var db := BothRows(r, t.db);
    var t8, t9 := Two(r, db, Approved(r.p), Approved(r.q)), Two(r, db, Tested(r.p), Approved(r.q));
    var t10 := Two(r, db, Tested(r.p), Tested(r.q));
    assert t9.stages == t8.stages[r.c := Tested(r.p)];
    Go(t, t8, Test(r.c, r.now), t9);
    assert t10.stages == t9.stages[r.d := Tested(r.q)];
    Go(t, t9, Test(r.d, r.now), t10);
  }

  lemma FirstCompletes(t: Till, r: Rivals)
    requires r.stages == t.stages && MayRace(r, t.db)
    ensures Reaches(t, Two(r, Sale(r, t.db), Done(r.p), Tested(r.q)))
  {
    BothTest(t, r);
    var t10, t11 := Two(r, BothRows(r, t.db), Tested(r.p), Tested(r.q)), Two(r, Sale(r, t.db), Done(r.p), Tested(r.q));
    assert t11.stages == t10.stages[r.c := Done(r.p)];
    Go(t, t10, Complete(r.c), t11);
  }

  lemma FirstPays(t: Till, r: Rivals)
    requires r.stages == t.stages && MayRace(r, t.db)
    ensures Reaches(t, Two(r, FirstPaid(r, t.db), Outside, Tested(r.q)))
  {
    FirstCompletes(t, r);
    var t11, t12 := Two(r, Sale(r, t.db), Done(r.p), Tested(r.q)), Two(r, FirstPaid(r, t.db), Outside, Tested(r.q));
    assert t12.stages == t11.stages[r.c := Outside];
    Go(t, t11, Stamp(r.c), t12);
  }

  lemma SecondCompletesAgain(t: Till, r: Rivals)
    requires r.stages == t.stages && MayRace(r, t.db)
    ensures var db := CloseCommit(FirstPaid(r, t.db), r.rid, true);
            Reaches(t, Two(r, db, Outside, Done(r.q))) && db.payments == FirstPaid(r, t.db).payments
  {
    FirstPays(t, r);
    var t12 := Two(r, FirstPaid(r, t.db), Outside, Tested(r.q));
    var t13 := Two(r, CloseCommit(FirstPaid(r, t.db), r.rid, true), Outside, Done(r.q));
    assert t13.stages == t12.stages[r.d := Done(r.q)];
    Go(t, t12, Complete(r.d), t13);
  }

  /** From every state, whenever a reservation can be paid for, two clients can both pay for it: each is
      past its test before the other completes, the second completion finds the sale made and changes no
      seat, and both payments are stamped. If the price is not zero the payments then exceed the sales. */
  lemma TwoPaymentsOfOneReservation(t: Till, r: Rivals)
    requires r.stages == t.stages && MayRace(r, t.db) && Covered(t.db) && ClientsOk(t)
    ensures exists u :: Reaches(t, u) && Covered(u.db) && PaidTwice(u.db) && !Sound(u.db)
                        && (r.amount > 0 ==> PaidTotal(u.db) + UnsettledTotal(u.db) > SoldTotal(u.db))
  {
    SecondCompletesAgain(t, r);
    var db := CloseCommit(FirstPaid(r, t.db), r.rid, true);
    var t13, t14 := Two(r, db, Outside, Done(r.q)), Two(r, StampCommit(db, r.q, Paid), Outside, Outside);
    assert t14.stages == t13.stages[r.d := Outside];
    Go(t, t13, Stamp(r.d), t14);
    BothArePaid(r, t.db);
    assert Covered(t14.db) by { ReachedIsCovered(t, t14); }
    MoneyIsConservedExactly(t14.db);
  }

  lemma BothArePaid(r: Rivals, db: Db)
    requires MayRace(r, db)
    ensures var end := StampCommit(CloseCommit(FirstPaid(r, db), r.rid, true), r.q, Paid);
            && BothPay(end, r.p, r.q) && end.payments[r.p].amount == r.amount
            && PaidTwice(end) && (NothingPaidTwice(end) ==> r.amount == 0)
  {
    var end := StampCommit(CloseCommit(FirstPaid(r, db), r.rid, true), r.q, Paid);
    assert BothPay(end, r.p, r.q);
  }

  lemma ReachedIsCovered(t: Till, u: Till)
    requires Covered(t.db) && ClientsOk(t) && Reaches(t, u)
    ensures Covered(u.db)
  {
    var steps :| TolerableRun(t, steps) && Executable(t, steps) && After(t, steps) == u;
    RacingPaymentsExactly(t, steps);
  }

  const HELD := Db(map[7 := Seat(1, 100, Hold, Some(10), Some(HOLD_MICROS))],
                   map[0 := Reservation(10, 1, [7], Held, HOLD_MICROS)], map[])

  /** Such a state exists: one seat for 100, held by one user and paid for from two tabs. */
  lemma OneSeatIsPaidTwice()
    ensures Sound(HELD) && SoldTotal(HELD) == 0
    ensures exists u :: Reaches(Till(HELD, map[]), u) && PaidTwice(u.db)
                        && PaidTotal(u.db) + UnsettledTotal(u.db) > SoldTotal(u.db)
  {
    var r := Rivals(map[], 1, 2, 10, 0, 100, 0, 0, 1);
    OneSeatCanBePaid();
    TwoPaymentsOfOneReservation(Till(HELD, map[]), r);
  }

  lemma OneSeatCanBePaid()
    ensures Sound(HELD) && SoldTotal(HELD) == 0 && Price(HELD.seats, [7]) == 100
  {
    assert Owns(HELD, 0, 7);
    assert SoldSeats(HELD) == {};
    assert Elements([7]) * HELD.seats.Keys == {7};
    TotalRemove({7}, Prices(HELD.seats), 7);
    assert {7} - {7} == {};
  }

  // ---- orderly runs -----------------------------------------------------------------------

  /** A client past the completion is the only one who can still stamp its reservation. */
  ghost predicate OwnCompletions(t: Till) {
    && (forall c | c in t.stages && t.stages[c].Done? :: Unsettled(t.db, ReservationOf(t, t.stages[c].pid)))
    && (forall c, d | c in t.stages && d in t.stages && t.stages[c].Done? && t.stages[d].Done?
                      && ReservationOf(t, t.stages[c].pid) == ReservationOf(t, t.stages[d].pid) :: c == d)
  }

  ghost predicate TillOk(t: Till) {
    Sound(t.db) && ClientsOk(t) && OwnCompletions(t)
  }

  /** In an orderly run whatever a client is about to commit is enabled, but for a payment row whose
      reservation has been closed since it was verified: in particular no reservation is stamped twice,
      although nothing locks it between the completion and the stamp. */
  lemma StepIsEnabled(t: Till, s: Step)
    requires TillOk(t) && Can(t, s) && Orderly(t, s)
    ensures Tolerable(t, s)
    ensures CommitOf(t, s).Some? ==>
              || Enabled(t.db, CommitOf(t, s).value)
              || (s.Record? && Tolerates(t.db, CommitOf(t, s).value) && !StillHeld(t.db, StageOf(t, s.c).rid))
    ensures CommitOf(t, s).Some? ==> !StampsAgain(t.db, CommitOf(t, s).value)
  {
  }

  /** The reservations some client has completed and is about to stamp. */
  ghost function Owed(t: Till): set<ReservationId> {
    set c | c in t.stages && t.stages[c].Done? :: ReservationOf(t, t.stages[c].pid)
  }

  ghost predicate UnsettledNext(t: Till, s: Step, rid: ReservationId)
    requires Can(t, s)
  {
    || (Unsettled(t.db, rid) && !(s.Stamp? && rid == Paying(t, s.c)))
    || (s.Complete? && rid == Paying(t, s.c))
  }

  lemma UnsettledAfter(t: Till, s: Step, rid: ReservationId)
    requires TillOk(t) && Can(t, s) && Orderly(t, s)
    ensures Unsettled(Do(t, s).db, rid) <==> UnsettledNext(t, s, rid)
  {
    StepIsEnabled(t, s);
    if s.Record? {
      RowSettlesNothing(t.db, CommitOf(t, s).value, rid);
    } else if CommitOf(t, s).Some? {
      UnsettledMoves(t.db, CommitOf(t, s).value);
      assert Unsettled(Do(t, s).db, rid) <==> rid in UnsettledReservations(Do(t, s).db);
      assert Unsettled(t.db, rid) <==> rid in UnsettledReservations(t.db);
    }
  }

  lemma RowSettlesNothing(db: Db, c: Commit, rid: ReservationId)
    requires c.OpenC? && Tolerates(db, c)
    ensures Unsettled(Apply(db, c), rid) <==> Unsettled(db, rid)
  {
    var after := Apply(db, c);
    if HasPaid(db, rid) {
      var pid :| pid in db.payments && db.payments[pid].status == Paid && db.payments[pid].reservation == rid;
      assert after.payments[pid] == db.payments[pid];
    }
  }

  /** What the rest of the proof needs to know about the state after a step. */
  ghost predicate Follows(t: Till, s: Step, after: Till)
    requires Can(t, s)
  {
    && after.stages == StagesAfter(t, s)
    && (forall pid | pid in t.db.payments :: ReservationOf(after, pid) == ReservationOf(t, pid))
    && (forall rid :: Unsettled(after.db, rid) <==> UnsettledNext(t, s, rid))
  }

  lemma DoFollows(t: Till, s: Step)
    requires TillOk(t) && Can(t, s) && Orderly(t, s)
    ensures Follows(t, s, Do(t, s))
  {
    PaymentsAfter(t, s);
    forall rid ensures Unsettled(Do(t, s).db, rid) <==> UnsettledNext(t, s, rid) { UnsettledAfter(t, s, rid); }
  }

  lemma FollowsKeepsOwnCompletions(t: Till, s: Step, after: Till)
    requires ClientsOk(t) && OwnCompletions(t) && Can(t, s) && Orderly(t, s) && Follows(t, s, after)
    ensures OwnCompletions(after)
  {
    forall c, d | c in after.stages && d in after.stages && after.stages[c].Done? && after.stages[d].Done?
      ensures Unsettled(after.db, ReservationOf(after, after.stages[c].pid))
      ensures ReservationOf(after, after.stages[c].pid) == ReservationOf(after, after.stages[d].pid) ==> c == d
    {
      DoneIsOldOrNew(t, s, after, c);
      DoneIsOldOrNew(t, s, after, d);
    }
  }

  /** A client past its completion was so before the step and its reservation is not the one being stamped
      or completed now, or it is the one that has just completed. */
  lemma DoneIsOldOrNew(t: Till, s: Step, after: Till, c: ClientId)
    requires ClientsOk(t) && OwnCompletions(t) && Can(t, s) && Orderly(t, s) && Follows(t, s, after)
    requires c in after.stages && after.stages[c].Done?
    ensures var rid := ReservationOf(after, after.stages[c].pid);
            && Unsettled(after.db, rid)
            && (if s.Complete? && s.c == c then rid == Paying(t, c)
                else
                  && c in t.stages && t.stages[c] == after.stages[c] && rid == ReservationOf(t, t.stages[c].pid)
                  && (s.Complete? ==> rid != Paying(t, s.c)))
  {
    var rid := ReservationOf(after, after.stages[c].pid);
    if s.Complete? && s.c == c {
      assert Knows(t.db, t.stages[c]);
    } else {
      assert c in t.stages && t.stages[c] == after.stages[c] && Knows(t.db, t.stages[c]);
      assert Unsettled(t.db, rid);
    }
    assert Unsettled(after.db, rid) <==> UnsettledNext(t, s, rid);
  }

  lemma StepKeepsTill(t: Till, s: Step)
    requires TillOk(t) && Can(t, s) && Orderly(t, s)
    ensures TillOk(Do(t, s)) && Evolves(t.db, Do(t, s).db)
  {
    StepIsEnabled(t, s);
    StepKeepsCovered(t, s);
    StepKeepsClients(t, s);
    StepPaysTwiceExactly(t, s);
    DoFollows(t, s);
    FollowsKeepsOwnCompletions(t, s, Do(t, s));
  }

  /** No client leaves between its completion and its stamp. */
  ghost predicate Stays(t: Till, s: Step) {
    s.Leave? ==> !StageOf(t, s.c).Done?
  }

  lemma FollowsKeepsOwed(t: Till, s: Step, after: Till)
    requires TillOk(t) && Can(t, s) && Orderly(t, s) && Follows(t, s, after) && Stays(t, s)
    requires UnsettledReservations(t.db) == Owed(t)
    ensures UnsettledReservations(after.db) == Owed(after)
  {
    forall rid ensures rid in Owed(after) <==> Unsettled(after.db, rid) {
      assert Unsettled(t.db, rid) <==> rid in UnsettledReservations(t.db);
      OwedAfter(t, s, after, rid);
    }
    assert forall rid :: rid in UnsettledReservations(after.db) <==> Unsettled(after.db, rid);
  }

  lemma OwedAfter(t: Till, s: Step, after: Till, rid: ReservationId)
    requires ClientsOk(t) && OwnCompletions(t) && Can(t, s) && Orderly(t, s) && Follows(t, s, after) && Stays(t, s)
    ensures rid in Owed(after) <==>
              || (rid in Owed(t) && !(s.Stamp? && rid == Paying(t, s.c)))
              || (s.Complete? && rid == Paying(t, s.c))
  {
    if c :| c in after.stages && after.stages[c].Done? && ReservationOf(after, after.stages[c].pid) == rid {
      DoneIsOldOrNew(t, s, after, c);
    }
    if s.Complete? {
      assert s.c in after.stages && after.stages[s.c].Done? && Knows(t.db, t.stages[s.c]);
    }
    if c :| c in t.stages && t.stages[c].Done? && ReservationOf(t, t.stages[c].pid) == rid && !(s.Stamp? && c == s.c) {
      assert c in after.stages && after.stages[c] == t.stages[c] && Knows(t.db, t.stages[c]);
    }
  }

  ghost predicate OrderlyRun(t: Till, steps: seq<Step>)
    decreases |steps|
  {
    steps == [] || (Can(t, steps[0]) && Orderly(t, steps[0]) && OrderlyRun(Do(t, steps[0]), steps[1..]))
  }

  /** Nobody fails or crashes between completion and stamp. */
  ghost predicate AllStay(t: Till, steps: seq<Step>)
    requires OrderlyRun(t, steps)
    decreases |steps|
  {
    steps == [] || (Stays(t, steps[0]) && AllStay(Do(t, steps[0]), steps[1..]))
  }

  /** In every interleaving in which closing commits find their reservations still held, crashes included,
      the price of the sold seats is the money stamped paid plus the bills not stamped yet. Unless a client
      leaves between completion and stamp those bills are exactly the ones some client is still about to
      stamp, so whenever every client is outside the till balances. */
  lemma {:induction false} InterleavedTillConserves(t: Till, steps: seq<Step>)
    requires TillOk(t) && OrderlyRun(t, steps)
    ensures Executable(t, steps)
    ensures var end := After(t, steps);
            && TillOk(end) && Evolves(t.db, end.db)
            && PaidTotal(end.db) + UnsettledTotal(end.db) == SoldTotal(end.db)
            && (UnsettledReservations(t.db) == Owed(t) && AllStay(t, steps) ==>
                  UnsettledReservations(end.db) == Owed(end))
            && (UnsettledReservations(end.db) == Owed(end) && (forall c | c in end.stages :: end.stages[c].Outside?) ==>
                  PaidTotal(end.db) == SoldTotal(end.db))
    decreases |steps|
  {
    if steps == [] {
      MoneyIsConserved(t.db);
      if UnsettledReservations(t.db) == Owed(t) && forall c | c in t.stages :: t.stages[c].Outside? {
        assert Owed(t) == {};
        SettledBooksBalance(t.db);
      }
    } else {
      var next := Do(t, steps[0]);
      StepKeepsTill(t, steps[0]);
      InterleavedTillConserves(next, steps[1..]);
      EvolvesIsTransitive(t.db, next.db, After(t, steps).db);
      if UnsettledReservations(t.db) == Owed(t) && Stays(t, steps[0]) {
        DoFollows(t, steps[0]);
        FollowsKeepsOwed(t, steps[0], next);
      }
    }
  }
}
