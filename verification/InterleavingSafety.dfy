/** What every interleaving of reservation clients keeps, and under which assumptions about time. */
module InterleavingSafety {
  import opened Wrappers
  import opened Booking
  import opened SeatLedger
  import opened Money
  import opened Histories
  import opened Calls
  import opened Interleaving

  // ---- assumptions about a run ------------------------------------------------------------

  /** No client between its lock and its commit has used up the time it was given. About the clock
      alone: that the key in Redis is still its own is proved. */
  ghost predicate InTime(w: World) {
    forall c | c in w.clients && InSection(w.clients[c]) :: w.now < w.clients[c].until
  }

  /** If this step obtains the lock for a cancellation or completion, the reservation is still held at
      that moment. The code tests this only before it asks for the lock. */
  ghost predicate Unraced(w: World, a: Action) {
    a.Acquire? && a.c in w.clients && w.clients[a.c].Ready? && TestsOnlyOutside(w.clients[a.c].job) ==>
      StillHeld(w.db, w.clients[a.c].job.rid)
  }

  predicate TestsOnlyOutside(job: Job) {
    job.CloseJob? && job.kind != ByRelease
  }

  // ---- invariants -------------------------------------------------------------------------

  /** At most one unexpired held reservation for each user and event. */
  ghost predicate OneActive(db: Db, now: Instant) {
    forall r1, r2 | r1 in db.reservations && r2 in db.reservations
                    && ActiveHold(db.reservations[r1], db.reservations[r1].user, db.reservations[r1].event, now)
                    && ActiveHold(db.reservations[r2], db.reservations[r1].user, db.reservations[r1].event, now) ::
                          r1 == r2
  }

  ghost predicate HasJob(pc: Pc) {
    pc.Ready? || pc.Entered? || pc.Locking?
  }

  ghost predicate JobsOk(w: World) {
    forall c | c in w.clients && HasJob(w.clients[c]) && w.clients[c].job.CloseJob? ::
      var job := w.clients[c].job;
      && job.rid in w.db.reservations && w.db.reservations[job.rid].event == job.event
      && (job.kind.ByPayment? ==> w.db.reservations[job.rid].expiresAt >= job.kind.testedAt)
  }

  /** What a client tested inside the lock is still true while it waits for rows; a cancellation or
      completion still finds its reservation held from the lock on. */
  ghost predicate CheckedOk(w: World) {
    forall c | c in w.clients && InSection(w.clients[c]) :: StillTrue(w, w.clients[c])
  }

  ghost predicate StillTrue(w: World, pc: Pc)
    requires InSection(pc)
  {
    match pc.job
    case HoldJob(event, user, _) => pc.Locking? ==> !HasActiveHold(w.db, user, event, w.now)
    case CloseJob(_, rid, _) => pc.Locking? || TestsOnlyOutside(pc.job) ==> StillHeld(w.db, rid)
  }

  ghost predicate Safe(w: World) {
    && Ledger(w.db) && OneActive(w.db, w.now)
    && RowsOk(w) && TokensOk(w) && LeaseOk(w) && JobsOk(w) && CheckedOk(w)
  }

  /** A fresh system: every client idle, no lock anywhere. */
  ghost predicate Initial(w: World) {
    && Ledger(w.db) && OneActive(w.db, w.now) && w.leases == map[] && w.rowLocks == map[]
    && forall c | c in w.clients :: w.clients[c] == Idle
  }

  lemma InitialIsSafe(w: World)
    requires Initial(w)
    ensures Safe(w)
  {
  }

  /** Two clients with time left are never in the section of the same event: each would find the one
      key of the event to be its own. */
  lemma MutualExclusion(w: World, c: ClientId, d: ClientId)
    requires TokensOk(w) && LeaseOk(w) && c in w.clients && d in w.clients
    requires InSection(w.clients[c]) && InSection(w.clients[d])
    requires w.now < w.clients[c].until && w.now < w.clients[d].until
    ensures w.clients[c].job.event == w.clients[d].job.event ==> c == d
  {
    assert Leased(w, w.clients[c]) && Leased(w, w.clients[d]);
  }

  ghost function CommitOf(job: Job, rid: ReservationId, rows: seq<SeatId>, writeAt: Instant): Commit {
    match job
    case HoldJob(event, user, _) => HoldC(rid, user, event, rows, writeAt + HOLD_MICROS)
    case CloseJob(_, closed, kind) => CloseC(closed, kind.ByPayment?)
  }

  /** A client that has all its rows commits an enabled transaction: for a hold because nobody can
      have changed the rows it read, for a close if the reservation is held. */
  lemma CommitIsEnabled(w: World, a: Action)
    requires RowsOk(w) && Can(w, a) && a.CommitWork?
    requires w.clients[a.c].job.CloseJob? ==> StillHeld(w.db, w.clients[a.c].job.rid)
    ensures Enabled(w.db, CommitOf(w.clients[a.c].job, a.rid, a.rows, a.writeAt))
    ensures Do(w, a).db == Apply(w.db, CommitOf(w.clients[a.c].job, a.rid, a.rows, a.writeAt))
  {
    if w.clients[a.c].job.HoldJob? {
      forall x | x in a.rows ensures x in w.clients[a.c].seen { assert x in Elements(a.rows); }
    }
  }

  lemma StepKeepsLedger(w: World, a: Action)
    requires Safe(w) && Can(w, a)
    ensures Ledger(Do(w, a).db) && Evolves(w.db, Do(w, a).db)
  {
    if a.CommitWork? {
      CommitIsEnabled(w, a);
      CommitKeepsLedger(w.db, CommitOf(w.clients[a.c].job, a.rid, a.rows, a.writeAt));
      CommitEvolves(w.db, CommitOf(w.clients[a.c].job, a.rid, a.rows, a.writeAt));
    }
  }

  lemma HoldKeepsOneActive(w: World, a: Action)
    requires OneActive(w.db, w.now) && CheckedOk(w) && Can(w, a) && a.CommitWork? && w.clients[a.c].job.HoldJob?
    ensures OneActive(Do(w, a).db, w.now)
  {
    assert StillTrue(w, w.clients[a.c]);
  }

  lemma CloseKeepsOneActive(db: Db, rid: ReservationId, sold: bool, now: Instant)
    requires OneActive(db, now)
    ensures OneActive(CloseCommit(db, rid, sold), now)
  {
  }

  lemma StepKeepsOneActive(w: World, a: Action)
    requires OneActive(w.db, w.now) && CheckedOk(w) && Can(w, a)
    ensures OneActive(Do(w, a).db, Do(w, a).now)
  {
    if a.CommitWork? {
      match w.clients[a.c].job
      case HoldJob(_, _, _) => HoldKeepsOneActive(w, a);
      case CloseJob(_, rid, kind) => CloseKeepsOneActive(w.db, rid, kind.ByPayment?, w.now);
    }
  }

  lemma StepKeepsJobs(w: World, a: Action)
    requires JobsOk(w) && Can(w, a)
    ensures JobsOk(Do(w, a))
  {
  }

  lemma StepKeepsChecked(w: World, a: Action)
    requires Safe(w) && InTime(w) && Unraced(w, a) && Can(w, a)
    ensures CheckedOk(Do(w, a))
  {
    var after := Do(w, a);
    forall c | c in after.clients && InSection(after.clients[c]) ensures StillTrue(after, after.clients[c]) {
      if a.CommitWork? { CommitSparesOthers(w, a, c); } else { StepSparesTests(w, a, c); }
    }
  }

  /** A step that commits nothing undoes no test, and makes those its client now counts on. */
  lemma StepSparesTests(w: World, a: Action, c: ClientId)
    requires CheckedOk(w) && Unraced(w, a) && Can(w, a) && !a.CommitWork?
    requires c in Do(w, a).clients && InSection(Do(w, a).clients[c])
    ensures StillTrue(Do(w, a), Do(w, a).clients[c])
  {
    if InSection(w.clients[c]) { assert StillTrue(w, w.clients[c]); }
  }

  /** A commit cannot undo what another client tested: that client is in another event's section. */
  lemma CommitSparesOthers(w: World, a: Action, c: ClientId)
    requires Safe(w) && InTime(w) && Can(w, a) && a.CommitWork?
    requires c in w.clients && c != a.c && InSection(w.clients[c])
    ensures StillTrue(Do(w, a), w.clients[c])
  {
    MutualExclusion(w, c, a.c);
  }

  /** One step, in any interleaving: the whole invariant is kept as long as sections end in time and
      closings are not raced. */
  lemma StepIsSafe(w: World, a: Action)
    requires Safe(w) && InTime(w) && Unraced(w, a) && Can(w, a)
    ensures Safe(Do(w, a)) && Evolves(w.db, Do(w, a).db)
  {
    StepKeepsLedger(w, a);
    StepKeepsOneActive(w, a);
    StepKeepsRows(w, a);
    StepKeepsTokens(w, a);
    StepKeepsLeases(w, a);
    StepKeepsJobs(w, a);
    StepKeepsChecked(w, a);
  }

  /** A run in which sections are always in time and no closing is raced to the lock. */
  ghost predicate Disciplined(w: World, acts: seq<Action>)
    decreases |acts|
  {
    && InTime(w)
    && (acts == [] || (Can(w, acts[0]) && Unraced(w, acts[0]) && Disciplined(Do(w, acts[0]), acts[1..])))
  }

  /** What one step commits, if anything. */
  ghost function CommitsAt(w: World, a: Action): seq<Commit>
    requires Can(w, a)
  {
    if a.CommitWork? then [CommitOf(w.clients[a.c].job, a.rid, a.rows, a.writeAt)] else []
  }

  /** The transactions a run commits, in order. */
  ghost function CommitsIn(w: World, acts: seq<Action>): seq<Commit>
    requires Executable(w, acts)
    decreases |acts|
  {
    if acts == [] then [] else CommitsAt(w, acts[0]) + CommitsIn(Do(w, acts[0]), acts[1..])
  }

  /** A step plays what it commits. */
  lemma StepPlays(w: World, a: Action)
    requires RowsOk(w) && CheckedOk(w) && Can(w, a)
    ensures Legal(w.db, CommitsAt(w, a)) && Do(w, a).db == Play(w.db, CommitsAt(w, a))
  {
    if a.CommitWork? {
      assert StillTrue(w, w.clients[a.c]);
      CommitIsEnabled(w, a);
      assert CommitsAt(w, a)[1..] == [];
    }
  }

  /** A legal history with one step's transactions in front. */
  lemma JoinRun(db: Db, first: seq<Commit>, rest: seq<Commit>, end: Db)
    requires Legal(db, first) && Legal(Play(db, first), rest) && end == Play(Play(db, first), rest)
    ensures Legal(db, first + rest) && end == Play(db, first + rest)
  {
    LegalSplits(db, first, rest);
  }

  /** The interleaving refines one transaction after another: what a disciplined run commits is a legal
      history, and playing it gives the database the run ends with. */
  lemma {:induction false} DisciplinedRunIsLegal(w: World, acts: seq<Action>)
    requires Safe(w) && Disciplined(w, acts)
    ensures Executable(w, acts)
    ensures Legal(w.db, CommitsIn(w, acts)) && After(w, acts).db == Play(w.db, CommitsIn(w, acts))
    decreases |acts|
  {
    if acts == [] {
    } else {
      var next := Do(w, acts[0]);
      assert Safe(next) by { StepIsSafe(w, acts[0]); }
      StepPlays(w, acts[0]);
      DisciplinedRunIsLegal(next, acts[1..]);
      JoinRun(w.db, CommitsAt(w, acts[0]), CommitsIn(next, acts[1..]), After(next, acts[1..]).db);
    }
  }

  lemma {:induction false} DisciplinedRunKeepsSafe(w: World, acts: seq<Action>)
    requires Safe(w) && Disciplined(w, acts)
    ensures Executable(w, acts) && Safe(After(w, acts))
    decreases |acts|
  {
    if acts == [] {
    } else {
      StepIsSafe(w, acts[0]);
      DisciplinedRunKeepsSafe(Do(w, acts[0]), acts[1..]);
    }
  }

  /** Every state that any number of interleaved clients reach this way keeps the seat ledger and has
      at most one unexpired held reservation per user and event; and whatever was sold on the way is
      still sold to the same reservation. */
  lemma DisciplinedRunIsSafe(w: World, acts: seq<Action>)
    requires Safe(w) && Disciplined(w, acts)
    ensures Executable(w, acts)
    ensures Safe(After(w, acts)) && Evolves(w.db, After(w, acts).db)
    ensures forall x :: StaysSold(w.db, After(w, acts).db, x)
  {
    DisciplinedRunKeepsSafe(w, acts);
    DisciplinedRunIsLegal(w, acts);
    HistoryEvolves(w.db, CommitsIn(w, acts));
    forall x ensures StaysSold(w.db, After(w, acts).db, x) { SoldSeatStaysSold(w.db, After(w, acts).db, x); }
  }

  /** From a fresh system every state that disciplined clients reach keeps the ledger and one live hold
      per user and event. These clients write no payment rows; if the books were sound, their
      completions, holds and cancellations keep them so, and every completed sale is accounted for. */
  lemma FreshRunIsSound(w: World, acts: seq<Action>)
    requires Initial(w) && Disciplined(w, acts)
    ensures Executable(w, acts)
    ensures var end := After(w, acts);
            && Ledger(end.db) && OneActive(end.db, end.now) && Evolves(w.db, end.db)
            && (forall x :: StaysSold(w.db, end.db, x))
            && (Sound(w.db) ==> Sound(end.db) && PaidTotal(end.db) + UnsettledTotal(end.db) == SoldTotal(end.db))
  {
    InitialIsSafe(w);
    DisciplinedRunIsSafe(w, acts);
    if Sound(w.db) {
      DisciplinedRunIsLegal(w, acts);
      HistoryKeepsSound(w.db, CommitsIn(w, acts));
      MoneyIsConserved(After(w, acts).db);
    }
  }

  /** In a safe state a payment's commit finds its reservation held, as OrderlyRun of InterleavedPayments
      asks, and not expired when the payment tested it. */
  lemma CompletionIsOneStep(w: World, a: Action)
    requires Safe(w) && Can(w, a) && a.CommitWork?
    requires w.clients[a.c].job.CloseJob? && w.clients[a.c].job.kind.ByPayment?
    ensures var job := w.clients[a.c].job;
            && CompleteRefusal(w.db, job.rid, job.kind.testedAt) == None
            && Do(w, a).db == Apply(w.db, CloseC(job.rid, true))
  {
    assert StillTrue(w, w.clients[a.c]);
  }

  // ---- holds alone: no assumption about time ----------------------------------------------

  ghost predicate OnlyHolds(w: World) {
    forall c | c in w.clients && HasJob(w.clients[c]) :: w.clients[c].job.HoldJob?
  }

  lemma HoldStepKeepsLedger(w: World, a: Action)
    requires Ledger(w.db) && RowsOk(w) && OnlyHolds(w) && Can(w, a) && (a.Begin? ==> a.job.HoldJob?)
    ensures Ledger(Do(w, a).db) && RowsOk(Do(w, a)) && OnlyHolds(Do(w, a))
  {
    StepKeepsRows(w, a);
    if a.CommitWork? {
      CommitIsEnabled(w, a);
      CommitKeepsLedger(w.db, CommitOf(w.clients[a.c].job, a.rid, a.rows, a.writeAt));
    }
  }

  /** In every interleaving of hold calls, however leases expire and however many callers are inside
      the section at once, the row locks alone keep the ledger: no seat is held for two. */
  lemma {:induction false} HoldsNeedNoLease(w: World, acts: seq<Action>)
    requires Ledger(w.db) && RowsOk(w) && OnlyHolds(w) && Executable(w, acts)
    requires forall a | a in acts && a.Begin? :: a.job.HoldJob?
    ensures Ledger(After(w, acts).db)
    ensures forall r1, r2, x | Owns(After(w, acts).db, r1, x) && Owns(After(w, acts).db, r2, x) :: r1 == r2
    decreases |acts|
  {
    if acts == [] {
    } else {
      HoldStepKeepsLedger(w, acts[0]);
      HoldsNeedNoLease(Do(w, acts[0]), acts[1..]);
    }
  }

  // ---- the lock ---------------------------------------------------------------------------

  lemma {:induction false} RunKeepsTokens(w: World, acts: seq<Action>)
    requires TokensOk(w) && Executable(w, acts)
    ensures TokensOk(After(w, acts))
    decreases |acts|
  {
    if acts == [] {
    } else {
      StepKeepsTokens(w, acts[0]);
      RunKeepsTokens(Do(w, acts[0]), acts[1..]);
    }
  }

  ghost predicate HoldsLease(w: World, c: ClientId, event: EventId) {
    c in w.clients && HasToken(w.clients[c]) && !LockFree(w, event) && w.leases[event].token == w.clients[c].token
  }

  /** Lock safety in every run, in time or not: at most one client's token matches a live key, and a
      client that leaves removes no key but its own, so an owner whose lease has expired never frees
      its successor's lock. */
  lemma LockIsSafe(w0: World, acts: seq<Action>, event: EventId, c: ClientId, d: ClientId)
    requires TokensOk(w0) && Executable(w0, acts)
    ensures var w := After(w0, acts);
            && (HoldsLease(w, c, event) && HoldsLease(w, d, event) ==> c == d)
            && (HoldsLease(w, d, event) && c != d && Can(w, Release(c)) ==> HoldsLease(Do(w, Release(c)), d, event))
            && (HoldsLease(w, c, event) && Can(w, Release(c)) && w.clients[c].event == event ==>
                  event !in Do(w, Release(c)).leases)
  {
    RunKeepsTokens(w0, acts);
  }

  // ---- when a hold outlives its lease ------------------------------------------------------

  /** The exact condition for a hold whose test is no longer fresh when it commits: it gives nobody two
      live holds if and only if the new hold has already run out, or the user still has no other. */
  lemma LateHoldIsUniqueExactly(w: World, a: Action)
    requires OneActive(w.db, w.now) && Can(w, a) && a.CommitWork? && w.clients[a.c].job.HoldJob?
    ensures var job := w.clients[a.c].job;
            OneActive(Do(w, a).db, w.now) <==>
              a.writeAt + HOLD_MICROS <= w.now || !HasActiveHold(w.db, job.user, job.event, w.now)
  {
    var job, after := w.clients[a.c].job, Do(w, a).db;
    assert after.reservations[a.rid] == Reservation(job.user, job.event, a.rows, Held, a.writeAt + HOLD_MICROS);
    if a.writeAt + HOLD_MICROS > w.now && HasActiveHold(w.db, job.user, job.event, w.now) {
      var r :| r in w.db.reservations && ActiveHold(w.db.reservations[r], job.user, job.event, w.now);
      assert ActiveHold(after.reservations[r], job.user, job.event, w.now);
      assert ActiveHold(after.reservations[a.rid], job.user, job.event, w.now);
      assert r != a.rid;
    }
  }

  // ---- when a cancellation or completion is raced -----------------------------------------

  /** The exact condition for a closing commit that does not look again inside the lock: it leaves ledger
      and history intact if and only if the reservation is still held, or the same change was made
      already and the seats are still as it left them. A second completion is among the latter, and is
      how a second payment comes to be stamped: InterleavedPayments has the condition on the stamp. */
  lemma LateCloseIsSafeExactly(w: World, a: Action)
    requires Ledger(w.db) && JobsOk(w) && Can(w, a) && a.CommitWork? && w.clients[a.c].job.CloseJob?
    ensures var job := w.clients[a.c].job;
            var r := w.db.reservations[job.rid];
            Ledger(Do(w, a).db) && Evolves(w.db, Do(w, a).db) <==>
              || r.status == Held
              || (job.kind.ByPayment? && r.status == Completed)
              || (!job.kind.ByPayment? && r.status == Cancelled
                  && forall x | x in r.seats :: w.db.seats[x].status == Available)
  {
    var job := w.clients[a.c].job;
    CloseIsSafeExactly(w.db, job.rid, job.kind.ByPayment?);
  }
}
