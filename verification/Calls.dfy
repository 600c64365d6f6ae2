/** What each service call is required to do, stated on values: which transactions it commits to a
    given database, what it answers, and what it leaves in Redis. The methods in Services are
    verified against these functions; the properties of the calls are proved here. */
module Calls {
  import opened Wrappers
  import opened Booking
  import opened SeatLedger
  import opened Money
  import opened Histories

  /** What the environment lets one critical section do: obtain the lock; have its commit taken by the
      database (`stored`); set or delete its hold keys (`redisUp`); publish; give the lock back without
      an error (`unlocked`). A payment also commits its pending row (`recorded`) and its stamp. */
  datatype Fate = Fate(locked: bool, stored: bool, redisUp: bool, published: bool, unlocked: bool,
                       recorded: bool, stamped: bool)

  /** The section is entered and its transaction committed. */
  predicate Commits(fate: Fate) {
    fate.locked && fate.stored
  }

  /** Nothing fails between the completion's commit and the stamp's. */
  predicate Settles(fate: Fate) {
    fate.redisUp && fate.unlocked && fate.stamped
  }

  /** What the caller of a section is told: an error in giving the lock back hides whatever the section
      did, done or not. */
  function Told(raised: Option<Error>, fate: Fate): Option<Error> {
    if fate.locked && !fate.unlocked then Some(RedisUnavailable) else raised
  }

  /** A published seat update. All its entries carry one status, so their order is immaterial. */
  datatype Message = Message(event: EventId, seats: set<SeatId>, status: SeatStatus)

  datatype HoldKey = HoldKey(user: UserId, until: Instant)

  /** The Redis side of the services: hold keys, events whose lists are cached, messages sent. */
  datatype Broker = Broker(holdKeys: map<(EventId, SeatId), HoldKey>, allCached: set<EventId>,
                           availableCached: set<EventId>, sent: seq<Message>)

  function Publish(b: Broker, m: Message, published: bool): Broker {
    if !published then b
    else b.(allCached := b.allCached - {m.event}, availableCached := b.availableCached - {m.event},
            sent := b.sent + [m])
  }

  function DropKeys(b: Broker, event: EventId, rows: set<SeatId>): Broker {
    b.(holdKeys := map k | k in b.holdKeys && !(k.0 == event && k.1 in rows) :: b.holdKeys[k])
  }

  function SetKeys(b: Broker, event: EventId, rows: set<SeatId>, key: HoldKey): Broker {
    b.(holdKeys := b.holdKeys + map x | x in rows :: (event, x) := key)
  }

  /** The rows a seat query over `ids` finds. */
  function Existing(db: Db, ids: seq<SeatId>): set<SeatId> {
    set x | x in ids && x in db.seats
  }

  function Matching(db: Db, event: EventId, request: seq<SeatId>): set<SeatId> {
    set x | x in request && x in db.seats && db.seats[x].event == event
  }

  // ---- hold_seats -------------------------------------------------------------------------

  ghost function HoldVerdict(db: Db, user: UserId, event: EventId, request: seq<SeatId>, checkAt: Instant,
                             fate: Fate): Option<Error>
  {
    if !fate.locked then Some(LockNotAcquired)
    else if HasActiveHold(db, user, event, checkAt) then Some(DuplicateReservation)
    else if |Matching(db, event, request)| != |request| then Some(SeatNotAvailable)
    else if exists x | x in Matching(db, event, request) :: db.seats[x].status != Available then Some(SeatNotAvailable)
    else if !fate.redisUp then Some(RedisUnavailable)
    else if !fate.stored then Some(DatabaseUnavailable)
    else None
  }

  /** Redis after a hold: untouched if a test failed, with keys but no message if the commit failed. */
  function AfterHold(b: Broker, verdict: Option<Error>, event: EventId, request: seq<SeatId>, key: HoldKey,
                     fate: Fate): Broker
  {
    match verdict
    case None => Publish(SetKeys(b, event, Elements(request), key), Message(event, Elements(request), Hold),
                         fate.published)
    case Some(error) => if error == DatabaseUnavailable then SetKeys(b, event, Elements(request), key) else b
  }

  /** A hold succeeds exactly when the section is entered, both stores take it, the user has no live
      hold for the event, and the request names distinct, existing, available seats of that event. In
      particular the length test refuses a request that repeats a seat. */
  lemma HoldSucceedsExactly(db: Db, user: UserId, event: EventId, request: seq<SeatId>, checkAt: Instant, fate: Fate)
    ensures HoldVerdict(db, user, event, request, checkAt, fate) == None <==>
            && fate.locked && fate.redisUp && fate.stored && !HasActiveHold(db, user, event, checkAt)
            && NoDuplicates(request)
            && forall x | x in request :: x in db.seats && db.seats[x].event == event && db.seats[x].status == Available
  {
    var found := Matching(db, event, request);
    LengthOfElements(request);
    assert found <= Elements(request);
    assert found == Elements(request) <==> forall x | x in request :: x in found;
    SubsetSize(found, Elements(request));
  }

  // ---- cancel_reservation and complete_reservation ----------------------------------------

  /** The tests made before the lock is asked for. */
  ghost function CancelRefusal(db: Db, rid: ReservationId, user: UserId): Option<Error> {
    if rid !in db.reservations || db.reservations[rid].user != user then Some(ReservationNotFound)
    else if db.reservations[rid].status != Held then Some(SeatNotAvailable)
    else None
  }

  ghost function CompleteRefusal(db: Db, rid: ReservationId, now: Instant): Option<Error> {
    if rid !in db.reservations || db.reservations[rid].status != Held then Some(ReservationNotFound)
    else if db.reservations[rid].expiresAt < now then Some(ReservationExpired)
    else None
  }

  ghost predicate Cancels(db: Db, rid: ReservationId, user: UserId, fate: Fate) {
    CancelRefusal(db, rid, user) == None && Commits(fate)
  }

  ghost predicate Completes(db: Db, rid: ReservationId, now: Instant, fate: Fate) {
    CompleteRefusal(db, rid, now) == None && Commits(fate)
  }

  /** What a section that closes a held reservation raises. */
  function ClosingError(fate: Fate): Option<Error> {
    if !fate.stored then Some(DatabaseUnavailable) else if !fate.redisUp then Some(RedisUnavailable) else None
  }

  /** What the caller of a cancellation or completion is told. */
  function ClosingAnswer(refusal: Option<Error>, fate: Fate): Option<Error> {
    if refusal.Some? then refusal
    else if !fate.locked then Some(LockNotAcquired)
    else Told(ClosingError(fate), fate)
  }

  /** Redis after a reservation has been closed in the database. */
  function AfterClose(b: Broker, db: Db, rid: ReservationId, sold: bool, fate: Fate): Broker
    requires rid in db.reservations
  {
    if !fate.redisUp then b else
      var r := db.reservations[rid];
      var rows := Existing(db, r.seats);
      Publish(DropKeys(b, r.event, rows), Message(r.event, rows, if sold then Sold else Available), fate.published)
  }

  // ---- release_expired_holds and release_user_holds ---------------------------------------

  function ExpiredHeld(db: Db, now: Instant): set<ReservationId> {
    set rid | rid in db.reservations && db.reservations[rid].status == Held && db.reservations[rid].expiresAt < now
  }

  function HeldByUser(db: Db, user: UserId): set<ReservationId> {
    set rid | rid in db.reservations && db.reservations[rid].user == user && db.reservations[rid].status == Held
  }

  datatype Progress = Progress(db: Db, broker: Broker, commits: seq<Commit>, released: nat)

  predicate Releases(db: Db, rid: ReservationId, fate: Fate) {
    Commits(fate) && rid in db.reservations && db.reservations[rid].status == Held
  }

  function ReleaseOne(p: Progress, rid: ReservationId, fate: Fate): Progress {
    if !Releases(p.db, rid, fate) then p else
      Progress(CloseCommit(p.db, rid, false), AfterClose(p.broker, p.db, rid, false, fate),
               p.commits + [CloseC(rid, false)],
               p.released + if fate.redisUp then |Existing(p.db, p.db.reservations[rid].seats)| else 0)
  }

  /** The release loop over a snapshot, one reservation after another, each with its own fate. */
  function ReleaseAll(start: Progress, snapshot: seq<ReservationId>, fates: ReservationId -> Fate): Progress
  {
    if snapshot == [] then start else
      var n := |snapshot| - 1;
      ReleaseOne(ReleaseAll(start, snapshot[..n], fates), snapshot[n], fates(snapshot[n]))
  }

  lemma ReleaseNext(start: Progress, snapshot: seq<ReservationId>, fates: ReservationId -> Fate, i: nat)
    requires i < |snapshot|
    ensures ReleaseAll(start, snapshot[..i + 1], fates)
        == ReleaseOne(ReleaseAll(start, snapshot[..i], fates), snapshot[i], fates(snapshot[i]))
  {
    assert snapshot[..i + 1][..i] == snapshot[..i];
  }

  ghost function Began(db: Db, b: Broker): Progress { Progress(db, b, [], 0) }

  function FreeSeats(db: Db): set<SeatId> {
    set x | x in db.seats && db.seats[x].status == Available
  }

  lemma Append(db: Db, cs: seq<Commit>, c: Commit)
    requires Legal(db, cs) && Enabled(Play(db, cs), c)
    ensures Legal(db, cs + [c]) && Play(db, cs + [c]) == Apply(Play(db, cs), c)
  {
    LegalSplits(db, cs, [c]);
    assert [c][1..] == [];
  }

  /** A release loop commits a legal history. */
  lemma {:induction false} ReleaseIsLegal(db: Db, b: Broker, snapshot: seq<ReservationId>, fates: ReservationId -> Fate)
    requires Sound(db)
    ensures var p := ReleaseAll(Began(db, b), snapshot, fates);
            Legal(db, p.commits) && p.db == Play(db, p.commits) && Sound(p.db) && Evolves(db, p.db)
    decreases |snapshot|
  {
    if snapshot == [] {
    } else {
      var n := |snapshot| - 1;
      ReleaseIsLegal(db, b, snapshot[..n], fates);
      var p := ReleaseAll(Began(db, b), snapshot[..n], fates);
      if Releases(p.db, snapshot[n], fates(snapshot[n])) {
        var c := CloseC(snapshot[n], false);
        Append(db, p.commits, c);
        CommitKeepsSound(p.db, c);
        EvolvesIsTransitive(db, p.db, Apply(p.db, c));
      }
    }
  }

  /** It cancels exactly the snapshot members that were held and whose section was entered and could
      commit, and changes no other reservation. */
  lemma {:induction false} ReleaseTouches(db: Db, b: Broker, snapshot: seq<ReservationId>,
                                          fates: ReservationId -> Fate, rid: ReservationId)
    requires rid in db.reservations
    ensures var was, after := db.reservations[rid], ReleaseAll(Began(db, b), snapshot, fates).db;
            && rid in after.reservations
            && after.reservations[rid] ==
               if was.status == Held && rid in snapshot && fates(rid).locked && fates(rid).stored
               then was.(status := Cancelled) else was
    decreases |snapshot|
  {
    if snapshot == [] {
    } else {
      var n := |snapshot| - 1;
      ReleaseTouches(db, b, snapshot[..n], fates, rid);
      assert snapshot == snapshot[..n] + [snapshot[n]];
    }
  }

  /** The count a release loop returns never exceeds the seats it made available, and equals them
      when no Redis cleanup fails after a commit. */
  lemma {:induction false} ReleaseCounts(db: Db, b: Broker, snapshot: seq<ReservationId>, fates: ReservationId -> Fate)
    requires Sound(db)
    ensures var p := ReleaseAll(Began(db, b), snapshot, fates);
            && FreeSeats(db) <= FreeSeats(p.db)
            && p.released <= |FreeSeats(p.db) - FreeSeats(db)|
            && ((forall rid | rid in snapshot :: fates(rid).redisUp)
                ==> p.released == |FreeSeats(p.db) - FreeSeats(db)|)
    decreases |snapshot|
  {
    if snapshot == [] {
    } else {
      var n := |snapshot| - 1;
      ReleaseCounts(db, b, snapshot[..n], fates);
      var p := ReleaseAll(Began(db, b), snapshot[..n], fates);
      assert Ledger(p.db) by { ReleaseIsLegal(db, b, snapshot[..n], fates); }
      assert snapshot[n] in snapshot && forall rid | rid in snapshot[..n] :: rid in snapshot;
      ReleaseStepCounts(db, p, snapshot[n], fates(snapshot[n]));
    }
  }

  lemma ReleaseStepCounts(db: Db, p: Progress, rid: ReservationId, fate: Fate)
    requires Ledger(p.db) && FreeSeats(db) <= FreeSeats(p.db) && p.released <= |FreeSeats(p.db) - FreeSeats(db)|
    ensures var after := ReleaseOne(p, rid, fate);
            && FreeSeats(db) <= FreeSeats(after.db)
            && after.released <= |FreeSeats(after.db) - FreeSeats(db)|
            && (fate.redisUp && p.released == |FreeSeats(p.db) - FreeSeats(db)| ==>
                  after.released == |FreeSeats(after.db) - FreeSeats(db)|)
  {
    if Releases(p.db, rid, fate) {
      ReleaseFrees(p.db, rid);
      MoreBeyond(FreeSeats(db), FreeSeats(p.db), Existing(p.db, p.db.reservations[rid].seats));
    }
  }

  lemma MoreBeyond<T>(base: set<T>, all: set<T>, more: set<T>)
    requires base <= all && all !! more
    ensures |all + more - base| == |all - base| + |more|
  {
    assert all + more - base == (all - base) + more;
  }

  /** Cancelling a held reservation frees exactly its seats, none of which was free before. */
  lemma ReleaseFrees(db: Db, rid: ReservationId)
    requires Ledger(db) && rid in db.reservations && db.reservations[rid].status == Held
    ensures var freed := Existing(db, db.reservations[rid].seats);
            FreeSeats(CloseCommit(db, rid, false)) == FreeSeats(db) + freed && FreeSeats(db) !! freed
  {
    var freed := Existing(db, db.reservations[rid].seats);
    forall x | x in freed ensures x !in FreeSeats(db) { assert Owns(db, rid, x); }
    assert FreeSeats(CloseCommit(db, rid, false)) == FreeSeats(db) + freed;
  }

  /** A sweep cancels exactly the reservations that were held, had run out strictly before it looked, and
      whose section was entered and could commit. When all could it leaves none of them held. */
  lemma SweepClearsExpired(db: Db, b: Broker, now: Instant, snapshot: seq<ReservationId>, fates: ReservationId -> Fate)
    requires Enumerates(snapshot, ExpiredHeld(db, now))
    ensures var after := ReleaseAll(Began(db, b), snapshot, fates).db;
            && after.reservations.Keys == db.reservations.Keys
            && (forall rid | rid in db.reservations ::
                  var was := db.reservations[rid];
                  after.reservations[rid] ==
                  if was.status == Held && was.expiresAt < now && fates(rid).locked && fates(rid).stored
                  then was.(status := Cancelled) else was)
            && ((forall rid | rid in snapshot :: Commits(fates(rid))) ==>
                  forall rid | rid in after.reservations && after.reservations[rid].status == Held ::
                    now <= after.reservations[rid].expiresAt)
  {
    var after := ReleaseAll(Began(db, b), snapshot, fates).db;
    ReleaseAddsNothing(db, b, snapshot, fates);
    forall rid | rid in db.reservations
      ensures rid in after.reservations
      ensures var was := db.reservations[rid];
              after.reservations[rid] ==
              if was.status == Held && was.expiresAt < now && fates(rid).locked && fates(rid).stored
              then was.(status := Cancelled) else was
      ensures db.reservations[rid].status == Held && db.reservations[rid].expiresAt < now ==> rid in snapshot
    {
      ReleaseTouches(db, b, snapshot, fates, rid);
      assert rid in snapshot <==> rid in Elements(snapshot);
    }
  }

  /** A sweep right after one whose sections could all commit finds nothing, commits nothing and
      returns zero. */
  lemma RepeatedSweepReleasesNothing(db: Db, b: Broker, now: Instant, snapshot: seq<ReservationId>,
                                     fates: ReservationId -> Fate,
                                     b2: Broker, again: seq<ReservationId>, fates2: ReservationId -> Fate)
    requires Enumerates(snapshot, ExpiredHeld(db, now)) && forall rid | rid in snapshot :: Commits(fates(rid))
    requires Enumerates(again, ExpiredHeld(ReleaseAll(Began(db, b), snapshot, fates).db, now))
    ensures var after := ReleaseAll(Began(db, b), snapshot, fates).db;
            ReleaseAll(Began(after, b2), again, fates2) == Began(after, b2)
  {
    SweepClearsExpired(db, b, now, snapshot, fates);
    LengthOfElements(again);
  }

  lemma {:induction false} ReleaseAddsNothing(db: Db, b: Broker, snapshot: seq<ReservationId>,
                                              fates: ReservationId -> Fate)
    ensures ReleaseAll(Began(db, b), snapshot, fates).db.reservations.Keys == db.reservations.Keys
    decreases |snapshot|
  {
    if snapshot != [] {
      var n := |snapshot| - 1;
      ReleaseAddsNothing(db, b, snapshot[..n], fates);
    }
  }

  // ---- process_payment --------------------------------------------------------------------

  ghost function PayVerdict(db: Db, user: UserId, rid: ReservationId, amount: int, checkAt: Instant): Option<Error> {
    if rid !in db.reservations || db.reservations[rid].user != user then Some(ReservationNotFound)
    else if db.reservations[rid].status != Held then Some(BusinessRule)
    else if db.reservations[rid].expiresAt < checkAt then Some(ReservationExpired)
    else if amount != Price(db.seats, db.reservations[rid].seats) then Some(AmountMismatch)
    else None
  }

  /** The transactions after the gateway's answer: the completion and the stamp, stopping early where
      the code does. */
  ghost function ChargeCommits(db: Db, rid: ReservationId, pid: PaymentId, approved: bool, completeAt: Instant,
                               fate: Fate): seq<Commit>
  {
    if !approved then (if fate.stamped then [StampC(pid, Failed)] else [])
    else if !Completes(db, rid, completeAt, fate) then []
    else if !Settles(fate) then [CloseC(rid, true)]
    else [CloseC(rid, true), StampC(pid, Paid)]
  }

  ghost function ChargeAnswer(db: Db, payment: Payment, approved: bool, completeAt: Instant,
                              fate: Fate): Result<Payment, Error>
  {
    match if approved then ClosingAnswer(CompleteRefusal(db, payment.reservation, completeAt), fate) else None
    case Some(error) => Err(error)
    case None =>
      if !fate.stamped then Err(DatabaseUnavailable)
      else if approved then Ok(payment.(status := Paid)) else Err(BusinessRule)
  }

  ghost function ChargeBroker(b: Broker, db: Db, rid: ReservationId, approved: bool, completeAt: Instant,
                              fate: Fate): Broker
  {
    if approved && Completes(db, rid, completeAt, fate) then AfterClose(b, db, rid, true, fate) else b
  }

  /** The transactions of one payment: first the pending row, on its own. */
  ghost function PayCommits(db: Db, user: UserId, rid: ReservationId, amount: int, pid: PaymentId,
                            checkAt: Instant, approved: bool, completeAt: Instant, fate: Fate): seq<Commit>
  {
    if PayVerdict(db, user, rid, amount, checkAt).Some? || !fate.recorded then []
    else [OpenC(pid, Payment(rid, user, amount, Pending))] + ChargeCommits(db, rid, pid, approved, completeAt, fate)
  }

  ghost predicate PaysFor(db: Db, c: Commit, rid: ReservationId) {
    c.StampC? && c.outcome == Paid && c.stamped in db.payments && db.payments[c.stamped].reservation == rid
  }

  /** How each transaction moves the set of sold but unstamped reservations: completion adds its
      reservation, the paid stamp removes it, nothing else touches it. */
  lemma UnsettledMoves(db: Db, c: Commit)
    requires Sound(db) && Enabled(db, c)
    ensures UnsettledReservations(Apply(db, c)) ==
            match c
            case HoldC(_, _, _, _, _) => UnsettledReservations(db)
            case CloseC(rid, sold) => UnsettledReservations(db) + (if sold then {rid} else {})
            case OpenC(_, _) => UnsettledReservations(db)
            case StampC(pid, outcome) =>
              UnsettledReservations(db) - (if outcome == Paid then {db.payments[pid].reservation} else {})
  {
    var after := Apply(db, c);
    forall rid ensures HasPaid(after, rid) <==> HasPaid(db, rid) || PaysFor(db, c, rid) {
      if HasPaid(db, rid) {
        var p :| p in db.payments && db.payments[p].status == Paid && db.payments[p].reservation == rid;
        assert after.payments[p] == db.payments[p];
      }
      if PaysFor(db, c, rid) {
        assert c.stamped in after.payments && after.payments[c.stamped].status == Paid
            && after.payments[c.stamped].reservation == rid;
      }
    }
    if c.CloseC? { HeldHasNotPaid(db, c.closed); }
  }

  lemma HeldHasNotPaid(db: Db, rid: ReservationId)
    requires Books(db) && rid in db.reservations && db.reservations[rid].status != Completed
    ensures !HasPaid(db, rid)
  {
    assert forall p | p in db.payments :: Covers(db, db.payments[p]);
  }

  /** A completion that nothing stamps: the gateway has approved, the sale is committed, and something
      fails before the stamp is. */
  ghost predicate LeavesUnstamped(db: Db, rid: ReservationId, approved: bool, completeAt: Instant, fate: Fate) {
    approved && Completes(db, rid, completeAt, fate) && !Settles(fate)
  }

  /** The transactions after the gateway's answer are legal in turn, and leave the sale unsettled
      exactly when something fails between the completion and the stamp. */
  lemma ChargeIsLegal(db: Db, rid: ReservationId, pid: PaymentId, approved: bool, completeAt: Instant, fate: Fate)
    requires Sound(db) && Enabled(db, CloseC(rid, true))
    requires pid in db.payments && db.payments[pid].status == Pending && db.payments[pid].reservation == rid
    ensures var cs := ChargeCommits(db, rid, pid, approved, completeAt, fate);
            && Legal(db, cs)
            && UnsettledReservations(Play(db, cs)) ==
               UnsettledReservations(db) + (if LeavesUnstamped(db, rid, approved, completeAt, fate) then {rid} else {})
            && (|cs| == 1 ==> Enabled(db, cs[0]) && Play(db, cs) == Apply(db, cs[0]))
            && (|cs| == 2 ==> Enabled(CloseCommit(db, rid, true), cs[1])
                              && Play(db, cs) == Apply(CloseCommit(db, rid, true), cs[1]))
  {
    var cs := ChargeCommits(db, rid, pid, approved, completeAt, fate);
    if cs != [] {
      UnsettledMoves(db, cs[0]);
      Append(db, [], cs[0]);
      assert [] + [cs[0]] == [cs[0]];
      if |cs| == 2 {
        PaymentStamps(db, rid, pid);
        Append(db, [cs[0]], cs[1]);
        assert cs == [cs[0]] + [cs[1]];
        assert rid !in UnsettledReservations(db);
      } else {
        assert cs == [cs[0]];
      }
    }
  }

  /** Right after the completion of a held reservation, its pending payment can be stamped paid. */
  lemma PaymentStamps(db: Db, rid: ReservationId, pid: PaymentId)
    requires Sound(db) && Enabled(db, CloseC(rid, true))
    requires pid in db.payments && db.payments[pid].status == Pending && db.payments[pid].reservation == rid
    ensures var sold := CloseCommit(db, rid, true);
            && Enabled(sold, StampC(pid, Paid))
            && UnsettledReservations(Apply(sold, StampC(pid, Paid))) == UnsettledReservations(db) - {rid}
  {
    HeldHasNotPaid(db, rid);
    var sold := CloseCommit(db, rid, true);
    assert HasPaid(sold, rid) ==> HasPaid(db, rid);
    CommitKeepsSound(db, CloseC(rid, true));
    UnsettledMoves(db, CloseC(rid, true));
    UnsettledMoves(sold, StampC(pid, Paid));
  }

  /** What an approved charge commits, transaction by transaction. */
  lemma ApprovedIsLegal(db: Db, rid: ReservationId, pid: PaymentId, completeAt: Instant, fate: Fate)
    requires Sound(db) && Enabled(db, CloseC(rid, true))
    requires pid in db.payments && db.payments[pid].status == Pending && db.payments[pid].reservation == rid
    ensures var cs, sold := ChargeCommits(db, rid, pid, true, completeAt, fate), CloseCommit(db, rid, true);
            && Legal(db, cs) && Enabled(sold, StampC(pid, Paid))
            && Play(db, cs) == if !Completes(db, rid, completeAt, fate) then db
                               else if Settles(fate) then Apply(sold, StampC(pid, Paid)) else sold
  {
    ChargeIsLegal(db, rid, pid, true, completeAt, fate);
    PaymentStamps(db, rid, pid);
  }

  /** A payment's transactions are legal in turn, so a crash between any two of them leaves a moment
      of a legal history; and it leaves its reservation sold and unstamped exactly when it was admitted,
      approved and completed, and something failed before the stamp. */
  lemma PaymentIsLegal(db: Db, user: UserId, rid: ReservationId, amount: int, pid: PaymentId,
                       checkAt: Instant, approved: bool, completeAt: Instant, fate: Fate)
    requires Sound(db) && pid !in db.payments
    ensures var cs := PayCommits(db, user, rid, amount, pid, checkAt, approved, completeAt, fate);
            && Legal(db, cs)
            && UnsettledReservations(Play(db, cs)) ==
               UnsettledReservations(db)
               + (if PayVerdict(db, user, rid, amount, checkAt) == None && fate.recorded
                     && LeavesUnstamped(db, rid, approved, completeAt, fate) then {rid} else {})
  {
    var cs := PayCommits(db, user, rid, amount, pid, checkAt, approved, completeAt, fate);
    if cs != [] {
      CommitKeepsSound(db, cs[0]);
      UnsettledMoves(db, cs[0]);
      var pending := Apply(db, cs[0]);
      ChargeIsLegal(pending, rid, pid, approved, completeAt, fate);
      assert cs[1..] == ChargeCommits(pending, rid, pid, approved, completeAt, fate);
    }
  }
}
