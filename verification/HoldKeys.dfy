/** The hold keys in Redis against the seat rows: while a hold has time left each of its seats has a live
    key, and when the stores take every command no other live key is left. */
module HoldKeys {
  import opened Wrappers
  import opened Booking
  import opened SeatLedger
  import opened Money
  import opened Histories
  import opened Calls
  import opened Runs
  import opened Replicas

  type Keys = map<(EventId, SeatId), HoldKey>

  /** The seat was given a key that names its holder and lives at least until the hold runs out. */
  predicate Keyed(keys: Keys, seat: Seat, x: SeatId) {
    && (seat.event, x) in keys && seat.heldBy == Some(keys[(seat.event, x)].user)
    && seat.heldUntil.Some? && seat.heldUntil.value <= keys[(seat.event, x)].until
  }

  /** Redis still has the key at `now`. */
  predicate LiveKey(keys: Keys, k: (EventId, SeatId), now: Instant) {
    k in keys && now < keys[k].until
  }

  /** What Redis shows at `now`: every seat whose hold has not run out has a live key naming its holder;
      and if `exact`, every live key belongs to a seat on hold. */
  ghost predicate KeysAt(keys: Keys, seats: map<SeatId, Seat>, now: Instant, exact: bool) {
    && (forall x | x in seats && seats[x].status == Hold && seats[x].heldUntil.Some?
        && now < seats[x].heldUntil.value ::
          LiveKey(keys, (seats[x].event, x), now) && seats[x].heldBy == Some(keys[(seats[x].event, x)].user))
    && (exact ==> forall k | LiveKey(keys, k, now) :: OnHold(seats, k))
  }

  predicate OnHold(seats: map<SeatId, Seat>, k: (EventId, SeatId)) {
    k.1 in seats && seats[k.1].event == k.0 && seats[k.1].status == Hold
  }

  /** Every seat on hold was given a key; and if `exact`, nothing else has one left. */
  ghost predicate Fits(keys: Keys, seats: map<SeatId, Seat>, exact: bool) {
    && (forall x | x in seats && seats[x].status == Hold :: Keyed(keys, seats[x], x))
    && (exact ==> forall k | k in keys :: OnHold(seats, k))
  }

  ghost predicate KeysFit(b: Broker, db: Db, exact: bool) {
    Fits(b.holdKeys, db.seats, exact)
  }

  /** Keys set and rows written alike. */
  lemma SetFits(keys: Keys, after: Keys, seats: map<SeatId, Seat>, event: EventId, rows: seq<SeatId>, key: HoldKey,
                until: Instant, exact: bool)
    requires until <= key.until && Fits(keys, seats, exact)
    requires forall x | x in rows :: x in seats && seats[x].event == event
    requires forall k :: k in after <==> k in keys || (k.0 == event && k.1 in rows)
    requires forall k | k in after :: after[k] == if k.0 == event && k.1 in rows then key else keys[k]
    ensures Fits(after, WriteSeats(seats, rows, Hold, Some(key.user), Some(until)), exact)
  {
  }

  lemma HoldKeepsKeys(b: Broker, db: Db, rid: ReservationId, user: UserId, event: EventId, rows: seq<SeatId>,
                      until: Instant,
                      keyUntil: Instant, exact: bool)
    requires KeysFit(b, db, exact) && Enabled(db, HoldC(rid, user, event, rows, until)) && until <= keyUntil
    ensures KeysFit(SetKeys(b, event, Elements(rows), HoldKey(user, keyUntil)),
                    HoldCommit(db, rid, user, event, rows, until), exact)
  {
    var key, keys := HoldKey(user, keyUntil), SetKeys(b, event, Elements(rows), HoldKey(user, keyUntil)).holdKeys;
    forall k: (EventId, SeatId)
      ensures k in keys <==> k in b.holdKeys || (k.0 == event && k.1 in rows)
      ensures k in keys ==> keys[k] == if k.0 == event && k.1 in rows then key else b.holdKeys[k]
    {
      assert k == (k.0, k.1) && (k.1 in rows <==> k.1 in Elements(rows));
    }
    SetFits(b.holdKeys, keys, db.seats, event, rows, key, until, exact);
  }

  /** Keys of closed rows dropped, or left where Redis failed. */
  lemma DropFits(keys: Keys, after: Keys, seats: map<SeatId, Seat>, event: EventId, rows: seq<SeatId>,
                 status: SeatStatus,
                 dropped: bool, exact: bool)
    requires Fits(keys, seats, exact) && status != Hold && forall x | x in rows :: x in seats && seats[x].event == event
    requires forall k :: k in after <==> k in keys && !(dropped && k.0 == event && k.1 in rows)
    requires forall k | k in after :: after[k] == keys[k]
    requires exact ==> dropped
    ensures Fits(after, WriteSeats(seats, rows, status, None, None), exact)
  {
  }

  lemma CloseKeepsKeys(b: Broker, db: Db, rid: ReservationId, sold: bool, fate: Fate, exact: bool)
    requires Ledger(db) && Enabled(db, CloseC(rid, sold)) && KeysFit(b, db, exact) && (exact ==> fate.redisUp)
    ensures KeysFit(AfterClose(b, db, rid, sold, fate), CloseCommit(db, rid, sold), exact)
  {
    var r := db.reservations[rid];
    assert WellFormed(db, r);
    ClosedKeys(b, db, rid, sold, fate);
    DropFits(b.holdKeys, AfterClose(b, db, rid, sold, fate).holdKeys, db.seats, r.event, r.seats,
             if sold then Sold else Available, fate.redisUp, exact);
  }

  lemma ClosedKeys(b: Broker, db: Db, rid: ReservationId, sold: bool, fate: Fate)
    requires rid in db.reservations && WellFormed(db, db.reservations[rid])
    ensures var r, keys := db.reservations[rid], AfterClose(b, db, rid, sold, fate).holdKeys;
            && (forall k :: k in keys <==> k in b.holdKeys && !(fate.redisUp && k.0 == r.event && k.1 in r.seats))
            && (forall k | k in keys :: keys[k] == b.holdKeys[k])
  {
    assert forall x :: x in Existing(db, db.reservations[rid].seats) <==> x in db.reservations[rid].seats;
  }

  lemma {:induction false} ReleaseKeepsKeys(b: Broker, db: Db, snapshot: seq<ReservationId>,
                                            fates: ReservationId -> Fate, exact: bool)
    requires Sound(db) && KeysFit(b, db, exact) && (exact ==> forall rid | rid in snapshot :: fates(rid).redisUp)
    ensures var p := ReleaseAll(Began(db, b), snapshot, fates); KeysFit(p.broker, p.db, exact)
    decreases |snapshot|
  {
    if snapshot != [] {
      var n := |snapshot| - 1;
      ReleaseKeepsKeys(b, db, snapshot[..n], fates, exact);
      var p := ReleaseAll(Began(db, b), snapshot[..n], fates);
      assert Ledger(p.db) by { ReleaseIsLegal(db, b, snapshot[..n], fates); }
      assert snapshot[n] in snapshot;
      if Releases(p.db, snapshot[n], fates(snapshot[n])) {
        CloseKeepsKeys(p.broker, p.db, snapshot[n], false, fates(snapshot[n]), exact);
      }
    }
  }

  /** Redis takes every command of this call, and the database the commit of a hold that has set its
      keys; publishes may fail. */
  ghost predicate StoresUp(call: Call) {
    match call
    case HoldSeats(_, _, _, _, _, _, _, _, fate) => fate.redisUp && fate.stored
    case CancelReservation(_, _, fate) => fate.redisUp
    case ReleaseExpiredHolds(_, snapshot, fates) => forall rid | rid in snapshot :: fates(rid).redisUp
    case ReleaseUserHolds(_, snapshot, fates) => forall rid | rid in snapshot :: fates(rid).redisUp
    case ProcessPayment(_, _, _, _, _, _, _, fate) => fate.redisUp
  }

  /** The keys are set no earlier than the hold's clock was read. */
  predicate ClockGoesOn(call: Call) {
    call.HoldSeats? ==> call.writeAt <= call.keyAt
  }

  lemma SameSeatsSameKeys(b: Broker, db: Db, after: Db, exact: bool)
    requires KeysFit(b, db, exact) && after.seats == db.seats
    ensures KeysFit(b, after, exact)
  {
  }

  lemma HoldCallKeepsKeys(b: Broker, db: Db, call: Call, exact: bool)
    requires call.HoldSeats? && Possible(db, call) && KeysFit(b, db, exact) && ClockGoesOn(call)
        && (exact ==> StoresUp(call))
    ensures KeysFit(BrokerAfter(b, db, call), Play(db, CommitsOf(db, call)), exact)
  {
    if CommitsOf(db, call) != [] {
      MadeHoldKeepsKeys(b, db, call, exact);
    } else if HoldVerdict(db, call.user, call.event, call.request, call.checkAt, call.fate)
        == Some(DatabaseUnavailable) {
      HoldSucceedsExactly(db, call.user, call.event, call.request, call.checkAt, call.fate.(stored := true));
      LeftoverKeysFit(b, db, call.event, call.request, HoldKey(call.user, call.keyAt + SEAT_HOLD_TTL));
    }
  }

  lemma MadeHoldKeepsKeys(b: Broker, db: Db, call: Call, exact: bool)
    requires call.HoldSeats? && Possible(db, call) && KeysFit(b, db, exact) && ClockGoesOn(call)
        && CommitsOf(db, call) != []
    ensures KeysFit(BrokerAfter(b, db, call), Play(db, CommitsOf(db, call)), exact)
  {
    HeldRows(db, call);
    HoldKeepsKeys(b, db, call.rid, call.user, call.event, call.rows, call.writeAt + HOLD_MICROS,
                  call.keyAt + SEAT_HOLD_TTL, exact);
    PlayOne(db, CommitsOf(db, call)[0]);
  }

  /** Keys left behind for available seats hide no key of a seat on hold. */
  lemma LeftoverKeysFit(b: Broker, db: Db, event: EventId, request: seq<SeatId>, key: HoldKey)
    requires KeysFit(b, db, false) && forall x | x in request :: x in db.seats && db.seats[x].status == Available
    ensures KeysFit(SetKeys(b, event, Elements(request), key), db, false)
  {
    var keys := SetKeys(b, event, Elements(request), key).holdKeys;
    forall x | x in db.seats && db.seats[x].status == Hold ensures Keyed(keys, db.seats[x], x) {
      assert x !in Elements(request);
    }
  }

  lemma HeldRows(db: Db, call: Call)
    requires call.HoldSeats? && Possible(db, call) && CommitsOf(db, call) != []
    ensures Enabled(db, CommitsOf(db, call)[0]) && Elements(call.rows) == Elements(call.request)
  {
    HoldSucceedsExactly(db, call.user, call.event, call.request, call.checkAt, call.fate);
    assert Elements(call.rows) == Elements(call.request);
    assert forall x | x in call.rows :: x in Elements(call.rows);
  }

  lemma PlayOne(db: Db, c: Commit)
    ensures Play(db, [c]) == Apply(db, c)
  {
    assert [c][1..] == [];
  }

  lemma PaymentKeepsKeys(b: Broker, db: Db, call: Call, exact: bool)
    requires call.ProcessPayment? && Sound(db) && Possible(db, call) && KeysFit(b, db, exact)
        && (exact ==> StoresUp(call))
    ensures KeysFit(BrokerAfter(b, db, call), Play(db, CommitsOf(db, call)), exact)
  {
    var cs := CommitsOf(db, call);
    if cs != [] {
      var pending := Apply(db, cs[0]);
      CommitKeepsSound(db, cs[0]);
      SameSeatsSameKeys(b, db, pending, exact);
      assert cs[1..] == ChargeCommits(pending, call.paidFor, call.pid, call.approved, call.completeAt, call.fate);
      ChargeKeepsKeys(b, pending, call.paidFor, call.pid, call.approved, call.completeAt, call.fate, exact);
      assert ChargeBroker(b, pending, call.paidFor, call.approved, call.completeAt, call.fate) ==
             ChargeBroker(b, db, call.paidFor, call.approved, call.completeAt, call.fate);
    }
  }

  lemma ChargeKeepsKeys(b: Broker, db: Db, rid: ReservationId, pid: PaymentId, approved: bool, completeAt: Instant,
                        fate: Fate, exact: bool)
    requires Ledger(db) && KeysFit(b, db, exact) && (exact ==> fate.redisUp)
    requires Enabled(db, CloseC(rid, true)) && pid in db.payments
    ensures KeysFit(ChargeBroker(b, db, rid, approved, completeAt, fate),
                    Play(db, ChargeCommits(db, rid, pid, approved, completeAt, fate)), exact)
  {
    var cs := ChargeCommits(db, rid, pid, approved, completeAt, fate);
    if cs != [] {
      var next := Apply(db, cs[0]);
      if approved { CloseKeepsKeys(b, db, rid, true, fate, exact); }
      assert next.seats == Play(db, cs).seats by {
        assert Play(db, cs) == Play(next, cs[1..]);
        if |cs| == 2 { PlayOne(next, cs[1]); assert cs[1..] == [cs[1]]; }
      }
    }
  }

  lemma CallKeepsKeys(b: Broker, db: Db, call: Call, exact: bool)
    requires Sound(db) && Possible(db, call) && KeysFit(b, db, exact) && ClockGoesOn(call) && (exact ==> StoresUp(call))
    ensures KeysFit(BrokerAfter(b, db, call), Play(db, CommitsOf(db, call)), exact)
  {
    match call
    case HoldSeats(_, _, _, _, _, _, _, _, _) => HoldCallKeepsKeys(b, db, call, exact);
    case CancelReservation(rid, user, fate) =>
      if Cancels(db, rid, user, fate) {
        CloseKeepsKeys(b, db, rid, false, fate, exact);
        PlayOne(db, CloseC(rid, false));
      }
    case ReleaseExpiredHolds(_, snapshot, fates) => ReleaseCallKeepsKeys(b, db, snapshot, fates, exact);
    case ReleaseUserHolds(_, snapshot, fates) => ReleaseCallKeepsKeys(b, db, snapshot, fates, exact);
    case ProcessPayment(_, _, _, _, _, _, _, _) => PaymentKeepsKeys(b, db, call, exact);
  }

  lemma ReleaseCallKeepsKeys(b: Broker, db: Db, snapshot: seq<ReservationId>, fates: ReservationId -> Fate, exact: bool)
    requires Sound(db) && KeysFit(b, db, exact) && (exact ==> forall rid | rid in snapshot :: fates(rid).redisUp)
    ensures KeysFit(ReleaseAll(Began(db, b), snapshot, fates).broker,
                    Play(db, ReleaseAll(Began(db, Broker(map[], {}, {}, [])), snapshot, fates).commits), exact)
  {
    ReleaseKeepsKeys(b, db, snapshot, fates, exact);
    ReleaseCommitsIgnoreBroker(db, b, Broker(map[], {}, {}, []), snapshot, fates);
    ReleaseIsLegal(db, b, snapshot, fates);
  }

  /** Redis after a run of calls. */
  ghost function BrokerAtEnd(b: Broker, db: Db, calls: seq<Call>): Broker
    decreases |calls|
  {
    if calls == [] then b
    else BrokerAtEnd(BrokerAfter(b, db, calls[0]), Play(db, CommitsOf(db, calls[0])), calls[1..])
  }

  lemma {:induction false} RunFitsKeys(b: Broker, db: Db, calls: seq<Call>, exact: bool)
    requires Sound(db) && PossibleRun(db, calls) && KeysFit(b, db, exact)
    requires forall call | call in calls :: ClockGoesOn(call) && (exact ==> StoresUp(call))
    ensures KeysFit(BrokerAtEnd(b, db, calls), Play(db, History(db, calls)), exact)
    decreases |calls|
  {
    if calls != [] {
      var cs := CommitsOf(db, calls[0]);
      CallKeepsKeys(b, db, calls[0], exact);
      CallKeepsSound(db, calls[0]);
      RunFitsKeys(BrokerAfter(b, db, calls[0]), Play(db, cs), calls[1..], exact);
      LegalSplits(db, cs, History(Play(db, cs), calls[1..]));
    }
  }

  /** After any run of calls, at any clock: every seat whose hold has not run out has a live key in Redis,
      naming its holder; and if the stores took every command of the run, every live key belongs to a
      seat on hold. */
  lemma RunKeepsKeys(b: Broker, db: Db, calls: seq<Call>, now: Instant, exact: bool)
    requires Sound(db) && PossibleRun(db, calls) && KeysFit(b, db, exact)
    requires forall call | call in calls :: ClockGoesOn(call) && (exact ==> StoresUp(call))
    ensures KeysAt(BrokerAtEnd(b, db, calls).holdKeys, Play(db, History(db, calls)).seats, now, exact)
  {
    RunFitsKeys(b, db, calls, exact);
    FitsAtAnyClock(BrokerAtEnd(b, db, calls).holdKeys, Play(db, History(db, calls)).seats, now, exact);
  }

  lemma FitsAtAnyClock(keys: Keys, seats: map<SeatId, Seat>, now: Instant, exact: bool)
    requires Fits(keys, seats, exact)
    ensures KeysAt(keys, seats, now, exact)
  {
    forall x | x in seats && seats[x].status == Hold ensures Keyed(keys, seats[x], x) {}
  }

  /** Keys do not last until a sweep: the seats of a hold that nobody has closed stay on hold, and have a
      live key exactly until 300 seconds after the keys were set. */
  lemma UnsweptHoldLosesItsKeys(b: Broker, db: Db, call: Call, now: Instant, x: SeatId)
    requires call.HoldSeats? && Possible(db, call) && CommitsOf(db, call) != []
    requires x in call.request
    ensures OnHold(Play(db, CommitsOf(db, call)).seats, (call.event, x))
    ensures LiveKey(BrokerAfter(b, db, call).holdKeys, (call.event, x), now) <==> now < call.keyAt + 300_000_000
  {
    HeldRows(db, call);
    PlayOne(db, CommitsOf(db, call)[0]);
    assert x in Elements(call.request) && x in Elements(call.rows);
  }
}
