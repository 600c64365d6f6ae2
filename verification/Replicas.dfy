/** Published seat messages keep replicas equal to the database: what a legal history of transactions
    publishes, replayed in order over a first snapshot, gives the current status of every seat. */
module Replicas {
  import opened Wrappers
  import opened Booking
  import opened SeatLedger
  import opened Money
  import opened Histories
  import opened Calls
  import opened Runs

  type Statuses = map<SeatId, SeatStatus>

  /** The status of every seat of an event, as a client would load it. */
  function Snapshot(db: Db, event: EventId): Statuses {
    map x | x in db.seats && db.seats[x].event == event :: db.seats[x].status
  }

  /** What a transaction publishes after it commits. */
  ghost function MessagesOf(db: Db, c: Commit): seq<Message> {
    match c
    case HoldC(_, _, event, rows, _) => [Message(event, Elements(rows), Hold)]
    case CloseC(rid, sold) =>
      if rid !in db.reservations then []
      else [Message(db.reservations[rid].event, Existing(db, db.reservations[rid].seats),
                    if sold then Sold else Available)]
    case OpenC(_, _) => []
    case StampC(_, _) => []
  }

  ghost function Published(db: Db, cs: seq<Commit>): seq<Message>
    decreases |cs|
  {
    if cs == [] then [] else MessagesOf(db, cs[0]) + Published(Apply(db, cs[0]), cs[1..])
  }

  /** A replica of one event ignores the other events' channels. */
  function Repaint(statuses: Statuses, event: EventId, m: Message): Statuses {
    if m.event != event then statuses
    else map x | x in statuses :: if x in m.seats then m.status else statuses[x]
  }

  function Replay(statuses: Statuses, event: EventId, messages: seq<Message>): Statuses {
    if messages == [] then statuses
    else Repaint(Replay(statuses, event, messages[..|messages| - 1]), event, messages[|messages| - 1])
  }

  lemma {:induction false} ReplaySplits(statuses: Statuses, event: EventId, a: seq<Message>, b: seq<Message>)
    ensures Replay(statuses, event, a + b) == Replay(Replay(statuses, event, a), event, b)
    decreases |b|
  {
    if b == [] {
      assert a + b == a;
    } else {
      assert (a + b)[..|a + b| - 1] == a + b[..|b| - 1];
      ReplaySplits(statuses, event, a, b[..|b| - 1]);
    }
  }

  /** `after` differs from `db` on the statuses as message `m` says. */
  ghost predicate Announces(m: Message, db: Db, after: Db) {
    && after.seats.Keys == db.seats.Keys
    && (forall x | x in db.seats :: after.seats[x].event == db.seats[x].event)
    && (forall x | x in db.seats && x in m.seats :: db.seats[x].event == m.event)
    && (forall x | x in db.seats :: after.seats[x].status == if x in m.seats then m.status else db.seats[x].status)
  }

  lemma AnnouncedIsRepainted(m: Message, db: Db, after: Db, event: EventId)
    requires Announces(m, db, after)
    ensures Snapshot(after, event) == Replay(Snapshot(db, event), event, [m])
  {
    assert [m][..0] == [];
  }

  lemma CloseIsAnnounced(db: Db, rid: ReservationId, sold: bool)
    requires Ledger(db) && rid in db.reservations
    ensures Announces(MessagesOf(db, CloseC(rid, sold))[0], db, CloseCommit(db, rid, sold))
  {
    assert WellFormed(db, db.reservations[rid]);
  }

  lemma CommitIsReplayed(db: Db, c: Commit, event: EventId)
    requires Ledger(db) && Enabled(db, c)
    ensures Snapshot(Apply(db, c), event) == Replay(Snapshot(db, event), event, MessagesOf(db, c))
  {
    match c
    case HoldC(rid, user, held, rows, until) =>
      AnnouncedIsRepainted(Message(held, Elements(rows), Hold), db, HoldCommit(db, rid, user, held, rows, until),
                           event);
    case CloseC(rid, sold) =>
      CloseIsAnnounced(db, rid, sold);
      AnnouncedIsRepainted(MessagesOf(db, c)[0], db, CloseCommit(db, rid, sold), event);
    case OpenC(_, _) =>
    case StampC(_, _) =>
  }

  /** Replaying everything a legal history publishes, in order, over the first snapshot of any event
      yields exactly the database status of every seat of that event. */
  lemma {:induction false} HistoryIsReplayed(db: Db, cs: seq<Commit>, event: EventId)
    requires Sound(db) && Legal(db, cs)
    ensures Snapshot(Play(db, cs), event) == Replay(Snapshot(db, event), event, Published(db, cs))
    decreases |cs|
  {
    if cs == [] {
    } else {
      var next := Apply(db, cs[0]);
      CommitIsReplayed(db, cs[0], event);
      CommitKeepsSound(db, cs[0]);
      HistoryIsReplayed(next, cs[1..], event);
      ReplaySplits(Snapshot(db, event), event, MessagesOf(db, cs[0]), Published(next, cs[1..]));
    }
  }

  lemma {:induction false} PublishedSplits(db: Db, a: seq<Commit>, b: seq<Commit>)
    ensures Published(db, a + b) == Published(db, a) + Published(Play(db, a), b)
    decreases |a|
  {
    if a == [] {
      assert a + b == b;
    } else {
      assert (a + b)[1..] == a[1..] + b;
      PublishedSplits(Apply(db, a[0]), a[1..], b);
    }
  }

  // ---- the service calls publish exactly that ---------------------------------------------

  /** Redis after a service call, as the contracts of the services state it. */
  ghost function BrokerAfter(b: Broker, db: Db, call: Call): Broker {
    match call
    case HoldSeats(user, event, request, _, checkAt, _, keyAt, _, fate) =>
      AfterHold(b, HoldVerdict(db, user, event, request, checkAt, fate), event, request,
                HoldKey(user, keyAt + SEAT_HOLD_TTL), fate)
    case CancelReservation(rid, user, fate) =>
      if Cancels(db, rid, user, fate) then AfterClose(b, db, rid, false, fate) else b
    case ReleaseExpiredHolds(_, snapshot, fates) => ReleaseAll(Began(db, b), snapshot, fates).broker
    case ReleaseUserHolds(_, snapshot, fates) => ReleaseAll(Began(db, b), snapshot, fates).broker
    case ProcessPayment(user, rid, amount, _, checkAt, approved, completeAt, fate) =>
      if PayVerdict(db, user, rid, amount, checkAt) != None || !fate.recorded then b
      else ChargeBroker(b, db, rid, approved, completeAt, fate)
  }

  predicate Announced(fate: Fate) {
    fate.redisUp && fate.published
  }

  /** Redis takes every command and every publish of this call. */
  ghost predicate Delivers(call: Call) {
    match call
    case HoldSeats(_, _, _, _, _, _, _, _, fate) => Announced(fate)
    case CancelReservation(_, _, fate) => Announced(fate)
    case ReleaseExpiredHolds(_, snapshot, fates) => forall rid | rid in snapshot :: Announced(fates(rid))
    case ReleaseUserHolds(_, snapshot, fates) => forall rid | rid in snapshot :: Announced(fates(rid))
    case ProcessPayment(_, _, _, _, _, _, _, fate) => Announced(fate)
  }

  lemma {:induction false} ReleaseSends(db: Db, b: Broker, snapshot: seq<ReservationId>, fates: ReservationId -> Fate)
    requires forall rid | rid in snapshot :: Announced(fates(rid))
    ensures var p := ReleaseAll(Began(db, b), snapshot, fates);
            p.broker.sent == b.sent + Published(db, p.commits) && p.db == Play(db, p.commits)
    decreases |snapshot|
  {
    if snapshot != [] {
      var n := |snapshot| - 1;
      ReleaseSends(db, b, snapshot[..n], fates);
      var p := ReleaseAll(Began(db, b), snapshot[..n], fates);
      assert snapshot[n] in snapshot;
      if Releases(p.db, snapshot[n], fates(snapshot[n])) { ReleaseOneSends(db, p.commits, snapshot[n]); }
    }
  }

  lemma ReleaseOneSends(db: Db, cs: seq<Commit>, rid: ReservationId)
    ensures var c := CloseC(rid, false);
            && Published(db, cs + [c]) == Published(db, cs) + MessagesOf(Play(db, cs), c)
            && Play(db, cs + [c]) == CloseCommit(Play(db, cs), rid, false)
  {
    var c := CloseC(rid, false);
    PublishedSplits(db, cs, [c]);
    PublishedOne(Play(db, cs), c);
    LegalSplits(db, cs, [c]);
    assert [c][1..] == [];
  }

  lemma PublishedOne(db: Db, c: Commit)
    ensures Published(db, [c]) == MessagesOf(db, c)
  {
    assert [c][1..] == [];
  }

  lemma {:induction false} ReleaseCommitsIgnoreBroker(db: Db, b: Broker, other: Broker, snapshot: seq<ReservationId>,
                                                      fates: ReservationId -> Fate)
    ensures var p, q := ReleaseAll(Began(db, b), snapshot, fates), ReleaseAll(Began(db, other), snapshot, fates);
            p.db == q.db && p.commits == q.commits
    decreases |snapshot|
  {
    if snapshot != [] { ReleaseCommitsIgnoreBroker(db, b, other, snapshot[..|snapshot| - 1], fates); }
  }

  lemma PaymentSends(b: Broker, db: Db, call: Call)
    requires Sound(db) && Possible(db, call) && Delivers(call) && call.ProcessPayment?
    ensures BrokerAfter(b, db, call).sent == b.sent + Published(db, CommitsOf(db, call))
  {
    var cs := CommitsOf(db, call);
    if cs != [] {
      var pending := Apply(db, cs[0]);
      assert Published(db, cs) == MessagesOf(db, cs[0]) + Published(pending, cs[1..]);
      if |cs| == 2 {
        assert cs[1..] == [cs[1]];
        PublishedOne(pending, cs[1]);
      } else if |cs| == 3 {
        assert cs[1..][1..] == [cs[2]];
        PublishedOne(CloseCommit(pending, call.paidFor, true), cs[2]);
        assert Published(pending, cs[1..])
            == MessagesOf(pending, cs[1]) + Published(CloseCommit(pending, call.paidFor, true), [cs[2]]);
      }
    }
  }

  /** Each service call sends exactly what its transactions publish. */
  lemma CallSends(b: Broker, db: Db, call: Call)
    requires Sound(db) && Possible(db, call) && Delivers(call)
    ensures BrokerAfter(b, db, call).sent == b.sent + Published(db, CommitsOf(db, call))
  {
    match call
    case HoldSeats(user, event, request, rid, checkAt, writeAt, _, rows, fate) =>
      if CommitsOf(db, call) != [] {
        HoldSucceedsExactly(db, user, event, request, checkAt, fate);
        assert Elements(rows) == Elements(request);
        PublishedOne(db, CommitsOf(db, call)[0]);
      }
    case CancelReservation(rid, _, _) =>
      if CommitsOf(db, call) != [] { PublishedOne(db, CloseC(rid, false)); }
    case ReleaseExpiredHolds(_, snapshot, fates) =>
      ReleaseSends(db, b, snapshot, fates);
      ReleaseCommitsIgnoreBroker(db, b, Broker(map[], {}, {}, []), snapshot, fates);
    case ReleaseUserHolds(_, snapshot, fates) =>
      ReleaseSends(db, b, snapshot, fates);
      ReleaseCommitsIgnoreBroker(db, b, Broker(map[], {}, {}, []), snapshot, fates);
    case ProcessPayment(_, _, _, _, _, _, _, _) => PaymentSends(b, db, call);
  }

  ghost function SentBy(b: Broker, db: Db, calls: seq<Call>): seq<Message>
    decreases |calls|
  {
    if calls == [] then b.sent
    else SentBy(BrokerAfter(b, db, calls[0]), Play(db, CommitsOf(db, calls[0])), calls[1..])
  }

  lemma CallKeepsSound(db: Db, call: Call)
    requires Sound(db) && Possible(db, call)
    ensures Sound(Play(db, CommitsOf(db, call)))
  {
    CallIsLegal(db, call);
    HistoryKeepsSound(db, CommitsOf(db, call));
  }

  lemma {:induction false} RunSends(b: Broker, db: Db, calls: seq<Call>)
    requires Sound(db) && PossibleRun(db, calls) && forall call | call in calls :: Delivers(call)
    ensures SentBy(b, db, calls) == b.sent + Published(db, History(db, calls))
    decreases |calls|
  {
    if calls != [] {
      var cs, after := CommitsOf(db, calls[0]), BrokerAfter(b, db, calls[0]);
      CallSends(b, db, calls[0]);
      CallKeepsSound(db, calls[0]);
      RunSends(after, Play(db, cs), calls[1..]);
      SentOnce(b, after, db, cs, History(Play(db, cs), calls[1..]));
    }
  }

  lemma SentOnce(b: Broker, after: Broker, db: Db, cs: seq<Commit>, rest: seq<Commit>)
    requires after.sent == b.sent + Published(db, cs)
    ensures after.sent + Published(Play(db, cs), rest) == b.sent + Published(db, cs + rest)
  {
    PublishedSplits(db, cs, rest);
  }

  /** End to end: after any run of service calls whose publishes succeed, replaying the messages sent
      over the first snapshot gives the database status of every seat of every event. */
  lemma ReplicaEqualsDatabase(b: Broker, db: Db, calls: seq<Call>, event: EventId)
    requires Sound(db) && PossibleRun(db, calls) && forall call | call in calls :: Delivers(call)
    ensures b.sent <= SentBy(b, db, calls)
    ensures Replay(Snapshot(db, event), event, SentBy(b, db, calls)[|b.sent|..])
        == Snapshot(Play(db, History(db, calls)), event)
  {
    RunSends(b, db, calls);
    RunIsLegal(db, calls);
    HistoryIsReplayed(db, History(db, calls), event);
    assert SentBy(b, db, calls)[|b.sent|..] == Published(db, History(db, calls));
  }
}
