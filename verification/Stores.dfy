/** The two stores the services write to: a database session and the Redis client. */
module Stores {
  import opened Wrappers
  import opened Sums
  import opened Booking
  import opened SeatLedger
  import opened Money
  import opened Calls

  /** A SQLAlchemy session: `rows` is what this transaction sees and has changed, `committed` is what
      the database holds. The journal records every transaction committed through the session. */
  class Session {
    var rows: Db
    var committed: Db
    ghost var journal: seq<Commit>

    /** No transaction is open and the database is sound. */
    ghost predicate Valid()
      reads this
    {
      rows == committed && Sound(committed)
    }

    constructor (db: Db)
      requires Sound(db)
      ensures Valid() && committed == db && journal == []
    {
      rows, committed, journal := db, db, [];
    }

    /** Commits the open transaction, which the caller names and must have shown to be enabled. */
    method Commit(ghost c: Commit)
      requires Sound(committed) && Enabled(committed, c) && rows == Apply(committed, c)
      modifies this
      ensures Valid() && committed == Apply(old(committed), c) && journal == old(journal) + [c]
    {
      CommitKeepsSound(committed, c);
      committed, journal := rows, journal + [c];
    }

    method Rollback()
      modifies this`rows
      ensures rows == committed
    {
      rows := committed;
    }

    /** `SELECT ... FOR UPDATE` without ORDER BY: the matching rows, in whatever order they come. */
    method Select(matching: set<nat>) returns (found: seq<nat>)
      ensures Enumerates(found, matching)
    {
      found := [];
      var rest := matching;
      while rest != {}
        invariant NoDuplicates(found) && Elements(found) !! rest && Elements(found) + rest == matching
        decreases rest
      {
        var x :| x in rest;
        TakeOne(found, rest, x);
        found, rest := found + [x], rest - {x};
      }
    }

    /** The loops that assign status, held_by and held_until to each selected seat. */
    method WriteRows(selected: seq<SeatId>, status: SeatStatus, heldBy: Option<UserId>, heldUntil: Option<Instant>)
      requires forall x | x in selected :: x in rows.seats
      modifies this`rows
      ensures rows == old(rows).(seats := WriteSeats(old(rows).seats, selected, status, heldBy, heldUntil))
    {
      ghost var was := rows;
      var i := 0;
      while i < |selected|
        invariant 0 <= i <= |selected|
        invariant rows == was.(seats := rows.seats) && rows.seats.Keys == was.seats.Keys
        invariant forall x | x in was.seats ::
          rows.seats[x] == if x in selected[..i] then Written(was.seats[x], status, heldBy, heldUntil) else was.seats[x]
      {
        var x := selected[i];
        rows := rows.(seats := rows.seats[x := Written(rows.seats[x], status, heldBy, heldUntil)]);
        assert selected[..i + 1] == selected[..i] + [x];
        i := i + 1;
      }
      assert selected[..i] == selected;
      assert rows.seats == WriteSeats(was.seats, selected, status, heldBy, heldUntil);
    }

    /** `sum(s.price for s in seats)`. */
    method SumPrices(selected: seq<SeatId>) returns (total: nat)
      requires NoDuplicates(selected) && forall x | x in selected :: x in rows.seats
      ensures total == Price(rows.seats, selected)
    {
      total := 0;
      var i := 0;
      assert Elements(selected[..0]) * rows.seats.Keys == {};
      while i < |selected|
        invariant 0 <= i <= |selected|
        invariant total == Price(rows.seats, selected[..i])
      {
        assert selected[..i + 1] == selected[..i] + [selected[i]];
        assert Elements(selected[..i + 1]) * rows.seats.Keys
            == Elements(selected[..i]) * rows.seats.Keys + {selected[i]};
        TotalAdd(Elements(selected[..i]) * rows.seats.Keys, Prices(rows.seats), selected[i]);
        total := total + rows.seats[selected[i]].price;
        i := i + 1;
      }
      assert selected[..i] == selected;
    }
  }

  /** The keys and channels of the Redis client that the reservation service uses. */
  class Redis {
    var holdKeys: map<(EventId, SeatId), HoldKey>
    var allCached: set<EventId>
    var availableCached: set<EventId>
    var sent: seq<Message>

    function View(): Broker
      reads this
    {
      Broker(holdKeys, allCached, availableCached, sent)
    }

    /** One pipeline of SET commands with expiry, executed as a unit at instant `at`. */
    method SetHoldKeys(event: EventId, rows: seq<SeatId>, user: UserId, at: Instant)
      modifies this
      ensures View() == SetKeys(old(View()), event, Elements(rows), HoldKey(user, at + SEAT_HOLD_TTL))
    {
      var key := HoldKey(user, at + SEAT_HOLD_TTL);
      var pipe: map<(EventId, SeatId), HoldKey> := map[];
      var i := 0;
      while i < |rows|
        invariant 0 <= i <= |rows|
        invariant forall k: (EventId, SeatId) :: k in pipe <==> (k.0 == event && k.1 in rows[..i])
        invariant forall k | k in pipe :: pipe[k] == key
      {
        pipe := pipe[(event, rows[i]) := key];
        i := i + 1;
      }
      assert rows[..i] == rows;
      assert pipe == map x | x in Elements(rows) :: (event, x) := key;
      holdKeys := holdKeys + pipe;
    }

    /** One pipeline of DEL commands, executed as a unit. */
    method DeleteHoldKeys(event: EventId, rows: seq<SeatId>)
      modifies this
      ensures View() == DropKeys(old(View()), event, Elements(rows))
    {
      var pipe: set<(EventId, SeatId)> := {};
      var i := 0;
      while i < |rows|
        invariant 0 <= i <= |rows|
        invariant forall k: (EventId, SeatId) :: k in pipe <==> (k.0 == event && k.1 in rows[..i])
      {
        pipe := pipe + {(event, rows[i])};
        i := i + 1;
      }
      assert rows[..i] == rows;
      holdKeys := holdKeys - pipe;
      assert holdKeys == DropKeys(old(View()), event, Elements(rows)).holdKeys;
    }

    /** Invalidate both cached lists and publish, in one pipeline whose failure is swallowed. */
    method PublishSeatUpdate(event: EventId, rows: seq<SeatId>, status: SeatStatus, delivered: bool)
      modifies this
      ensures View() == Publish(old(View()), Message(event, Elements(rows), status), delivered)
    {
      if delivered {
        allCached := allCached - {event};
        availableCached := availableCached - {event};
        sent := sent + [Message(event, Elements(rows), status)];
      }
    }
  }
}
