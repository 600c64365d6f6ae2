/** The read-through caches of seat lists: three endpoints share two Redis keys per event, which every
    delivered publish deletes. Instants are microseconds; a list is the set of its rows. */
module SeatCache {
  import opened Wrappers
  import opened Booking
  import opened SeatLedger
  import opened Money
  import opened Calls
  import opened Replicas

  const SEAT_CACHE_TTL: int := 10_000_000

  datatype Offer = Offer(price: nat, status: SeatStatus)

  type Listing = map<SeatId, Offer>

  datatype Kind = AllSeats | AvailableSeats

  /** A cache key. */
  datatype Slot = Slot(kind: Kind, event: EventId)

  datatype Entry = Entry(listing: Listing, expiresAt: int)

  /** What a request has queried and not stored yet. */
  datatype Reading = Reading(slot: Slot, listing: Listing, at: int)

  type ReaderId = nat

  datatype World = World(db: Db, now: int, cache: map<Slot, Entry>, readers: map<ReaderId, Reading>)

  /** The list the database holds for a key. */
  function ListOf(db: Db, slot: Slot): Listing {
    map x | x in db.seats && db.seats[x].event == slot.event
        && (slot.kind == AvailableSeats ==> db.seats[x].status == Available)
      :: Offer(db.seats[x].price, db.seats[x].status)
  }

  function Lookup(w: World, slot: Slot): Option<Listing> {
    if slot in w.cache && w.now < w.cache[slot].expiresAt then Some(w.cache[slot].listing) else None
  }

  function Dropped(cache: map<Slot, Entry>, events: set<EventId>): map<Slot, Entry> {
    map s | s in cache && s.event !in events :: cache[s]
  }

  // ---- the endpoints, each as one step ----------------------------------------------------

  function Served(w: World, slot: Slot): Listing {
    match Lookup(w, slot) case Some(listing) => listing case None => ListOf(w.db, slot)
  }

  function AfterRead(w: World, slot: Slot): World {
    if Lookup(w, slot).Some? then w
    else w.(cache := w.cache[slot := Entry(ListOf(w.db, slot), w.now + SEAT_CACHE_TTL)])
  }

  datatype NotFound = EventNotFound

  class SeatEndpoints {
    var rows: Db
    var events: set<EventId>
    var now: int
    var cache: map<Slot, Entry>

    function View(): World
      reads this
    {
      World(rows, now, cache, map[])
    }

    constructor (rows: Db, events: set<EventId>, now: int)
      ensures View() == World(rows, now, map[], map[]) && this.events == events
    {
      this.rows, this.events, this.now, cache := rows, events, now, map[];
    }

    method Get(slot: Slot) returns (cached: Option<Listing>)
      ensures cached == Lookup(View(), slot)
    {
      if slot !in cache { return None; }
      if now >= cache[slot].expiresAt { return None; }
      return Some(cache[slot].listing);
    }

    method Set(slot: Slot, listing: Listing, ttl: int)
      modifies this`cache
      ensures cache == old(cache)[slot := Entry(listing, now + ttl)]
    {
      cache := cache[slot := Entry(listing, now + ttl)];
    }

    /** The two seat queries, row by row. */
    method Query(slot: Slot) returns (listing: Listing)
      ensures listing == ListOf(rows, slot)
    {
      listing := map[];
      var rest := rows.seats.Keys;
      while rest != {}
        invariant rest <= rows.seats.Keys
        invariant forall x :: x in listing <==> x in ListOf(rows, slot) && x !in rest
        invariant forall x | x in listing :: listing[x] == ListOf(rows, slot)[x]
        decreases rest
      {
        var x :| x in rest;
        rest := rest - {x};
        var seat := rows.seats[x];
        if seat.event == slot.event && (slot.kind == AllSeats || seat.status == Available) {
          listing := listing[x := Offer(seat.price, seat.status)];
        }
      }
    }

    method GetSeats(event: EventId) returns (items: Listing)
      modifies this`cache
      ensures items == Served(old(View()), Slot(AllSeats, event))
      ensures View() == AfterRead(old(View()), Slot(AllSeats, event))
    {
      var cached := Get(Slot(AllSeats, event));
      if cached.Some? { return cached.value; }
      items := Query(Slot(AllSeats, event));
      Set(Slot(AllSeats, event), items, SEAT_CACHE_TTL);
    }

    method GetAvailableSeats(event: EventId) returns (items: Listing)
      modifies this`cache
      ensures items == Served(old(View()), Slot(AvailableSeats, event))
      ensures View() == AfterRead(old(View()), Slot(AvailableSeats, event))
    {
      var cached := Get(Slot(AvailableSeats, event));
      if cached.Some? { return cached.value; }
      items := Query(Slot(AvailableSeats, event));
      Set(Slot(AvailableSeats, event), items, SEAT_CACHE_TTL);
    }

    /** Shares the key of GetSeats. A missing event is reported exactly when that key is not live, so
        an earlier GetSeats for it turns the error into an empty list. */
    method GetEventSeats(event: EventId) returns (result: Result<Listing, NotFound>)
      modifies this`cache
      ensures result.Err? <==> event !in events && Lookup(old(View()), Slot(AllSeats, event)).None?
      ensures result.Err? ==> View() == old(View())
      ensures result.Ok? ==>
                && result.value == Served(old(View()), Slot(AllSeats, event))
                && View() == AfterRead(old(View()), Slot(AllSeats, event))
    {
      var cached := Get(Slot(AllSeats, event));
      if cached.Some? { return Ok(cached.value); }
      if event !in events { return Err(EventNotFound); }
      var items := Query(Slot(AllSeats, event));
      Set(Slot(AllSeats, event), items, SEAT_CACHE_TTL);
      return Ok(items);
    }
  }

  // ---- coherence ---------------------------------------------------------------------------

  /** Every entry, expired ones included, is the database's current list. */
  ghost predicate Coherent(w: World) {
    forall s | s in w.cache :: w.cache[s].listing == ListOf(w.db, s)
  }

  /** The events a transaction announces, and so invalidates when the publish is delivered. */
  ghost function Touched(db: Db, c: Commit): set<EventId> {
    set m | m in MessagesOf(db, c) :: m.event
  }

  /** The list shows each seat of the event, on the key of the available list only those available, with
      its price and status, and nothing else. */
  ghost predicate IsCurrent(listing: Listing, db: Db, slot: Slot) {
    forall x ::
      && (x in listing <==> x in db.seats && db.seats[x].event == slot.event
                            && (slot.kind == AllSeats || db.seats[x].status == Available))
      && (x in listing ==> listing[x] == Offer(db.seats[x].price, db.seats[x].status))
  }

  lemma UntouchedListsStay(db: Db, c: Commit, slot: Slot)
    requires Ledger(db) && Enabled(db, c) && slot.event !in Touched(db, c)
    ensures ListOf(Apply(db, c), slot) == ListOf(db, slot)
  {
    match c
    case HoldC(rid, user, event, rows, until) =>
      assert Message(event, Elements(rows), Hold) in MessagesOf(db, c);
      SameRowsSameList(db, Apply(db, c), slot);
    case CloseC(rid, sold) =>
      assert MessagesOf(db, c)[0] in MessagesOf(db, c);
      CloseIsAnnounced(db, rid, sold);
      SameRowsSameList(db, Apply(db, c), slot);
    case OpenC(_, _) =>
    case StampC(_, _) =>
  }

  lemma SameRowsSameList(db: Db, after: Db, slot: Slot)
    requires after.seats.Keys == db.seats.Keys
    requires forall x | x in db.seats ::
               after.seats[x].event == db.seats[x].event && after.seats[x].price == db.seats[x].price
    requires forall x | x in db.seats && db.seats[x].event == slot.event :: after.seats[x].status == db.seats[x].status
    ensures ListOf(after, slot) == ListOf(db, slot)
  {
  }

  /** The steps a request and a transaction consist of. An invalidation may come late or never. */
  datatype Step =
    | Query(reader: ReaderId, slot: Slot)
    | Store(reader: ReaderId)
    | Abandon(reader: ReaderId)
    | Commits(c: Commit)
    | Invalidate(event: EventId)
    | Tick(to: int)

  predicate Can(w: World, s: Step) {
    match s
    case Query(r, slot) => r !in w.readers && Lookup(w, slot).None?
    case Store(r) => r in w.readers
    case Abandon(r) => r in w.readers
    case Commits(_) => true
    case Invalidate(_) => true
    case Tick(to) => w.now <= to
  }

  function Do(w: World, s: Step): World
    requires Can(w, s)
  {
    match s
    case Query(r, slot) => w.(readers := w.readers[r := Reading(slot, ListOf(w.db, slot), w.now)])
    case Store(r) =>
      w.(cache := w.cache[w.readers[r].slot := Entry(w.readers[r].listing, w.now + SEAT_CACHE_TTL)],
         readers := w.readers - {r})
    case Abandon(r) => w.(readers := w.readers - {r})
    case Commits(c) => w.(db := Apply(w.db, c))
    case Invalidate(event) => w.(cache := Dropped(w.cache, {event}))
    case Tick(to) => w.(now := to)
  }

  /** A whole request is a query and a store with nothing in between, or nothing at all where its key has a
      list that has not expired. */
  lemma ReadIsQueryThenStore(w: World, slot: Slot, r: ReaderId)
    requires r !in w.readers
    ensures if slot in w.cache && w.now < w.cache[slot].expiresAt then AfterRead(w, slot) == w
            else Can(w, Query(r, slot)) && AfterRead(w, slot) == Do(Do(w, Query(r, slot)), Store(r))
  {
    assert w.readers[r := Reading(slot, ListOf(w.db, slot), w.now)] - {r} == w.readers;
  }

  /** Each step of a key, said of what it serves: a store serves the stored list until ten seconds later and
      not at that instant, an invalidation of its event ends it, and nothing else changes it. */
  lemma LiveListMovesExactly(w: World, s: Step, slot: Slot, to: int)
    requires Can(w, s) && w.now <= to
    ensures var later := Do(Do(w, s), Tick(if s.Tick? then s.to else to));
            var stays := if slot in w.cache && later.now < w.cache[slot].expiresAt
                         then Some(w.cache[slot].listing) else None;
            Lookup(later, slot) ==
            match s
            case Store(r) =>
              if w.readers[r].slot == slot
              then if to < w.now + 10_000_000 then Some(w.readers[r].listing) else None
              else stays
            case Invalidate(event) => if slot.event == event then None else stays
            case _ => stays
  {
  }

  /** A store keeps the cache coherent exactly if what was queried is still the database's list. */
  lemma StoreKeepsCoherentExactly(w: World, r: ReaderId)
    requires Coherent(w) && r in w.readers
    ensures Coherent(Do(w, Store(r))) <==> w.readers[r].listing == ListOf(w.db, w.readers[r].slot)
  {
    var after := Do(w, Store(r));
    assert after.cache[w.readers[r].slot].listing == w.readers[r].listing;
  }

  /** `owed` are the events announced by commits since their keys were last deleted. Entries of all other
      events are current, and so is what every request under way has queried. */
  ghost predicate Fresh(w: World, owed: set<EventId>) {
    && Sound(w.db)
    && (forall s | s in w.cache && s.event !in owed :: w.cache[s].listing == ListOf(w.db, s))
    && (forall r | r in w.readers :: w.readers[r].listing == ListOf(w.db, w.readers[r].slot))
  }

  /** The step is possible, and if it commits, no request for a list it touches is between its query and
      its store. */
  ghost predicate Calm(w: World, s: Step) {
    && Can(w, s)
    && (s.Commits? ==> Enabled(w.db, s.c) && forall r | r in w.readers ::
        w.readers[r].slot.event !in Touched(w.db, s.c))
  }

  ghost function Owed(w: World, owed: set<EventId>, s: Step): set<EventId> {
    if s.Commits? then owed + Touched(w.db, s.c) else if s.Invalidate? then owed - {s.event} else owed
  }

  lemma StepKeepsFresh(w: World, owed: set<EventId>, s: Step)
    requires Fresh(w, owed) && Calm(w, s)
    ensures Fresh(Do(w, s), Owed(w, owed, s))
  {
    if s.Commits? {
      CommitKeepsSound(w.db, s.c);
      forall slot: Slot | slot.event !in Touched(w.db, s.c) ensures ListOf(Apply(w.db, s.c), slot) == ListOf(w.db, slot)
      {
        UntouchedListsStay(w.db, s.c, slot);
      }
    }
  }

  ghost predicate CalmRun(w: World, steps: seq<Step>)
    decreases |steps|
  {
    steps == [] || (Calm(w, steps[0]) && CalmRun(Do(w, steps[0]), steps[1..]))
  }

  ghost function DoAll(w: World, steps: seq<Step>): World
    requires CalmRun(w, steps)
    decreases |steps|
  {
    if steps == [] then w else DoAll(Do(w, steps[0]), steps[1..])
  }

  ghost function OwedAll(w: World, owed: set<EventId>, steps: seq<Step>): set<EventId>
    requires CalmRun(w, steps)
    decreases |steps|
  {
    if steps == [] then owed else OwedAll(Do(w, steps[0]), Owed(w, owed, steps[0]), steps[1..])
  }

  /** Step by step, with requests, commits and invalidations interleaved: as long as no commit falls
      between a request's query and store of a list it touches, whatever is served for an event whose
      commits have all been followed by an invalidation is the database's current list. */
  lemma {:induction false} CalmRunServesCurrent(w: World, owed: set<EventId>, steps: seq<Step>, slot: Slot)
    requires Fresh(w, owed) && CalmRun(w, steps)
    ensures Fresh(DoAll(w, steps), OwedAll(w, owed, steps))
    ensures slot.event !in OwedAll(w, owed, steps) ==>
              IsCurrent(Served(DoAll(w, steps), slot), DoAll(w, steps).db, slot)
    decreases |steps|
  {
    if steps == [] {
    } else {
      StepKeepsFresh(w, owed, steps[0]);
      CalmRunServesCurrent(Do(w, steps[0]), Owed(w, owed, steps[0]), steps[1..], slot);
    }
  }

  // ---- the same when whole requests and transactions take turns ----------------------------

  datatype Turn = Read(slot: Slot) | Transact(c: Commit) | Pass(to: int)

  ghost predicate CanTake(w: World, t: Turn) {
    match t
    case Read(_) => true
    case Transact(c) => Enabled(w.db, c)
    case Pass(to) => w.now <= to
  }

  /** A transaction and its delivered publish, or a whole request. */
  ghost function Take(w: World, t: Turn): World {
    match t
    case Read(slot) => AfterRead(w, slot)
    case Transact(c) => w.(db := Apply(w.db, c), cache := Dropped(w.cache, Touched(w.db, c)))
    case Pass(to) => w.(now := to)
  }

  ghost predicate CanTakeAll(w: World, turns: seq<Turn>)
    decreases |turns|
  {
    turns == [] || (CanTake(w, turns[0]) && CanTakeAll(Take(w, turns[0]), turns[1..]))
  }

  ghost function TakeAll(w: World, turns: seq<Turn>): World
    decreases |turns|
  {
    if turns == [] then w else TakeAll(Take(w, turns[0]), turns[1..])
  }

  /** A turn is a few calm steps after which no invalidation is owed: a query and a store, or a commit and
      the invalidation of what it touches. */
  lemma TurnIsSteps(w: World, t: Turn)
    requires w.readers == map[] && Fresh(w, {}) && CanTake(w, t)
    ensures Fresh(Take(w, t), {})
  {
    match t
    case Read(slot) =>
      if Lookup(w, slot) == None {
        ReadIsQueryThenStore(w, slot, 0);
        StepKeepsFresh(w, {}, Query(0, slot));
        StepKeepsFresh(Do(w, Query(0, slot)), {}, Store(0));
      }
    case Transact(c) =>
      var committed := Do(w, Commits(c));
      StepKeepsFresh(w, {}, Commits(c));
      if e :| e in Touched(w.db, c) {
        assert Touched(w.db, c) == {e};
        StepKeepsFresh(committed, {e}, Invalidate(e));
        assert Take(w, t) == Do(committed, Invalidate(e)) && {e} - {e} == {};
      } else {
        assert Touched(w.db, c) == {};
        assert Take(w, t) == committed;
      }
    case Pass(to) => StepKeepsFresh(w, {}, Tick(to));
  }

  lemma TurnKeepsCoherent(w: World, t: Turn)
    requires Sound(w.db) && Coherent(w) && CanTake(w, t)
    ensures Sound(Take(w, t).db) && Coherent(Take(w, t))
  {
    var alone := w.(readers := map[]);
    TurnIsSteps(alone, t);
    assert Take(w, t).db == Take(alone, t).db && Take(w, t).cache == Take(alone, t).cache;
  }

  /** When requests and transactions take turns and every publish is delivered, whatever is served is
      the database's current list, from the cache or not. */
  lemma {:induction false} ServedIsCurrent(w: World, turns: seq<Turn>, slot: Slot)
    requires Sound(w.db) && Coherent(w) && CanTakeAll(w, turns)
    ensures Coherent(TakeAll(w, turns))
    ensures IsCurrent(Served(TakeAll(w, turns), slot), TakeAll(w, turns).db, slot)
    decreases |turns|
  {
    if turns == [] {
    } else {
      TurnKeepsCoherent(w, turns[0]);
      ServedIsCurrent(Take(w, turns[0]), turns[1..], slot);
    }
  }

  // ---- bounded staleness, however the steps interleave and whatever is lost ---------------

  /** A run from an empty cache in which every request stores within `delay` of its query. */
  ghost predicate Run(states: seq<World>, steps: seq<Step>, delay: int) {
    && |states| == |steps| + 1 && states[0].cache == map[] && states[0].readers == map[]
    && forall k | 0 <= k < |steps| ::
         && Can(states[k], steps[k]) && states[k + 1] == Do(states[k], steps[k])
         && (steps[k].Store? ==> states[k].now <= states[k].readers[steps[k].reader].at + delay)
  }

  /** `listing` was the database's list for `slot` at instant `at`, in a state no later than `k`. */
  ghost predicate WasCurrent(states: seq<World>, k: nat, slot: Slot, listing: Listing, at: int)
    requires k < |states|
  {
    exists j :: 0 <= j <= k && states[j].now == at && listing == ListOf(states[j].db, slot)
  }

  lemma {:induction false} ReadingWasCurrent(states: seq<World>, steps: seq<Step>, delay: int, k: nat, r: ReaderId)
    requires Run(states, steps, delay) && k < |states| && r in states[k].readers
    ensures var reading := states[k].readers[r]; WasCurrent(states, k, reading.slot, reading.listing, reading.at)
  {
    assert k > 0 && states[k] == Do(states[k - 1], steps[k - 1]);
    if r in states[k - 1].readers && states[k - 1].readers[r] == states[k].readers[r] {
      ReadingWasCurrent(states, steps, delay, k - 1, r);
    } else {
      assert states[k].now == states[k].readers[r].at;
    }
  }

  lemma {:induction false} EntryWasCurrent(states: seq<World>, steps: seq<Step>, delay: int, k: nat, slot: Slot)
    returns (at: int)
    requires Run(states, steps, delay) && k < |states| && slot in states[k].cache
    ensures at + SEAT_CACHE_TTL + delay >= states[k].cache[slot].expiresAt
    ensures WasCurrent(states, k, slot, states[k].cache[slot].listing, at)
  {
    assert k > 0 && states[k] == Do(states[k - 1], steps[k - 1]);
    if slot in states[k - 1].cache && states[k - 1].cache[slot] == states[k].cache[slot] {
      at := EntryWasCurrent(states, steps, delay, k - 1, slot);
    } else {
      var r := steps[k - 1].reader;
      at := states[k - 1].readers[r].at;
      ReadingWasCurrent(states, steps, delay, k - 1, r);
    }
  }

  /** Whatever is served, however steps interleave and whichever invalidations are lost, was the
      database's list at a moment less than ten seconds plus the query-to-store delay ago. */
  lemma StalenessIsBounded(states: seq<World>, steps: seq<Step>, delay: int, k: nat, slot: Slot) returns (at: int)
    requires Run(states, steps, delay) && k < |states| && delay >= 0
    ensures states[k].now - 10_000_000 - delay < at <= states[k].now
    ensures WasCurrent(states, k, slot, Served(states[k], slot), at)
  {
    if Lookup(states[k], slot).Some? {
      at := EntryWasCurrent(states, steps, delay, k, slot);
      var j :| 0 <= j <= k && states[j].now == at && Served(states[k], slot) == ListOf(states[j].db, slot);
      ClockIsMonotone(states, steps, delay, j, k);
    } else {
      at := states[k].now;
    }
  }

  lemma {:induction false} ClockIsMonotone(states: seq<World>, steps: seq<Step>, delay: int, j: nat, k: nat)
    requires Run(states, steps, delay) && j <= k < |states|
    ensures states[j].now <= states[k].now
    decreases k
  {
    if j < k {
      ClockIsMonotone(states, steps, delay, j, k - 1);
      assert states[k] == Do(states[k - 1], steps[k - 1]);
    }
  }

  /** Delivery alone does not make the cache coherent: from every coherent state, a request that has
      queried before a hold of its event commits and stores after the invalidation leaves the old list
      behind. */
  lemma SlowStoreBreaksCoherence(w: World, r: ReaderId, slot: Slot, c: Commit)
    requires Sound(w.db) && Coherent(w) && r !in w.readers && Lookup(w, slot).None?
    requires Enabled(w.db, c) && c.HoldC? && c.rows != [] && c.event == slot.event
    ensures var committed := Do(Do(w, Query(r, slot)), Commits(c));
            var w' := Do(Do(committed, Invalidate(slot.event)), Store(r));
            && Touched(w.db, c) == {slot.event} && !Coherent(w')
            && Served(w', slot) == ListOf(w.db, slot) != ListOf(w'.db, slot)
  {
    var x := c.rows[0];
    assert x in c.rows && w.db.seats[x].status == Available;
    var before, after := ListOf(w.db, slot), ListOf(Apply(w.db, c), slot);
    assert x in before && before[x].status == Available;
    assert x in after ==> after[x].status == Hold;
    assert Message(c.event, Elements(c.rows), Hold) in MessagesOf(w.db, c);
    var w' := Do(Do(Do(Do(w, Query(r, slot)), Commits(c)), Invalidate(slot.event)), Store(r));
    assert slot in w'.cache && w'.cache[slot] == Entry(before, w.now + SEAT_CACHE_TTL) && w'.db == Apply(w.db, c);
  }
}
