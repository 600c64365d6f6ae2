/** The seat feed after Redis: the wire message, the gateway's seat map and the events it emits, and the
    map a browser builds from them. Both maps are shown to be replicas of the database. */
module SeatFeed {
  import opened Wrappers
  import opened Booking
  import opened SeatLedger
  import opened Money
  import opened Histories
  import opened Calls
  import opened Runs
  import opened Replicas

  datatype Update = Update(seat: SeatId, status: SeatStatus)

  /** A message as it is parsed from its channel; a missing event id falls back to the channel's. */
  datatype Payload =
    | Batch(event: Option<EventId>, seats: seq<Update>)
    | Single(event: Option<EventId>, seat: Update)

  datatype Emission =
    | SeatStatusUpdated(event: EventId, updates: seq<Update>)
    | SeatReserved(event: EventId, seats: seq<SeatId>)

  datatype Summary = Summary(total: nat, available: nat, hold: nat, sold: nat)

  function Target(p: Payload, channel: EventId): EventId {
    if p.event.Some? then p.event.value else channel
  }

  function UpdatesOf(p: Payload): seq<Update> {
    if p.Batch? then p.seats else [p.seat]
  }

  /** The payload a service publishes for the rows it has just written. */
  function PayloadOf(event: EventId, rows: seq<SeatId>, status: SeatStatus): Payload {
    Batch(Some(event), seq(|rows|, i requires 0 <= i < |rows| => Update(rows[i], status)))
  }

  ghost predicate Encodes(p: Payload, m: Message) {
    && p.event == Some(m.event)
    && (forall u | u in UpdatesOf(p) :: u.seat in m.seats && u.status == m.status)
    && (forall x | x in m.seats :: Update(x, m.status) in UpdatesOf(p))
  }

  lemma PublishedPayloadEncodes(event: EventId, rows: seq<SeatId>, status: SeatStatus)
    ensures Encodes(PayloadOf(event, rows, status), Message(event, Elements(rows), status))
  {
    var p := PayloadOf(event, rows, status);
    forall x | x in Elements(rows) ensures Update(x, status) in UpdatesOf(p) {
      var i :| 0 <= i < |rows| && rows[i] == x;
      assert UpdatesOf(p)[i] == Update(x, status);
    }
  }

  /** Entries are written one by one, so a later entry for the same seat wins. */
  function Merge(statuses: Statuses, updates: seq<Update>): Statuses {
    if updates == [] then statuses
    else var n := |updates| - 1; Merge(statuses, updates[..n])[updates[n].seat := updates[n].status]
  }

  function SoldIn(updates: seq<Update>): seq<SeatId> {
    if updates == [] then []
    else
      var n := |updates| - 1;
      SoldIn(updates[..n]) + if updates[n].status == Sold then [updates[n].seat] else []
  }

  function MarkSold(statuses: Statuses, seats: seq<SeatId>): Statuses {
    statuses + map x | x in seats :: Sold
  }

  function StatesOf(states: map<EventId, Statuses>, event: EventId): Statuses {
    if event in states then states[event] else map[]
  }

  /** The gateway's map after one batch; an empty batch does not even create the event's entry. */
  function Stored(states: map<EventId, Statuses>, event: EventId, updates: seq<Update>): map<EventId, Statuses> {
    if updates == [] then states else states[event := Merge(StatesOf(states, event), updates)]
  }

  function Emits(event: EventId, updates: seq<Update>): seq<Emission> {
    [SeatStatusUpdated(event, updates)] + if SoldIn(updates) == [] then [] else [SeatReserved(event, SoldIn(updates))]
  }

  ghost function With(statuses: Statuses, status: SeatStatus): set<SeatId> {
    set x | x in statuses && statuses[x] == status
  }

  class SeatService {
    var seatStates: map<EventId, Statuses>
    var emitted: seq<Emission>

    constructor ()
      ensures seatStates == map[] && emitted == []
    {
      seatStates, emitted := map[], [];
    }

    method UpdateSeatState(event: EventId, update: Update)
      modifies this`seatStates
      ensures seatStates == Stored(old(seatStates), event, [update])
    {
      if event !in seatStates { seatStates := seatStates[event := map[]]; }
      var eventSeats: Statuses := seatStates[event];
      eventSeats := eventSeats[update.seat := update.status];
      seatStates := seatStates[event := eventSeats];
      MergeOne(StatesOf(old(seatStates), event), update);
    }

    method BroadcastBatchSeatUpdate(event: EventId, seats: seq<Update>)
      modifies this
      ensures seatStates == Stored(old(seatStates), event, seats)
      ensures emitted == old(emitted) + Emits(event, seats)
    {
      var i := 0;
      while i < |seats|
        invariant 0 <= i <= |seats| && emitted == old(emitted)
        invariant seatStates == Stored(old(seatStates), event, seats[..i])
      {
        StoredNext(old(seatStates), event, seats, i);
        UpdateSeatState(event, seats[i]);
        i := i + 1;
      }
      assert seats[..i] == seats;
      emitted := emitted + [SeatStatusUpdated(event, seats)];
      var reserved := FilterSold(seats);
      if |reserved| != 0 { emitted := emitted + [SeatReserved(event, reserved)]; }
    }

    method FilterSold(seats: seq<Update>) returns (reserved: seq<SeatId>)
      ensures reserved == SoldIn(seats)
    {
      reserved := [];
      var i := 0;
      while i < |seats|
        invariant 0 <= i <= |seats| && reserved == SoldIn(seats[..i])
      {
        assert seats[..i + 1][..i] == seats[..i];
        if seats[i].status == Sold { reserved := reserved + [seats[i].seat]; }
        i := i + 1;
      }
      assert seats[..i] == seats;
    }

    method ClearEvent(event: EventId)
      modifies this`seatStates
      ensures seatStates == old(seatStates) - {event}
    {
      seatStates := seatStates - {event};
    }

    /** The counts sent to a new subscriber: each is the number of seats of that status, and together
        they are all the seats the gateway knows of. */
    method GetSeatsSummary(event: EventId) returns (summary: Summary)
      ensures summary == Tally(StatesOf(seatStates, event))
    {
      summary := CountStatuses(if event in seatStates then seatStates[event] else map[]);
    }
  }

  ghost function Tally(known: Statuses): Summary {
    Summary(|known|, |With(known, Available)|, |With(known, Hold)|, |With(known, Sold)|)
  }

  /** Each count is the number of known seats of that status, and together they are all of them. */
  lemma TallyCountsExactly(known: Statuses)
    ensures Tally(known).available == |set x | x in known && known[x] == Available|
    ensures Tally(known).hold == |set x | x in known && known[x] == Hold|
    ensures Tally(known).sold == |set x | x in known && known[x] == Sold|
    ensures Tally(known).total == |known| == Tally(known).available + Tally(known).hold + Tally(known).sold
  {
    var available, hold, sold := With(known, Available), With(known, Hold), With(known, Sold);
    assert available == set x | x in known && known[x] == Available;
    assert hold == set x | x in known && known[x] == Hold;
    assert sold == set x | x in known && known[x] == Sold;
    assert known.Keys == available + hold + sold && available !! hold && available + hold !! sold;
    assert |known| == |known.Keys|;
  }

  /** The counting loop over the values of the event's map. */
  method CountStatuses(known: Statuses) returns (summary: Summary)
    ensures summary == Tally(known)
  {
    summary := Summary(0, 0, 0, 0);
    var rest := known.Keys;
    ghost var seen: Statuses := map[];
    while rest != {}
      invariant seen.Keys !! rest && forall x | x in known :: x in rest || (x in seen && seen[x] == known[x])
      invariant rest <= known.Keys && seen.Keys <= known.Keys
      invariant summary == Tally(seen)
      decreases rest
    {
      var x :| x in rest;
      TallyNext(seen, x, known[x]);
      rest, seen := rest - {x}, seen[x := known[x]];
      summary := Counted(summary, known[x]);
    }
    assert seen == known;
  }

  function Counted(s: Summary, status: SeatStatus): Summary {
    match status
    case Available => s.(total := s.total + 1, available := s.available + 1)
    case Hold => s.(total := s.total + 1, hold := s.hold + 1)
    case Sold => s.(total := s.total + 1, sold := s.sold + 1)
  }

  lemma TallyNext(seen: Statuses, x: SeatId, status: SeatStatus)
    requires x !in seen
    ensures Tally(seen[x := status]) == Counted(Tally(seen), status)
  {
    WithOneMore(seen, x, status, Available);
    WithOneMore(seen, x, status, Hold);
    WithOneMore(seen, x, status, Sold);
  }

  lemma WithOneMore(seen: Statuses, x: SeatId, status: SeatStatus, counted: SeatStatus)
    requires x !in seen
    ensures |With(seen[x := status], counted)| == |With(seen, counted)| + if status == counted then 1 else 0
  {
    assert With(seen[x := status], counted) == With(seen, counted) + if status == counted then {x} else {};
  }

  lemma MergeOne(statuses: Statuses, update: Update)
    ensures Merge(statuses, [update]) == statuses[update.seat := update.status]
  {
    assert [update][..0] == [];
  }

  lemma StoredNext(states: map<EventId, Statuses>, event: EventId, seats: seq<Update>, i: nat)
    requires i < |seats|
    ensures Stored(states, event, seats[..i + 1]) == Stored(Stored(states, event, seats[..i]), event, [seats[i]])
  {
    var before := Merge(StatesOf(states, event), seats[..i]);
    assert seats[..i + 1][..i] == seats[..i];
    assert StatesOf(Stored(states, event, seats[..i]), event) == before;
    MergeOne(before, seats[i]);
  }

  function CallbacksOn(callbacks: map<EventId, nat>, channel: EventId): nat {
    if channel in callbacks then callbacks[channel] else 0
  }

  function Repeated(emissions: seq<Emission>, n: nat): seq<Emission> {
    if n == 0 then [] else Repeated(emissions, n - 1) + emissions
  }

  lemma {:induction false} MergeListed(a: Statuses, b: Statuses, updates: seq<Update>, x: SeatId)
    requires Names(updates, x)
    ensures x in Merge(a, updates) && x in Merge(b, updates) && Merge(a, updates)[x] == Merge(b, updates)[x]
    decreases |updates|
  {
    var n := |updates| - 1;
    assert updates == updates[..n] + [updates[n]];
    NamesNext(updates[..n], updates[n], x);
    if updates[n].seat != x { MergeListed(a, b, updates[..n], x); }
  }

  /** Merging the same updates again changes nothing. */
  lemma MergeTwice(statuses: Statuses, updates: seq<Update>)
    ensures Merge(Merge(statuses, updates), updates) == Merge(statuses, updates)
  {
    var once := Merge(statuses, updates);
    forall x
      ensures x in Merge(once, updates) <==> x in once
      ensures x in once ==> Merge(once, updates)[x] == once[x]
    {
      MergeAt(statuses, updates, x);
      MergeAt(once, updates, x);
      if Names(updates, x) { MergeListed(once, statuses, updates, x); }
    }
  }

  lemma StoredTwice(states: map<EventId, Statuses>, event: EventId, updates: seq<Update>)
    ensures Stored(Stored(states, event, updates), event, updates) == Stored(states, event, updates)
  {
    MergeTwice(StatesOf(states, event), updates);
  }

  /** The Redis channels the gateway listens on, and how many callbacks each has. `orphans` are channels
      whose callback once stayed behind because unsubscribing failed. */
  class SeatEvents {
    const seats: SeatService
    var subscribedChannels: set<EventId>
    var callbacks: map<EventId, nat>
    ghost var orphans: set<EventId>

    /** But for orphans, at most one callback per channel, and only on channels marked as subscribed. */
    ghost predicate Valid()
      reads this
    {
      forall e | e in callbacks ::
        callbacks[e] >= 1 && (e !in orphans ==> callbacks[e] == 1 && e in subscribedChannels)
    }

    constructor (seats: SeatService)
      ensures Valid() && this.seats == seats && subscribedChannels == {} && callbacks == map[] && orphans == {}
    {
      this.seats, subscribedChannels, callbacks, orphans := seats, {}, map[], {};
    }

    /** `connected` and `raises` are what the Redis client does: without a connection the call returns
        as if it had subscribed, so the channel stays marked with no callback behind it. */
    method SubscribeToSeatUpdates(event: EventId, connected: bool, raises: bool)
      requires Valid()
      modifies this
      ensures Valid() && orphans == old(orphans)
      ensures if event in old(subscribedChannels)
              then subscribedChannels == old(subscribedChannels) && callbacks == old(callbacks)
              else
                && subscribedChannels == old(subscribedChannels) + (if connected && raises then {} else {event})
                && callbacks == if connected && !raises
                                then old(callbacks)[event := CallbacksOn(old(callbacks), event) + 1]
                                else old(callbacks)
    {
      if event in subscribedChannels { return; }
      subscribedChannels := subscribedChannels + {event};
      if connected {
        if raises {
          subscribedChannels := subscribedChannels - {event};
        } else {
          callbacks := callbacks[event := CallbacksOn(callbacks, event) + 1];
        }
      }
    }

    /** The mark goes first. Whether Redis then drops the callback (`dropped`) is not looked at: a failure
        is swallowed, and leaves a callback without a mark. */
    method UnsubscribeFromSeatUpdates(event: EventId, dropped: bool)
      requires Valid()
      modifies this
      ensures Valid() && subscribedChannels == old(subscribedChannels) - {event}
      ensures var acts := event in old(subscribedChannels);
              && callbacks == (if acts && dropped then old(callbacks) - {event} else old(callbacks))
              && orphans == (if !acts then old(orphans)
                             else if dropped then old(orphans) - {event}
                             else old(orphans) + if event in old(callbacks) then {event} else {})
    {
      if event !in subscribedChannels { return; }
      subscribedChannels := subscribedChannels - {event};
      if dropped {
        callbacks, orphans := callbacks - {event}, orphans - {event};
      } else if event in callbacks {
        orphans := orphans + {event};
      }
    }

    /** A message on a channel is stored if the channel has a callback, and emitted once for each: exactly
        once unless unsubscribing has failed there. */
    method OnMessage(channel: EventId, data: Payload)
      requires Valid()
      modifies seats
      ensures seats.seatStates ==
              if channel in callbacks then Stored(old(seats.seatStates), Target(data, channel), UpdatesOf(data))
              else old(seats.seatStates)
      ensures seats.emitted ==
              old(seats.emitted) + Repeated(Emits(Target(data, channel), UpdatesOf(data)),
                                            CallbacksOn(callbacks, channel))
      ensures channel in callbacks && channel !in orphans ==>
                seats.emitted == old(seats.emitted) + Emits(Target(data, channel), UpdatesOf(data))
    {
      var event, updates := Target(data, channel), UpdatesOf(data);
      var i := 0;
      while i < CallbacksOn(callbacks, channel)
        invariant 0 <= i <= CallbacksOn(callbacks, channel)
        invariant seats.seatStates == if i > 0 then Stored(old(seats.seatStates), event, updates)
            else old(seats.seatStates)
        invariant seats.emitted == old(seats.emitted) + Repeated(Emits(event, updates), i)
      {
        StoredTwice(old(seats.seatStates), event, updates);
        seats.BroadcastBatchSeatUpdate(event, updates);
        i := i + 1;
      }
      assert Repeated(Emits(event, updates), 1) == Emits(event, updates);
    }
  }

  /** A message writes to one event only: its own, or its channel's if it names none. There each seat shows
      the last entry that lists it; a seat no entry lists shows what it did. Only an entry creates an event. */
  lemma MessageIsStoredExactly(states: map<EventId, Statuses>, channel: EventId, data: Payload, event: EventId,
                               x: SeatId)
    ensures var after := Stored(states, Target(data, channel), UpdatesOf(data));
            var entries := match data case Batch(_, seats) => seats case Single(_, seat) => [seat];
            var meant := match data.event case Some(own) => own == event case None => channel == event;
            && (event in after <==> event in states || (meant && entries != []))
            && if meant && exists u | u in entries :: u.seat == x
               then x in StatesOf(after, event) && IsLast(entries, Update(x, StatesOf(after, event)[x]))
               else
                 && (x in StatesOf(after, event) <==> x in StatesOf(states, event))
                 && (x in StatesOf(states, event) ==> StatesOf(after, event)[x] == StatesOf(states, event)[x])
  {
    var before, updates := StatesOf(states, Target(data, channel)), UpdatesOf(data);
    MergeAt(before, updates, x);
    if Names(updates, x) { MergeShowsLast(before, updates, x); }
  }

  /** `u` is an entry, and no later one is for the same seat. */
  ghost predicate IsLast(updates: seq<Update>, u: Update) {
    exists i :: 0 <= i < |updates| && updates[i] == u && forall j | i < j < |updates| :: updates[j].seat != u.seat
  }

  lemma {:induction false} MergeShowsLast(statuses: Statuses, updates: seq<Update>, x: SeatId)
    requires Names(updates, x)
    ensures x in Merge(statuses, updates) && IsLast(updates, Update(x, Merge(statuses, updates)[x]))
    decreases |updates|
  {
    var n := |updates| - 1;
    var init := updates[..n];
    assert updates == init + [updates[n]];
    if updates[n].seat == x {
      assert updates[n] == Update(x, updates[n].status);
    } else {
      NamesNext(init, updates[n], x);
      MergeShowsLast(statuses, init, x);
      var u := Update(x, Merge(statuses, init)[x]);
      var i :| 0 <= i < n && init[i] == u && forall j | i < j < n :: init[j].seat != x;
      assert updates[i] == u;
      forall j | i < j < |updates| ensures updates[j].seat != x { assert j < n ==> updates[j] == init[j]; }
    }
  }

  /** What is emitted for a message: always its entries, and then the seats it sells, if it sells any. */
  lemma EmittedExactly(event: EventId, updates: seq<Update>, x: SeatId)
    ensures var emitted := Emits(event, updates);
            && |emitted| == (if exists u | u in updates :: u.status == Sold then 2 else 1)
            && emitted[0] == SeatStatusUpdated(event, updates)
            && (|emitted| == 2 ==> emitted[1].SeatReserved? && emitted[1].event == event
                                   && (x in emitted[1].seats <==> Update(x, Sold) in updates))
  {
    SoldInLists(updates, x);
    if u :| u in updates && u.status == Sold {
      SoldInLists(updates, u.seat);
      assert u == Update(u.seat, Sold);
    }
    if SoldIn(updates) != [] { SoldInLists(updates, SoldIn(updates)[0]); }
  }

  /** The browser hook: each handler copies the previous map and assigns entries to the copy. */
  class SeatUpdatesHook {
    var seatUpdates: Statuses

    constructor ()
      ensures seatUpdates == map[]
    {
      seatUpdates := map[];
    }

    method HandleSeatStatusUpdated(updates: seq<Update>)
      modifies this
      ensures seatUpdates == Merge(old(seatUpdates), updates)
    {
      if |updates| == 0 { return; }
      var next := seatUpdates;
      var i := 0;
      while i < |updates|
        invariant 0 <= i <= |updates| && next == Merge(seatUpdates, updates[..i])
      {
        assert updates[..i + 1][..i] == updates[..i];
        next := next[updates[i].seat := updates[i].status];
        i := i + 1;
      }
      assert updates[..i] == updates;
      seatUpdates := next;
    }

    method HandleSeatReserved(seats: seq<SeatId>)
      modifies this
      ensures seatUpdates == MarkSold(old(seatUpdates), seats)
    {
      if |seats| == 0 {
        assert seatUpdates == MarkSold(seatUpdates, seats);
        return;
      }
      var next := seatUpdates;
      var i := 0;
      while i < |seats|
        invariant 0 <= i <= |seats| && next == MarkSold(seatUpdates, seats[..i])
      {
        next := next[seats[i] := Sold];
        assert seats[..i + 1] == seats[..i] + [seats[i]];
        assert next == MarkSold(seatUpdates, seats[..i + 1]);
        i := i + 1;
      }
      assert seats[..i] == seats;
      seatUpdates := next;
    }
  }

  // ---- seat_reserved adds nothing ---------------------------------------------------------

  ghost predicate EndsSold(updates: seq<Update>, x: SeatId) {
    IsLast(updates, Update(x, Sold))
  }

  /** An entry for another seat at the end does not decide what this one ends as. */
  lemma EndsSoldSkips(init: seq<Update>, last: Update, x: SeatId)
    ensures EndsSold(init + [last], x) <==> if last.seat == x then last.status == Sold else EndsSold(init, x)
  {
    var updates := init + [last];
    if last == Update(x, Sold) {
      assert updates[|init|] == Update(x, Sold);
    }
    if last.seat != x && EndsSold(init, x) {
      var i :| 0 <= i < |init| && init[i] == Update(x, Sold) && forall j | i < j < |init| :: init[j].seat != x;
      assert updates[i] == Update(x, Sold);
      forall j | i < j < |updates| ensures updates[j].seat != x { assert j < |init| ==> updates[j] == init[j]; }
    }
    if EndsSold(updates, x) {
      var i :| 0 <= i < |updates| && updates[i] == Update(x, Sold)
               && forall j | i < j < |updates| :: updates[j].seat != x;
      assert i < |init| ==> init[i] == updates[i] && updates[|init|].seat != x;
      assert forall j | i < j < |init| :: init[j] == updates[j];
    }
  }

  predicate Names(updates: seq<Update>, x: SeatId) {
    exists u | u in updates :: u.seat == x
  }

  lemma NamesNext(init: seq<Update>, last: Update, x: SeatId)
    ensures Names(init + [last], x) <==> Names(init, x) || last.seat == x
  {
    assert last in init + [last];
    assert forall u :: u in init + [last] <==> u in init || u == last;
  }

  /** What a merge shows for a seat is its last entry, or what was there before. */
  lemma {:induction false} MergeAt(statuses: Statuses, updates: seq<Update>, x: SeatId)
    ensures x in Merge(statuses, updates) <==> x in statuses || Names(updates, x)
    ensures !Names(updates, x) && x in statuses ==> Merge(statuses, updates)[x] == statuses[x]
    ensures Names(updates, x) ==> (Merge(statuses, updates)[x] == Sold <==> EndsSold(updates, x))
    decreases |updates|
  {
    if updates == [] {
    } else {
      var n := |updates| - 1;
      MergeAt(statuses, updates[..n], x);
      assert updates == updates[..n] + [updates[n]];
      NamesNext(updates[..n], updates[n], x);
      EndsSoldSkips(updates[..n], updates[n], x);
    }
  }

  lemma {:induction false} SoldInLists(updates: seq<Update>, x: SeatId)
    ensures x in SoldIn(updates) <==> Update(x, Sold) in updates
    decreases |updates|
  {
    if updates != [] {
      var n := |updates| - 1;
      SoldInLists(updates[..n], x);
      assert updates == updates[..n] + [updates[n]];
    }
  }

  /** Handling the seat_reserved that follows a seat_status_updated changes nothing exactly when no
      seat the batch lists as sold has a later entry with another status. */
  lemma ReservedIsRedundantExactly(statuses: Statuses, updates: seq<Update>)
    ensures MarkSold(Merge(statuses, updates), SoldIn(updates)) == Merge(statuses, updates) <==>
            forall u | u in updates && u.status == Sold :: EndsSold(updates, u.seat)
  {
    var merged := Merge(statuses, updates);
    forall x ensures x in SoldIn(updates) <==> Update(x, Sold) in updates { SoldInLists(updates, x); }
    forall x | Update(x, Sold) in updates ensures x in merged && (merged[x] == Sold <==> EndsSold(updates, x)) {
      MergeAt(statuses, updates, x);
    }
    MarkSoldIsRedundant(merged, SoldIn(updates));
    assert forall u | u in updates && u.status == Sold :: u == Update(u.seat, Sold);
  }

  lemma MarkSoldIsRedundant(statuses: Statuses, seats: seq<SeatId>)
    ensures MarkSold(statuses, seats) == statuses <==> forall x | x in seats :: x in statuses && statuses[x] == Sold
  {
    if x :| x in seats && !(x in statuses && statuses[x] == Sold) {
      assert x in MarkSold(statuses, seats) && MarkSold(statuses, seats)[x] == Sold;
    }
  }

  // ---- both maps are replicas -------------------------------------------------------------

  /** The first snapshot with the map's entries painted over it. */
  function Overlay(snapshot: Statuses, entries: Statuses): Statuses {
    map x | x in snapshot :: if x in entries then entries[x] else snapshot[x]
  }

  /** A browser in the room of `event` runs its handler for each emission to that room. */
  function Handled(entries: Statuses, event: EventId, emission: Emission): Statuses {
    if emission.event != event then entries
    else match emission
      case SeatStatusUpdated(_, updates) => Merge(entries, updates)
      case SeatReserved(_, seats) => MarkSold(entries, seats)
  }

  function Received(entries: Statuses, event: EventId, emissions: seq<Emission>): Statuses
    decreases |emissions|
  {
    if emissions == [] then entries
    else Received(Handled(entries, event, emissions[0]), event, emissions[1..])
  }

  /** The gateway's map and the browser's after the payloads have come in, each on its own channel. */
  function Relayed(states: map<EventId, Statuses>, payloads: seq<Payload>, channels: seq<EventId>)
    : map<EventId, Statuses>
    requires |channels| == |payloads|
  {
    if payloads == [] then states else
      var n := |payloads| - 1;
      Stored(Relayed(states, payloads[..n], channels[..n]), Target(payloads[n], channels[n]), UpdatesOf(payloads[n]))
  }

  function Shown(entries: Statuses, event: EventId, payloads: seq<Payload>, channels: seq<EventId>): Statuses
    requires |channels| == |payloads|
  {
    if payloads == [] then entries else
      var n := |payloads| - 1;
      Received(Shown(entries, event, payloads[..n], channels[..n]), event,
               Emits(Target(payloads[n], channels[n]), UpdatesOf(payloads[n])))
  }

  /** The payloads are the published messages, each on the channel of its event. */
  ghost predicate Wire(payloads: seq<Payload>, channels: seq<EventId>, messages: seq<Message>) {
    && |payloads| == |channels| == |messages|
    && forall i | 0 <= i < |messages| :: Encodes(payloads[i], messages[i]) && channels[i] == messages[i].event
  }

  /** Merging the entries of a message, in whatever order they are listed, repaints the overlay. */
  lemma MergeRepaints(snapshot: Statuses, entries: Statuses, p: Payload, m: Message)
    requires Encodes(p, m)
    ensures Overlay(snapshot, Merge(entries, UpdatesOf(p))) == Repaint(Overlay(snapshot, entries), m.event, m)
  {
    forall x
      ensures x in Merge(entries, UpdatesOf(p)) <==> x in entries || x in m.seats
      ensures x in m.seats ==> Merge(entries, UpdatesOf(p))[x] == m.status
      ensures x !in m.seats && x in entries ==> Merge(entries, UpdatesOf(p))[x] == entries[x]
    {
      MergeAt(entries, UpdatesOf(p), x);
      if x in m.seats {
        assert Update(x, m.status) in UpdatesOf(p);
        MergeUniform(entries, UpdatesOf(p), x, m.status);
      }
    }
  }

  lemma {:induction false} MergeUniform(entries: Statuses, updates: seq<Update>, x: SeatId, status: SeatStatus)
    requires Update(x, status) in updates && forall u | u in updates :: u.status == status
    ensures x in Merge(entries, updates) && Merge(entries, updates)[x] == status
    decreases |updates|
  {
    var n := |updates| - 1;
    assert updates == updates[..n] + [updates[n]];
    if updates[n].seat != x { MergeUniform(entries, updates[..n], x, status); }
  }

  lemma ReceivedEmits(entries: Statuses, event: EventId, target: EventId, updates: seq<Update>)
    ensures Received(entries, event, Emits(target, updates)) ==
            if target == event then MarkSold(Merge(entries, updates), SoldIn(updates)) else entries
  {
    var merged := Handled(entries, event, SeatStatusUpdated(target, updates));
    if SoldIn(updates) == [] {
      assert Emits(target, updates) == [SeatStatusUpdated(target, updates)];
      assert MarkSold(merged, []) == merged;
    } else {
      var reserved := SeatReserved(target, SoldIn(updates));
      assert Emits(target, updates)[1..] == [reserved] && [reserved][1..] == [];
      assert Received(merged, event, [reserved]) == Handled(merged, event, reserved);
    }
  }

  /** What a browser of this or another event makes of one relayed message. */
  lemma EmissionsMerge(entries: Statuses, event: EventId, p: Payload, m: Message)
    requires Encodes(p, m)
    ensures Received(entries, event, Emits(m.event, UpdatesOf(p))) ==
            if m.event == event then Merge(entries, UpdatesOf(p)) else entries
  {
    var updates := UpdatesOf(p);
    ReceivedEmits(entries, event, m.event, updates);
    forall u | u in updates && u.status == Sold ensures EndsSold(updates, u.seat) {
      MergeAt(entries, updates, u.seat);
      MergeUniform(entries, updates, u.seat, m.status);
    }
    ReservedIsRedundantExactly(entries, updates);
  }

  lemma {:induction false} ReceivedSplits(entries: Statuses, event: EventId, a: seq<Emission>, b: seq<Emission>)
    ensures Received(entries, event, a + b) == Received(Received(entries, event, a), event, b)
    decreases |a|
  {
    if a == [] {
      assert a + b == b;
    } else {
      assert (a + b)[1..] == a[1..] + b;
      ReceivedSplits(Handled(entries, event, a[0]), event, a[1..], b);
    }
  }

  /** A message relayed more than once shows a browser what it shows relayed once. */
  lemma {:induction false} RepeatsAreHarmless(entries: Statuses, event: EventId, p: Payload, m: Message, n: nat)
    requires Encodes(p, m) && n > 0
    ensures var emissions := Emits(m.event, UpdatesOf(p));
            Received(entries, event, Repeated(emissions, n)) == Received(entries, event, emissions)
    decreases n
  {
    var emissions := Emits(m.event, UpdatesOf(p));
    if n == 1 {
      assert Repeated(emissions, 1) == emissions;
    } else {
      RepeatsAreHarmless(entries, event, p, m, n - 1);
      ReceivedSplits(entries, event, Repeated(emissions, n - 1), emissions);
      EmissionsMerge(entries, event, p, m);
      EmissionsMerge(Received(entries, event, emissions), event, p, m);
      MergeTwice(entries, UpdatesOf(p));
    }
  }

  /** After any list of published messages both maps, painted over the same snapshot, are the replay
      of those messages. */
  lemma {:induction false} MapsReplay(snapshot: Statuses, event: EventId, states: map<EventId, Statuses>,
                                      payloads: seq<Payload>, channels: seq<EventId>, messages: seq<Message>)
    requires Wire(payloads, channels, messages)
    ensures var entries := StatesOf(states, event);
            && Shown(entries, event, payloads, channels) == StatesOf(Relayed(states, payloads, channels), event)
            && Overlay(snapshot, Shown(entries, event, payloads, channels))
                  == Replay(Overlay(snapshot, entries), event, messages)
    decreases |messages|
  {
    if messages != [] {
      var n := |messages| - 1;
      MapsReplay(snapshot, event, states, payloads[..n], channels[..n], messages[..n]);
      var before := Shown(StatesOf(states, event), event, payloads[..n], channels[..n]);
      EmissionsMerge(before, event, payloads[n], messages[n]);
      MergeRepaints(snapshot, before, payloads[n], messages[n]);
    }
  }

  /** Everything `calls` send from `db` on has come through, in order. */
  ghost predicate Relays(db: Db, calls: seq<Call>, payloads: seq<Payload>, channels: seq<EventId>) {
    && Sound(db) && PossibleRun(db, calls) && (forall call | call in calls :: Delivers(call))
    && Wire(payloads, channels, Published(db, History(db, calls)))
  }

  ghost function DbAfter(db: Db, calls: seq<Call>): Db {
    Play(db, History(db, calls))
  }

  /** Some message for `event` lists seat `x`. */
  ghost predicate Listed(messages: seq<Message>, event: EventId, x: SeatId) {
    exists m :: m in messages && m.event == event && x in m.seats
  }

  lemma ListedNext(messages: seq<Message>, event: EventId, x: SeatId)
    requires messages != []
    ensures var n := |messages| - 1;
            Listed(messages, event, x) <==>
            Listed(messages[..n], event, x) || (messages[n].event == event && x in messages[n].seats)
  {
    var n := |messages| - 1;
    assert messages == messages[..n] + [messages[n]];
  }

  /** The entries are those before and exactly the seats the messages for the event list. */
  lemma {:induction false} EntriesAreListedExactly(entries: Statuses, event: EventId, payloads: seq<Payload>,
                                                   channels: seq<EventId>, messages: seq<Message>, x: SeatId)
    requires Wire(payloads, channels, messages)
    ensures x in Shown(entries, event, payloads, channels) <==> x in entries || Listed(messages, event, x)
    decreases |messages|
  {
    if messages == [] {
    } else {
      var n := |messages| - 1;
      EntriesAreListedExactly(entries, event, payloads[..n], channels[..n], messages[..n], x);
      ListedNext(messages, event, x);
      var before := Shown(entries, event, payloads[..n], channels[..n]);
      EmissionsMerge(before, event, payloads[n], messages[n]);
      MergedSeats(before, payloads[n], messages[n], x);
    }
  }

  lemma MergedSeats(entries: Statuses, p: Payload, m: Message, x: SeatId)
    requires Encodes(p, m)
    ensures x in Merge(entries, UpdatesOf(p)) <==> x in entries || x in m.seats
  {
    MergeAt(entries, UpdatesOf(p), x);
    if x in m.seats { assert Update(x, m.status) in UpdatesOf(p); }
  }

  lemma {:induction false} PublishedListsSeats(db: Db, cs: seq<Commit>, m: Message)
    requires Sound(db) && Legal(db, cs) && m in Published(db, cs)
    ensures m.seats <= Snapshot(db, m.event).Keys
    decreases |cs|
  {
    if m in MessagesOf(db, cs[0]) {
      if cs[0].CloseC? { assert WellFormed(db, db.reservations[cs[0].closed]); }
    } else {
      CommitKeepsSound(db, cs[0]);
      PublishedListsSeats(Apply(db, cs[0]), cs[1..], m);
    }
  }

  /** `entries` hold nothing but current statuses. */
  ghost predicate Current(entries: Statuses, snapshot: Statuses) {
    forall x | x in entries :: x in snapshot && entries[x] == snapshot[x]
  }

  lemma RunIsReplayed(db: Db, calls: seq<Call>, event: EventId)
    requires Sound(db) && PossibleRun(db, calls)
    ensures Snapshot(DbAfter(db, calls), event) == Replay(Snapshot(db, event), event, Published(db, History(db, calls)))
  {
    RunIsLegal(db, calls);
    HistoryIsReplayed(db, History(db, calls), event);
  }

  /** From an empty start, a clear or a fresh page, the gateway's map of the event and the browser's are
      the same map: painted over the snapshot taken at the start it gives the database status of every
      seat. */
  lemma FeedEqualsDatabase(db: Db, calls: seq<Call>, payloads: seq<Payload>, channels: seq<EventId>,
                           states: map<EventId, Statuses>, event: EventId)
    requires Relays(db, calls, payloads, channels) && event !in states
    ensures var entries := Shown(map[], event, payloads, channels);
            && StatesOf(Relayed(states, payloads, channels), event) == entries
            && Overlay(Snapshot(db, event), entries) == Snapshot(DbAfter(db, calls), event)
  {
    RunIsReplayed(db, calls, event);
    MapsReplay(Snapshot(db, event), event, states, payloads, channels, Published(db, History(db, calls)));
    assert Overlay(Snapshot(db, event), map[]) == Snapshot(db, event);
  }

  /** Every entry of both maps is the current database status of an existing seat of the event. */
  lemma FeedIsCurrent(db: Db, calls: seq<Call>, payloads: seq<Payload>, channels: seq<EventId>, event: EventId)
    requires Relays(db, calls, payloads, channels)
    ensures Current(Shown(map[], event, payloads, channels), Snapshot(DbAfter(db, calls), event))
  {
    var history, entries := History(db, calls), Shown(map[], event, payloads, channels);
    FeedEqualsDatabase(db, calls, payloads, channels, map[], event);
    RunIsLegal(db, calls);
    forall x | x in entries ensures x in Snapshot(db, event) {
      EntriesAreListedExactly(map[], event, payloads, channels, Published(db, history), x);
      var m :| m in Published(db, history) && m.event == event && x in m.seats;
      PublishedListsSeats(db, history, m);
    }
    assert forall x | x in entries :: Overlay(Snapshot(db, event), entries)[x] == entries[x];
  }

  /** A page that subscribes first may load its snapshot at any later moment: what came in before the
      load does it no harm. */
  lemma SubscribeThenLoad(db: Db, before: seq<Call>, after: seq<Call>, event: EventId,
                          early: seq<Payload>, earlyChannels: seq<EventId>, late: seq<Payload>,
                          lateChannels: seq<EventId>)
    requires Relays(db, before, early, earlyChannels)
    requires Relays(DbAfter(db, before), after, late, lateChannels)
    ensures var loaded := DbAfter(db, before);
            var entries := Shown(Shown(map[], event, early, earlyChannels), event, late, lateChannels);
            Overlay(Snapshot(loaded, event), entries) == Snapshot(DbAfter(loaded, after), event)
  {
    var loaded := DbAfter(db, before);
    var first := Shown(map[], event, early, earlyChannels);
    FeedIsCurrent(db, before, early, earlyChannels, event);
    assert Overlay(Snapshot(loaded, event), first) == Snapshot(loaded, event);
    MapsReplay(Snapshot(loaded, event), event, map[event := first], late, lateChannels,
               Published(loaded, History(loaded, after)));
    RunIsReplayed(loaded, after, event);
  }

  /** The seat page loads first and subscribes afterwards. What it then shows equals the database exactly
      when every seat whose status at the subscription was no longer the loaded one is listed by some
      message published for the event since. */
  lemma LoadThenSubscribeExactly(db: Db, missed: seq<Call>, seen: seq<Call>, event: EventId,
                                 payloads: seq<Payload>, channels: seq<EventId>)
    requires Sound(db) && PossibleRun(db, missed) && Relays(DbAfter(db, missed), seen, payloads, channels)
    ensures var subscribed := DbAfter(db, missed);
            && Snapshot(db, event).Keys == Snapshot(subscribed, event).Keys
            && (Overlay(Snapshot(db, event), Shown(map[], event, payloads, channels))
                == Snapshot(DbAfter(subscribed, seen), event) <==>
                forall x | x in Snapshot(db, event) && Snapshot(db, event)[x] != Snapshot(subscribed, event)[x] ::
                  Listed(Published(subscribed, History(subscribed, seen)), event, x))
  {
    var subscribed := DbAfter(db, missed);
    var messages, entries := Published(subscribed, History(subscribed, seen)), Shown(map[], event, payloads, channels);
    SameSeats(db, missed, event);
    FeedEqualsDatabase(subscribed, seen, payloads, channels, map[], event);
    SameOverlayExactly(Snapshot(db, event), Snapshot(subscribed, event), entries);
    forall x ensures x in entries <==> Listed(messages, event, x) {
      EntriesAreListedExactly(map[], event, payloads, channels, messages, x);
    }
  }

  lemma SameSeats(db: Db, calls: seq<Call>, event: EventId)
    requires Sound(db) && PossibleRun(db, calls)
    ensures Snapshot(DbAfter(db, calls), event).Keys == Snapshot(db, event).Keys
  {
    RunIsLegal(db, calls);
    HistoryKeepsSound(db, History(db, calls));
  }

  lemma SameOverlayExactly(a: Statuses, b: Statuses, entries: Statuses)
    requires a.Keys == b.Keys
    ensures Overlay(a, entries) == Overlay(b, entries) <==> forall x | x in a && x !in entries :: a[x] == b[x]
  {
    if Overlay(a, entries) == Overlay(b, entries) {
      forall x | x in a && x !in entries ensures a[x] == b[x]
      {
        assert Overlay(a, entries)[x] == Overlay(b, entries)[x];
      }
    }
  }

  /** A hold that commits between the load and the subscription is not shown: its seats stay available on
      the page although they are on hold. */
  lemma MissedHoldIsNotShown(db: Db, call: Call, x: SeatId)
    requires Sound(db) && call.HoldSeats? && Possible(db, call) && CommitsOf(db, call) != [] && x in call.request
    ensures var shown := Overlay(Snapshot(db, call.event), Shown(map[], call.event, [], []));
            && x in shown && shown[x] == Available
            && x in Snapshot(DbAfter(db, [call]), call.event) && Snapshot(DbAfter(db, [call]), call.event)[x] == Hold
  {
    HoldSucceedsExactly(db, call.user, call.event, call.request, call.checkAt, call.fate);
    assert x in Matching(db, call.event, call.request) && x in Elements(call.rows) && x in call.rows;
    AfterOneCall(db, call, CommitsOf(db, call)[0]);
  }

  lemma AfterOneCall(db: Db, call: Call, c: Commit)
    requires CommitsOf(db, call) == [c]
    ensures DbAfter(db, [call]) == Apply(db, c)
  {
    var one, rest: seq<Call> := [call], [];
    assert one[0] == call && one[1..] == rest;
    assert History(Play(db, [c]), rest) == [];
    assert History(db, one) == CommitsOf(db, call) + History(Play(db, CommitsOf(db, call)), rest);
    assert History(db, one) == [c] + [] == [c];
    assert [c][1..] == [] && Play(db, [c]) == Play(Apply(db, c), []) == Apply(db, c);
  }

  const ONE_SEAT := Db(map[7 := Seat(1, 100, Available, None, None)], map[], map[])
  const MISSED := HoldSeats(10, 1, [7], 0, 0, 0, 0, [7], Fate(true, true, true, true, true, true, true))

  /** Such a run exists: one seat, loaded, then held by somebody before the page subscribes. */
  lemma LoadThenSubscribeMisleads()
    ensures Sound(ONE_SEAT) && PossibleRun(ONE_SEAT, [MISSED]) && Relays(DbAfter(ONE_SEAT, [MISSED]), [], [], [])
    ensures Overlay(Snapshot(ONE_SEAT, 1), Shown(map[], 1, [], [])) != Snapshot(DbAfter(ONE_SEAT, [MISSED]), 1)
  {
    OneSeatIsHeld();
    assert [MISSED][1..] == [] && PossibleRun(ONE_SEAT, [MISSED]);
    MissedHoldIsNotShown(ONE_SEAT, MISSED, 7);
    assert Sound(DbAfter(ONE_SEAT, [MISSED])) by { RunIsLegal(ONE_SEAT, [MISSED]); }
  }

  lemma OneSeatIsHeld()
    ensures Sound(ONE_SEAT) && Possible(ONE_SEAT, MISSED) && CommitsOf(ONE_SEAT, MISSED) != []
  {
    assert Elements([7]) == {7} == Matching(ONE_SEAT, 1, [7]);
    HoldSucceedsExactly(ONE_SEAT, 10, 1, [7], 0, MISSED.fate);
  }
}
