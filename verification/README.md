# Ticketing: a verified model of seat reservation, payment and their replicas

A Dafny model of a ticketing system's core: the reservation and payment services and the lock they share,
the seat feed and caches that follow the database, the waiting line, the rate limiter, the replica planner
and pre-scaler, and the gateway's disconnect timers. `dafny verify dfyconfig.toml` checks everything.

## How it is built

| files | content |
|---|---|
| `Booking`, `SeatLedger`, `Money`, `Histories` | rows, the four kinds of transaction, the invariants each keeps, whole histories cut anywhere |
| `Calls`, `Stores`, `Services`, `Runs` | what each service call must commit, answer and leave in Redis; the services as classes over a session and a Redis client, proved against that; runs of calls |
| `Outcomes` | the same calls said of columns and figures, if and only if: who is refused, who closes a reservation, where a payment row ends, what is sent |
| `Interleaving`, `InterleavingSafety`, `Races`, `InterleavedPayments`, `PaymentTrails` | clients step by step: program counters, clock, lock leases, row locks; payments between their commits, and what lies behind each payment row |
| `Locks` | the leased lock, its retries and its context manager |
| `Replicas`, `HoldKeys`, `SeatFeed`, `SeatCache` | published messages, hold keys, gateway map, browser map and cached lists against the database |
| `Planner`, `PreScaler` | demand, smoothing, windows, recommendation; the minReplicas check |
| `WaitingQueue`, `RateLimiter`, `Sockets` | timed state machines with claims over whole runs |
| `Wrappers`, `Sums` | vocabulary |

A service call is modelled twice. As a method of a class it takes the code's steps in the code's order; its
contract names the transactions it commits, one by one, by a function of the old database. As a value (`Call`)
it carries everything it reads from outside, so that a run is a list of calls. Commits are the only way the
database changes, and every property of histories holds between any two of them, hence at every crash.

## Assumptions

- Identifiers are natural numbers, instants whole microseconds (milliseconds in `Locks` and `Sockets`), prices
  non-negative hundredths. Planner rates are reals, and `floor(n * 0.8)` is `4 * n / 5` on the counts it meets.
- New keys and lock values are fresh. They, clock readings, the gateway's answer, the order in which a query
  returns rows, and what fails when (`Fate`) are parameters and arbitrary.
- Reading a reservation again after the lock is a fresh read of the database, as the comment at
  `apps/core-api/src/services/reservation_service.py:230` intends. Database
  transactions commit or roll back as a whole; a pipeline or script of Redis runs as a whole.
- A message's seats are a set in `Replicas`; `SeatFeed` proves their order immaterial.

## Where the code does not do what it is described to do

- The repository's README (lines 10 and 239) promises that the lock leaves no duplicate booking. `cancel_reservation` and
  `complete_reservation` test the status before they ask for the lock and not again inside it.
  `Races.PaymentRaceDoublesASeat` is a run, every section within its lease, that sells a seat held by another
  user. `InterleavingSafety.DisciplinedRunIsSafe` therefore assumes that a closing still finds its reservation
  held when it gets the lock, and `InterleavingSafety.LateCloseIsSafeExactly` is the exact condition.
- Two payments of one reservation can both be completed and stamped, and the user charged twice: both pass the status
  test before either takes the lock, and no constraint forbids a second completed row
  (`InterleavedPayments.TwoPaymentsOfOneReservation`). `Money.StampIsSoundExactly` and
  `InterleavedPayments.RacingPaymentsExactly` say exactly when the books survive; seats are safe in this race.
- One live hold per user and event needs sections that end within the ten-second lease
  (`Races.LeaseRaceDuplicatesAHold`, exact condition `InterleavingSafety.LateHoldIsUniqueExactly`); the seat
  ledger does not (`InterleavingSafety.HoldsNeedNoLease`).
- A sale is left with a pending payment by a crash between completion and stamp, and by three failures there: the
  Redis cleanup, giving back the lock, the stamp's own commit (`Runs.TillBalancesExactly`).
- Hold keys end 300 seconds after they are set, while their seats stay on hold until a sweep
  (`HoldKeys.UnsweptHoldLosesItsKeys`).
- The seat page loads its list and subscribes afterwards, so it can miss updates
  (`SeatFeed.LoadThenSubscribeExactly`, `SeatFeed.LoadThenSubscribeMisleads`); the other order cannot (`SeatFeed.SubscribeThenLoad`).
- A request that queries before a hold and stores after its invalidation caches the old list
  (`SeatCache.SlowStoreBreaksCoherence`); without such overlap lists are current
  (`SeatCache.CalmRunServesCurrent`), and with it their age stays bounded (`SeatCache.StalenessIsBounded`).
- `get_event_seats` answers an empty list instead of 404 for a missing event whose list `get_seats` has cached.
- The planner's comment limits scale-down to 20 percent a step; rounding down exceeds it
  (`Planner.ShrinksByAFifthExactly`). The comment that it goes down one step at a time does not describe the code.
- The lock's one-second cap on waits does not apply to the first (`Locks.BackoffIsBoundedExactly`).
- The pre-scaler's header says it looks at events opening in 1 to 15 minutes; the code looks at 5 to 15.
- The pre-scaler's minimum does not cover every event it tracks: a second event raised replaces the first one's count, and
  restoring one event sets the minimum back to 2 for all (`PreScaler.CheckSetsMinimumExactly`).
- A rate limit of n per window lets 2n through in one window's length (`RateLimiter.TwiceIsReached`,
  exact condition `RateLimiter.WindowIsLimitedExactly`).
- The rate limiter lower-cases the Authorization header before it decodes the token
  (`apps/core-api/src/middleware/rate_limiter.py:74-80`), so a token with an upper-case letter does not decode and its
  user is counted by address; the model takes what the decoding yields as given.
- A failing Redis unsubscribe is swallowed, and a later subscription then relays each message twice; that shows
  nothing wrong (`SeatFeed.RepeatsAreHarmless`).

## Model

| member | source | states |
|---|---|---|
| `SeatLedger.CommitKeepsLedger` | apps/core-api/src/services/reservation_service.py:92-120 | Every transaction the services commit keeps the seat ledger: seat lists of reservations not cancelled are disjoint and duplicate-free and every seat row shows its one owner |
| `SeatLedger.HoldKeepsLedger` | apps/core-api/src/services/reservation_service.py:95-107 | The hold transaction keeps the ledger: the new reservation owns exactly the rows it wrote, nobody else loses or gains one |
| `SeatLedger.CloseKeepsLedger` | apps/core-api/src/services/reservation_service.py:150-157 | Cancelling or completing a held reservation keeps the ledger |
| `SeatLedger.CloseOwns` | apps/core-api/src/services/reservation_service.py:196-203 | Closing a reservation takes ownership from nobody else and, if it sells, keeps its own |
| `SeatLedger.SeatStatusIsExact` | apps/core-api/src/services/reservation_service.py:86-99 | Each seat status is equivalent to a fact about reservations: hold iff exactly one held one lists it (with matching columns), sold iff exactly one completed one, available iff none |
| `SeatLedger.CommitEvolves` | apps/core-api/src/repositories/reservation_repository.py:92-97 | A reservation leaves held once and then never changes; no row is deleted, no price or event changes |
| `SeatLedger.SoldSeatStaysSold` | apps/core-api/src/services/reservation_service.py:86-90 | Between two ledgers of one history a sold seat keeps its completed reservation and gets no other |
| `SeatLedger.CloseIsSafeExactly` | apps/core-api/src/services/reservation_service.py:143-157 | A close committed on a reservation in any state leaves seats and reservations intact if and only if it is still held, or the same change was already made and its seats are as it left them; payments are not part of this claim |
| `Money.CommitKeepsSound` | apps/core-api/src/services/payment_service.py:74-91 | Every transaction keeps ledger and books together: a payment row is for exactly the price of its reservation, is paid only once that is completed, and at most one per reservation is paid |
| `Money.PaidTwiceExactly` | apps/core-api/src/models/payment.py:25-27 | A reservation comes to have two completed payments exactly by a stamp on one already paid; nothing in the schema forbids it |
| `Money.CommitIsSoundExactly` | apps/core-api/src/services/reservation_service.py:180-203 | A transaction whose tests are stale (a completion already made, a row for a closed reservation, a late stamp) keeps ledger and books if and only if it is not such a stamp |
| `Money.StampIsSoundExactly` | apps/core-api/src/services/payment_service.py:86-87 | Stamping a pending payment of a completed reservation keeps the books if and only if no other payment has been stamped for it |
| `Money.MoneyIsConservedExactly` | apps/core-api/src/services/payment_service.py:53-91 | Whatever is paid twice, nothing sold is missing; payments and open bills are exactly the sales if and only if no reservation is paid twice for something |
| `Money.MoneyIsConserved` | apps/core-api/src/services/payment_service.py:53-91 | The price of all sold seats equals the money stamped completed plus the bills of reservations completed and not stamped yet |
| `Money.SettledBooksBalance` | apps/core-api/src/services/payment_service.py:85-89 | When nothing is unstamped, payments equal sales and each completed reservation has exactly one completed payment |
| `Histories.HistoryKeepsSound` | apps/core-api/src/services/reservation_service.py:40-316 | Ledger and books survive every legal history of transactions |
| `Histories.EveryMomentIsSound` | apps/core-api/src/services/payment_service.py:74-91 | Between any two transactions ledger and books hold and money is conserved |
| `Histories.NoDoubleBooking` | apps/core-api/src/services/reservation_service.py:86-90 | No double booking: a seat sold at one moment belongs to the same reservation, and to no other, at every later moment |
| `Calls.HoldSucceedsExactly` | apps/core-api/src/services/reservation_service.py:58-90 | A hold goes through if and only if the lock, Redis and the commit are reached, the user has no live hold for the event, and the request names distinct, existing, available seats of it; a repeated id is refused by the length test |
| `Calls.ReleaseIsLegal` | apps/core-api/src/services/reservation_service.py:225-263 | Whatever lock or Redis failures its reservations meet, a release loop commits a legal history |
| `Calls.ReleaseTouches` | apps/core-api/src/services/reservation_service.py:229-248 | A release loop cancels exactly the snapshot members that were held and whose section was entered and could commit, and changes no other reservation |
| `Calls.ReleaseCounts` | apps/core-api/src/services/reservation_service.py:225-265 | The count returned never exceeds the seats made available and equals it when no Redis cleanup fails after a commit |
| `Calls.ReleaseFrees` | apps/core-api/src/services/reservation_service.py:241-248 | Cancelling a held reservation frees exactly its seats, none of them free before |
| `Calls.SweepClearsExpired` | apps/core-api/src/repositories/reservation_repository.py:79-90 | A sweep cancels exactly the reservations that were held, had an expiry strictly before its clock, and whose section was entered and could commit; if all could, every reservation still held has its expiry at or after the clock |
| `Calls.RepeatedSweepReleasesNothing` | apps/core-api/src/repositories/reservation_repository.py:79-90 | A second sweep at the same clock, after one whose sections could all commit, commits nothing and returns 0 |
| `Calls.UnsettledMoves` | apps/core-api/src/services/payment_service.py:85-87 | The set of sold but unstamped reservations grows by a completion, shrinks by its stamp, and is touched by nothing else |
| `Calls.ChargeIsLegal` | apps/core-api/src/services/payment_service.py:80-91 | The transactions after the gateway's answer are legal in turn; they leave the sale unstamped exactly if it was approved and completed and then the Redis cleanup, the lock's release or the stamp's commit failed |
| `Calls.PaymentIsLegal` | apps/core-api/src/services/payment_service.py:53-91 | A payment commits a legal history, so a crash between any two of its commits is a moment of one; the guard under which it leaves a sale unstamped is exact |
| `Stores.Session.Select` | apps/core-api/src/services/reservation_service.py:70-80 | A query returns each matching row exactly once, in any order |
| `Stores.Session.WriteRows` | apps/core-api/src/services/reservation_service.py:95-99 | The assignment loop writes the three columns of the selected rows and of no other |
| `Stores.Session.SumPrices` | apps/core-api/src/services/reservation_service.py:126-128 | The loop over distinct selected rows sums the price of the reservation |
| `Stores.Redis.SetHoldKeys` | apps/core-api/src/services/reservation_service.py:110-117 | One pipeline sets the hold key of each seat, to expire 300 seconds later, and no other key |
| `Stores.Redis.DeleteHoldKeys` | apps/core-api/src/services/reservation_service.py:160-163 | One pipeline deletes exactly the hold keys of the listed seats of the event |
| `Stores.Redis.PublishSeatUpdate` | apps/core-api/src/services/reservation_service.py:318-337 | Both cached lists are dropped and the message is sent, or nothing happens and the failure is swallowed |
| `Services.ReservationService.HoldSeats` | apps/core-api/src/services/reservation_service.py:40-128 | Answers, commits and leaves Redis exactly as specified, whatever fails: a commit failing after the keys were set leaves those keys, an error in giving back the lock hides the answer and undoes nothing |
| `Services.ReservationService.HoldSection` | apps/core-api/src/services/reservation_service.py:59-126 | The block inside the lock: each test in order, then the hold |
| `Services.ReservationService.WriteHold` | apps/core-api/src/services/reservation_service.py:92-123 | Rows written, reservation created, keys set, committed, published, in that order; a failure at any point rolls the rows back |
| `Services.ReservationService.CancelReservation` | apps/core-api/src/services/reservation_service.py:130-168 | Refuses a missing, foreign or not held reservation without effect; otherwise commits the cancellation unless the database refuses it; failures after the commit are reported and not undone |
| `Services.ReservationService.CompleteReservation` | apps/core-api/src/services/reservation_service.py:180-213 | Refuses a missing, closed or expired reservation without effect; otherwise commits the completion unless the database refuses it; failures after the commit are reported and not undone |
| `Services.ReservationService.CloseHeld` | apps/core-api/src/services/reservation_service.py:190-211 | The section shared by all closings: rows written, status set, committed, keys dropped, update published, in that order |
| `Services.ReservationService.ReleaseHeld` | apps/core-api/src/services/reservation_service.py:229-263 | One round of a release loop: fresh look inside the lock, close what is held, count its rows unless something failed |
| `Services.ReservationService.ReleaseEach` | apps/core-api/src/services/reservation_service.py:225-263 | The loop meets its recursive specification whatever fails for each reservation |
| `Services.ReservationService.ReleaseExpiredHolds` | apps/core-api/src/services/reservation_service.py:215-265 | Takes its snapshot of expired held reservations and runs the loop over it |
| `Services.ReservationService.ReleaseUserHolds` | apps/core-api/src/services/reservation_service.py:267-316 | Takes its snapshot of the user's held reservations and runs the loop over it |
| `Services.PaymentService.ProcessPayment` | apps/core-api/src/services/payment_service.py:32-91 | Commits exactly the specified transactions one by one and answers as specified in every case |
| `Services.PaymentService.Charge` | apps/core-api/src/services/payment_service.py:80-91 | From the gateway's answer on: completion and stamp as separate commits, or the failed stamp |
| `Services.PaymentService.CompleteAndStamp` | apps/core-api/src/services/payment_service.py:82-87 | After approval: completion, then stamp, each its own commit; any error of the completion leaves before the stamp |
| `Services.PaymentService.Verify` | apps/core-api/src/services/payment_service.py:54-71 | The five tests before a payment row exists, in order, the amount against the summed seat prices |
| `Services.PaymentService.Stamp` | apps/core-api/src/repositories/payment_repository.py:41-49 | The status of one pending payment is changed and committed, or rolled back if the commit fails |
| `Runs.CallIsLegal` | apps/core-api/src/services/reservation_service.py:40-316 | Every service call commits a legal history, whatever the environment does to it; the sales unstamped afterwards are those before, and its own exactly if it ended so |
| `Runs.RunIsLegal` | apps/core-api/src/services/reservation_service.py:40-316 | So does every run of calls; it leaves no sale newly unstamped if and only if none of its calls ended so |
| `Runs.TillBalancesExactly` | apps/core-api/src/services/payment_service.py:80-89 | After a run each completed reservation has its one completed payment if and only if no call was admitted, approved and completed and then failed before its stamp; then payments equal sales |
| `Runs.TillBalances` | apps/core-api/src/services/payment_service.py:53-89 | After any run without a failure after approval, completed payments equal the price of sold seats, one payment per completed reservation |
| `Runs.CrashSafety` | apps/core-api/src/services/payment_service.py:74-91 | At any crash point of any run: the ledger holds, payments never exceed sales, a completed payment has a completed reservation, sold seats stay sold |
| `Outcomes.HoldIsRefusedExactly` | apps/core-api/src/services/reservation_service.py:58-90 | Each answer to a hold, if and only if, in columns: it is a duplicate exactly if the same user has a held reservation for the same event whose expiry is after the clock; seats of the event that are missing, taken or listed twice are refused next |
| `Outcomes.CancelIsAnsweredExactly` | apps/core-api/src/services/reservation_service.py:130-168 | Each answer to a cancellation, if and only if: to anybody but the owner the reservation does not exist, and only the owner's cancellation of a held reservation commits |
| `Outcomes.CompletionIsAnsweredExactly` | apps/core-api/src/services/reservation_service.py:180-213 | Each answer to a completion, if and only if; a reservation is too old strictly after its expiry |
| `Outcomes.PaymentIsRefusedExactly` | apps/core-api/src/services/payment_service.py:48-66 | Each refusal before the payment row, if and only if: not the user's, not held, past its expiry, not the price |
| `Outcomes.ChargeIsAnsweredExactly` | apps/core-api/src/services/payment_service.py:80-91 | A payment is answered as made exactly if it was approved, in time, and nothing failed; a decline recorded as such is a broken business rule |
| `Outcomes.PriceIsTheSum` | apps/core-api/src/services/payment_service.py:59-62 | The price is the sum over the listed rows that exist, each once |
| `Outcomes.HoldWritesExactly` | apps/core-api/src/services/reservation_service.py:92-107 | A hold that goes through creates the reservation asked for, held for five minutes, and puts exactly its seats on hold for its user until then; one that does not changes nothing |
| `Outcomes.ReservationsMoveExactly` | apps/core-api/src/services/reservation_service.py:130-316 | Over every call, both ways: a reservation is cancelled exactly by its owner's cancellation, a sweep strictly after its expiry, or a release of its own user, and completed exactly by its owner's approved payment of its price in time; otherwise it stays as it is |
| `Outcomes.RunClosesExactly` | apps/core-api/src/services/reservation_service.py:130-316 | The same over whole runs: a reservation ends cancelled, or completed, if and only if some call that may do so found it held |
| `Outcomes.PaymentWritesExactly` | apps/core-api/src/services/payment_service.py:68-91 | Everything a payment writes: declined, its row fails and no seat or reservation changes; approved and completed with nothing failing, it is paid and the reservation completed; otherwise the row stays pending |
| `Outcomes.RunLeavesPendingExactly` | apps/core-api/src/services/payment_service.py:74-91 | After a run exactly those rows are pending that were, and those of admitted payments neither recorded as declined nor completed and stamped |
| `Outcomes.HoldSetsKeysExactly` | apps/core-api/src/services/reservation_service.py:109-120 | A hold that reaches Redis sets the key of each requested seat to its user for five minutes and no other; a commit that then fails leaves them |
| `Outcomes.CloseDropsKeysExactly` | apps/core-api/src/services/reservation_service.py:159-163 | A closing drops the keys of its rows and no other, or none where Redis fails |
| `Outcomes.HoldSendsExactly` | apps/core-api/src/services/reservation_service.py:123 | A hold that goes through sends one message, its seats on hold, and drops the cached lists of its event only; any other sends nothing |
| `Outcomes.CancelSendsExactly` | apps/core-api/src/services/reservation_service.py:159-168 | A cancellation sends one message, its rows available, exactly if it is the owner's, of a held reservation, and gets that far |
| `Outcomes.PaymentSendsExactly` | apps/core-api/src/services/reservation_service.py:206-211 | A payment sends one message, its rows sold, exactly if it completes its reservation and gets that far |
| `Outcomes.ReleaseSendsExactly` | apps/core-api/src/services/reservation_service.py:229-259 | One round of a release sends its rows as available and counts them, exactly if the reservation is held and the round gets that far |
| `Interleaving.StepKeepsRows` | apps/core-api/src/services/reservation_service.py:69-80 | In every interleaving, row locks and clients agree and what was read under a row lock is still in the database |
| `Interleaving.CommitTouchesOwnRows` | apps/core-api/src/services/reservation_service.py:92-120 | A commit writes only rows its client has locked |
| `Interleaving.StepKeepsTokens` | apps/core-api/src/redis/lock.py:50-67 | Tokens stay unique and never come from the future |
| `Interleaving.AcquireKeepsLeases` | apps/core-api/src/redis/lock.py:53-61 | NX: an acquisition takes the key from nobody whose lease has time left |
| `Interleaving.ReleaseKeepsLeases` | apps/core-api/src/redis/lock.py:14-20 | Compare-and-delete: a release removes no key that carries another client's token |
| `Interleaving.StepKeepsLeases` | apps/core-api/src/redis/lock.py:14-67 | In every interleaving a client with lease time left still owns its event's live key |
| `Interleaving.LeaseLastsTenSecondsExactly` | apps/core-api/src/redis/lock.py:22-61 | Once acquired the lock of an event is free again exactly ten seconds later, unless released; other events' locks run on |
| `Interleaving.HoldStepsTestAsTheCall` | apps/core-api/src/services/reservation_service.py:59-90 | A hold in steps may commit, if nothing changed since it read its rows, exactly where the service call does |
| `Interleaving.CloseStepsTestAsTheCall` | apps/core-api/src/services/reservation_service.py:133-139 | So for the closings: the owner's test, the expiry test and the look inside the lock are those of the calls |
| `InterleavingSafety.MutualExclusion` | apps/core-api/src/redis/lock.py:43-67 | Two clients with lease time left are never in the section of the same event |
| `InterleavingSafety.CommitIsEnabled` | apps/core-api/src/services/reservation_service.py:69-120 | A client that has all its rows commits an enabled transaction; for a hold because nobody can have changed the rows it read |
| `InterleavingSafety.StepKeepsOneActive` | apps/core-api/src/services/reservation_service.py:60-67 | No step creates a second unexpired held reservation for one user and event |
| `InterleavingSafety.StepKeepsChecked` | apps/core-api/src/services/reservation_service.py:229-233 | What a client tested inside the lock stays true until its commit |
| `InterleavingSafety.StepIsSafe` | apps/core-api/src/services/reservation_service.py:58-123 | One step of any client keeps the whole invariant while no client in a section has used up its ten seconds and closings are not raced to the lock |
| `InterleavingSafety.DisciplinedRunIsSafe` | apps/core-api/src/services/reservation_service.py:281-307 | Every state that interleaved clients reach this way keeps the ledger and one live hold per user and event, and sold seats stay sold; the only assumption about the lock is the clock |
| `InterleavingSafety.DisciplinedRunIsLegal` | apps/core-api/src/services/reservation_service.py:58-123 | What such a run commits is a legal history of transactions, and playing it gives the run's database |
| `InterleavingSafety.FreshRunIsSound` | apps/core-api/src/services/reservation_service.py:58-123 | From a fresh system: ledger and one live hold in every state reached; these clients write no payment rows, and sound books stay sound under their completions, holds and cancellations |
| `InterleavingSafety.CompletionIsOneStep` | apps/core-api/src/services/reservation_service.py:183-203 | A payment's commit in a safe state finds its reservation held and tested in time, which is what an orderly run of the interleaved payments asks for |
| `InterleavingSafety.LateHoldIsUniqueExactly` | apps/core-api/src/services/reservation_service.py:60-67 | A hold whose test is no longer fresh at its commit gives nobody two live holds if and only if it has itself run out or the user still has no other |
| `InterleavingSafety.HoldsNeedNoLease` | apps/core-api/src/services/reservation_service.py:69-120 | In every interleaving of holds alone, leases expiring at will, row locks alone keep the ledger: no seat is held for two |
| `InterleavingSafety.LockIsSafe` | apps/core-api/src/redis/lock.py:14-20 | In every run at most one token matches a live key, and a late release by an expired owner never frees a successor's lock |
| `InterleavingSafety.LateCloseIsSafeExactly` | apps/core-api/src/services/reservation_service.py:138-143 | A closing that tested its reservation before the lock leaves ledger and history intact if and only if the reservation is still held when it commits, or the same change was made and nothing moved since; a second completion is of the latter kind |
| `Races.PaymentRaceDoublesASeat` | apps/core-api/src/services/reservation_service.py:183-189 | A run from a fresh system, every section in time, that sells a seat another user holds: payment tested, release, rival hold, completion |
| `Races.LeaseRaceDuplicatesAHold` | apps/core-api/src/services/reservation_service.py:60-67 | A run in which a lease expires inside the section and one user gets two live holds |
| `InterleavedPayments.StepIsEnabled` | apps/core-api/src/services/payment_service.py:53-91 | With tests and commits separate steps, whatever a client is about to commit is enabled, or is a payment row whose reservation was closed meanwhile, provided closing commits find their reservation still held; then no reservation is stamped twice |
| `InterleavedPayments.StepKeepsTill` | apps/core-api/src/services/payment_service.py:74-91 | Under the same proviso each step keeps ledger, books, what each client knows, and its ownership of its payment and completion |
| `InterleavedPayments.InterleavedTillConserves` | apps/core-api/src/services/payment_service.py:53-91 | In every interleaving under that proviso, crashes included, sales equal payments plus unstamped bills; if nobody leaves between completion and stamp those bills are exactly what clients inside are about to stamp |
| `InterleavedPayments.RacingPaymentsExactly` | apps/core-api/src/services/payment_service.py:53-91 | Without it, where completions may find the sale already made: ledger and every payment's price hold, payments and bills are never less than sales, and the books end sound if and only if no step stamped a payment for a reservation already paid |
| `InterleavedPayments.TwoPaymentsOfOneReservation` | apps/core-api/src/services/reservation_service.py:183-203 | From every state, whenever a reservation can be paid for, two clients can both pay for it: the run in which both pass the test before either completes |
| `InterleavedPayments.OneSeatIsPaidTwice` | apps/core-api/src/services/reservation_service.py:183-203 | A concrete such state: one seat, one held reservation, payments end above sales |
| `PaymentTrails.PaymentRowsMoveExactly` | apps/core-api/src/services/payment_service.py:68-90 | The payment rows after one step of any interleaving, exactly: recorded, failed by its own decline, paid by its own stamp, or unchanged |
| `PaymentTrails.ReservationsMoveExactly` | apps/core-api/src/services/reservation_service.py:196-203 | The reservations after one step, exactly: completed by a completion of their own payment, cancelled elsewhere, or unchanged |
| `PaymentTrails.PaidWasEarned` | apps/core-api/src/services/payment_service.py:48-84 | In every interleaving, races included: behind each paid row one client verified owner, status, expiry and price, recorded it, had it approved, found the reservation held and not over, completed it and stamped the row, in this order |
| `PaymentTrails.FailedWasDeclined` | apps/core-api/src/services/payment_service.py:77-89 | Behind each failed row its client verified it, recorded it and saw it declined |
| `Locks.RedisLock.Acquire` | apps/core-api/src/redis/lock.py:43-67 | Succeeds exactly if some attempt finds the key free, at the first that does; then the key is ours and live for the whole time to live, otherwise nothing of ours is stored; the time slept is the backoff of the failed attempts, at most a second per wait for initial delays up to a second |
| `Locks.RedisLock.Release` | apps/core-api/src/redis/lock.py:69-75 | Deletes the key exactly when it is live and still ours, and touches nothing else |
| `Locks.ReservationLock` | apps/core-api/src/redis/lock.py:98-110 | The block runs unless every attempt finds the key live; however it ends no live key of ours is left and nobody else's entry is touched: a successor's entry under the same key is spared exactly if the block took the ten seconds of the lease |
| `Locks.BackoffIsBoundedExactly` | apps/core-api/src/redis/lock.py:62-65 | Waiting is at most one second per wait if and only if the initial delay is at most a second |
| `Locks.WaitsDouble` | apps/core-api/src/redis/lock.py:62-65 | Closed form: wait i is the initial delay times 2^i, capped at one second from the second wait on |
| `Replicas.CommitIsReplayed` | apps/core-api/src/services/reservation_service.py:123 | What one transaction publishes repaints a snapshot into the new statuses |
| `Replicas.HistoryIsReplayed` | apps/core-api/src/services/reservation_service.py:318-334 | Replaying everything a legal history publishes over the first snapshot gives the current status of every seat |
| `Replicas.CallSends` | apps/core-api/src/services/reservation_service.py:306 | Each service call whose publishes are delivered sends exactly what its transactions publish, in order |
| `Replicas.ReplicaEqualsDatabase` | apps/core-api/src/services/reservation_service.py:318-334 | After any run of calls with delivered publishes, the messages sent replay to the database |
| `HoldKeys.CallKeepsKeys` | apps/core-api/src/services/reservation_service.py:109-117 | Each call keeps a key set for every seat on hold, naming its holder and living at least until the hold runs out; if both stores take its commands, no other key is added or left |
| `HoldKeys.RunKeepsKeys` | apps/core-api/src/services/reservation_service.py:159-163 | After any run, at any clock, every seat whose hold has not run out has a live key naming its holder; if both stores took every command, every live key belongs to a seat on hold |
| `HoldKeys.UnsweptHoldLosesItsKeys` | apps/core-api/src/services/reservation_service.py:112-116 | The seats of a hold nobody has closed stay on hold, and have a live key exactly until 300 seconds after the keys were set |
| `SeatFeed.PublishedPayloadEncodes` | apps/core-api/src/services/reservation_service.py:320-326 | The published payload lists every row it was given with the new status and nothing else |
| `SeatFeed.SeatService.UpdateSeatState` | apps/websocket-service/src/services/seat-service.js:9-18 | One entry of one event's map is written, created if absent |
| `SeatFeed.SeatService.BroadcastBatchSeatUpdate` | apps/websocket-service/src/services/seat-service.js:34-49 | The batch is merged entry by entry; a status event is emitted, then a reserved event if any entry is sold |
| `SeatFeed.SeatService.ClearEvent` | apps/websocket-service/src/services/seat-service.js:58-61 | The event's map is forgotten and no other |
| `SeatFeed.SeatService.GetSeatsSummary` | apps/websocket-service/src/services/seat-service.js:63-82 | The counts sent are the tally of the event's map |
| `SeatFeed.TallyCountsExactly` | apps/websocket-service/src/services/seat-service.js:63-82 | Each count is the number of known seats of that status, and they add up to all |
| `SeatFeed.SeatEvents.SubscribeToSeatUpdates` | apps/websocket-service/src/events/seat-events.js:9-43 | A channel gets no second callback while it is marked or unless unsubscribing has failed there; a subscription that raises leaves no trace, one without a connection leaves only the mark |
| `SeatFeed.SeatEvents.UnsubscribeFromSeatUpdates` | apps/websocket-service/src/events/seat-events.js:45-51 | The mark always goes, the callback only if Redis drops it; a swallowed failure leaves a callback without its mark |
| `SeatFeed.SeatEvents.OnMessage` | apps/websocket-service/src/events/seat-events.js:15-24 | A message is stored once and emitted once per callback, exactly once unless unsubscribing has failed on the channel; a missing event id falls back to the channel's |
| `SeatFeed.MessageIsStoredExactly` | apps/websocket-service/src/events/seat-events.js:20-24 | A message writes to its own event, or its channel's if it names none, and to no other; there each seat shows the last entry that lists it, a single seat being one entry; an empty batch creates no event |
| `SeatFeed.EmittedExactly` | apps/websocket-service/src/services/seat-service.js:36-48 | A status event is always emitted, then a reserved event exactly if an entry is sold, listing exactly the seats sold |
| `SeatFeed.RepeatsAreHarmless` | apps/websocket-service/src/services/redis-service.js:33-42 | A message relayed more than once, after such a failure, shows a browser what it shows relayed once |
| `SeatFeed.SeatUpdatesHook.HandleSeatStatusUpdated` | apps/frontend/src/hooks/useWebSocket.js:48-58 | The next map is the previous one with the updates merged in order |
| `SeatFeed.SeatUpdatesHook.HandleSeatReserved` | apps/frontend/src/hooks/useWebSocket.js:61-69 | The next map shows the listed seats sold and all others as before |
| `SeatFeed.ReservedIsRedundantExactly` | apps/websocket-service/src/services/seat-service.js:41-48 | Handling seat_reserved after its batch changes nothing if and only if no seat listed as sold has a later entry with another status |
| `SeatFeed.MergeRepaints` | apps/websocket-service/src/events/seat-events.js:21-23 | Merging the entries of a message, in any order, repaints the overlay as the message says |
| `SeatFeed.MapsReplay` | apps/websocket-service/src/services/seat-service.js:34-49 | The gateway's map and the browser's are the same and replay the messages |
| `SeatFeed.FeedEqualsDatabase` | apps/frontend/src/hooks/useWebSocket.js:48-69 | After any run of delivered calls, either map painted over the first snapshot is the database status of every seat |
| `SeatFeed.FeedIsCurrent` | apps/websocket-service/src/events/seat-events.js:20-24 | Every entry of either map is the current status of an existing seat of the event |
| `SeatFeed.SubscribeThenLoad` | apps/frontend/src/hooks/useWebSocket.js:27-35 | A page that subscribes first may load its snapshot at any later moment |
| `SeatFeed.LoadThenSubscribeExactly` | apps/frontend/src/components/pages/SeatDetailModal.jsx:93-94 | A page that loads first shows the database if and only if every seat whose status had changed by the subscription is listed by some message published for the event since |
| `SeatFeed.EntriesAreListedExactly` | apps/websocket-service/src/events/seat-events.js:20-24 | The entries of either map are exactly the seats the event's messages list |
| `SeatFeed.MissedHoldIsNotShown` | apps/frontend/src/components/pages/SeatDetailModal.jsx:93-94 | Every hold that commits between load and subscription leaves its seats shown as available |
| `SeatFeed.LoadThenSubscribeMisleads` | apps/frontend/src/components/pages/SeatDetailModal.jsx:93-94 | A concrete run in which the page shows a wrong status |
| `SeatCache.SeatEndpoints.Query` | apps/core-api/src/repositories/seat_repository.py:12-30 | The two queries return the event's rows, respectively its available rows |
| `SeatCache.SeatEndpoints.GetSeats` | apps/core-api/src/api/v1/seats.py:25-38 | Serves a live entry, else the database's list, which it stores for ten seconds |
| `SeatCache.SeatEndpoints.GetAvailableSeats` | apps/core-api/src/api/v1/seats.py:49-66 | The same on the key of the available list |
| `SeatCache.SeatEndpoints.GetEventSeats` | apps/core-api/src/api/v1/events.py:47-60 | The same on the shared key; a missing event is reported if and only if that key is not live |
| `SeatCache.UntouchedListsStay` | apps/core-api/src/services/reservation_service.py:328-334 | A transaction changes no list of an event whose keys its publish does not delete |
| `SeatCache.LiveListMovesExactly` | apps/core-api/src/api/v1/seats.py:27-38 | Step by step, what a key serves: a stored list until ten seconds later and not at that instant, nothing after its event's invalidation, and otherwise what it did |
| `SeatCache.StoreKeepsCoherentExactly` | apps/core-api/src/api/v1/seats.py:36 | A store keeps the cache coherent if and only if the list queried is still the database's |
| `SeatCache.CalmRunServesCurrent` | apps/core-api/src/api/v1/seats.py:27-38 | Step by step: as long as no commit falls between a request's query and store of a list it touches, whatever is served for an event whose commits have all been followed by an invalidation shows each of the event's seats, or each available one, with its price and status, and nothing else |
| `SeatCache.TurnIsSteps` | apps/core-api/src/services/reservation_service.py:328-334 | A whole request, or a transaction and its invalidation, is a few such steps and owes no invalidation |
| `SeatCache.ServedIsCurrent` | apps/core-api/src/api/v1/seats.py:27-38 | When requests and transactions take turns and publishes are delivered, whatever is served is the database's current list |
| `SeatCache.StalenessIsBounded` | apps/core-api/src/api/v1/seats.py:49-60 | However requests, commits and invalidations interleave and whichever are lost, whatever is served was the database's list less than ten seconds plus the query-to-store delay ago |
| `SeatCache.SlowStoreBreaksCoherence` | apps/core-api/src/api/v1/seats.py:32-36 | From every coherent state, a store that lands after a hold's invalidation leaves the old list served |
| `Planner.SmoothScaleDown` | apps/core-api/src/prediction/resource_calculator.py:132-145 | The in-place loop computes the smoothed plan |
| `Planner.SmoothIsLeastGentlePlan` | apps/core-api/src/prediction/resource_calculator.py:132-145 | The smoothed plan is pointwise the least one that meets demand, keeps a pod, and stays less than a whole pod below four fifths of the step before |
| `Planner.SmoothIsIdempotent` | apps/core-api/src/prediction/resource_calculator.py:132-145 | Smoothing twice is smoothing once |
| `Planner.SmoothClosedForm` | apps/core-api/src/prediction/resource_calculator.py:142-144 | Each count is the maximum over earlier demands, each decayed once per step since |
| `Planner.ShrinksByAFifthExactly` | apps/core-api/src/prediction/resource_calculator.py:133-144 | The promised limit of a fifth per step holds if and only if the previous count is 1 or a multiple of five, or demand shrinks no faster |
| `Planner.ConstantDemandIsReached` | apps/core-api/src/prediction/resource_calculator.py:142-144 | Twelve steps of constant demand reach it exactly, whatever came before |
| `Planner.ElevenStepsAreTooFew` | apps/core-api/src/prediction/resource_calculator.py:142-144 | Twelve is the least such number |
| `Planner.MergeWindows` | apps/core-api/src/prediction/resource_calculator.py:105-130 | The windows tile the steps in order with the right timestamps and counts, and neighbours differ |
| `Planner.ExpandGivesBackThePlan` | apps/core-api/src/prediction/resource_calculator.py:119-128 | Expanding the windows gives back the smoothed plan |
| `Planner.WindowsAreUnique` | apps/core-api/src/prediction/resource_calculator.py:119-128 | Any list of windows with these traits is the same list |
| `Planner.EachStepHasOneWindow` | apps/core-api/src/prediction/resource_calculator.py:119-128 | Every forecast step lies in exactly one window, which asks for its count |
| `Planner.Calculate` | apps/core-api/src/prediction/resource_calculator.py:59-96 | No windows exactly for an empty forecast; otherwise the tiling of the smoothed demand |
| `Planner.RpsToReplicasIsLeast` | apps/core-api/src/prediction/resource_calculator.py:100-103 | The count is the least in 2..50 whose pods carry the rate, or 50 |
| `Planner.RecommendationIsPeakDemand` | apps/core-api/src/services/prediction_service.py:83-88 | The recommendation is the least count from 2 to 50 whose pods carry the largest upper bound times the safety factor, or 50, because smoothing and merging keep the maximum |
| `Planner.NoForecastRecommendsTen` | apps/core-api/src/services/prediction_service.py:86-88 | Without a forecast ten pods are recommended |
| `Planner.PlanCoversDemand` | apps/core-api/src/prediction/resource_calculator.py:85-103 | Every step has from 2 to 50 pods, whose capacity is at least its upper bound times the safety factor unless there are 50 |
| `WaitingQueue.RedisQueue.ConsumeAtomic` | apps/core-api/src/redis/queue.py:37-54 | Removes the user if and only if its rank is 0 |
| `WaitingQueue.QueueService.JoinQueue` | apps/core-api/src/services/queue_service.py:20-36 | Rejoining changes nothing; a newcomer is added with the current time; the position returned is the user's |
| `WaitingQueue.QueueService.LeaveQueue` | apps/core-api/src/services/queue_service.py:44-45 | Removes the user, true if and only if it was waiting |
| `WaitingQueue.QueueService.ConsumeToken` | apps/core-api/src/services/queue_service.py:47-54 | A token is issued to the head of the line and to nobody else |
| `WaitingQueue.PositionsAreABijection` | apps/core-api/src/redis/queue.py:19-24 | Positions are a bijection from the waiting users onto 1..size, whatever the scores |
| `WaitingQueue.JoinGoesLastExactly` | apps/core-api/src/redis/queue.py:9-16 | A newcomer goes to the back if and only if nobody waiting has a later join time, nor the same one and a larger name |
| `WaitingQueue.StepRefinesFifo` | apps/core-api/src/services/queue_service.py:20-54 | Each operation does to the sorted set what it does to a plain line |
| `WaitingQueue.RunRefinesFifo` | apps/core-api/src/services/queue_service.py:20-54 | Over every run with strictly increasing join times the queue is a first-in-first-out line, and joins equal consumed, left, expired and waiting |
| `WaitingQueue.NobodyExpiresEarly` | apps/core-api/src/redis/queue.py:15-16 | Nobody is dropped before an hour has passed since their own join |
| `WaitingQueue.LineLastsAnHourExactly` | apps/core-api/src/redis/queue.py:13-16 | The whole line goes at once, exactly when an hour has passed since the last newcomer joined |
| `WaitingQueue.NobodyOvertakes` | apps/core-api/src/services/queue_service.py:20-54 | Whoever is ahead of a user who waited throughout was ahead at the beginning |
| `RateLimiter.RateLimiterMiddleware.Dispatch` | apps/core-api/src/middleware/rate_limiter.py:24-69 | Counts the request in its identity's bucket, users apart from addresses, and passes it exactly when the count is within the rule; lets it through when Redis fails |
| `RateLimiter.SharedCounterExactly` | apps/core-api/src/middleware/rate_limiter.py:40-52 | Two requests share a counter exactly if they are for the same path in the same second, and of the same user where users are counted and tokens decode, otherwise of the same address |
| `RateLimiter.CountersAreExact` | apps/core-api/src/middleware/rate_limiter.py:40-57 | No counter expires within its own bucket, so counters are exact |
| `RateLimiter.BucketLetsThroughExactly` | apps/core-api/src/middleware/rate_limiter.py:54-64 | Of n requests in a bucket exactly min(n, max_requests) get through |
| `RateLimiter.SecondsAreLimited` | apps/core-api/src/middleware/rate_limiter.py:16-20 | In figures: of what is sent in one second of the clock the first three joins, two reservations or five other requests get through, and in any second at most twice as many |
| `RateLimiter.AnyWindowLetsThroughAtMostTwice` | apps/core-api/src/middleware/rate_limiter.py:40-64 | In any half-open interval of one window at most twice max_requests get through |
| `RateLimiter.TwiceIsReached` | apps/core-api/src/middleware/rate_limiter.py:40-64 | That bound is reached, within the two microseconds around the start of any bucket |
| `RateLimiter.WindowIsLimitedExactly` | apps/core-api/src/middleware/rate_limiter.py:16-20 | At most max_requests get through in the window from an instant, whatever is sent, if and only if that window is a bucket |
| `PreScaler.ScalingService.RunPrescaleCheck` | apps/core-api/src/services/scaling_service.py:71-120 | One check: both loops over their events in any order, with any patch failing |
| `PreScaler.CheckKeepsInv` | apps/core-api/src/services/scaling_service.py:87-120 | A check raises no event twice and leaves no tracked event ten or more minutes past its opening |
| `PreScaler.CheckRestoresDefault` | apps/core-api/src/services/scaling_service.py:111-120 | When the patches succeed, an empty tracking table means the minimum is back at 2 |
| `PreScaler.CheckTracksExactly` | apps/core-api/src/services/scaling_service.py:80-120 | The tracking table after a check, exactly: what was tracked, and the untracked events opening in five to fifteen minutes whose patch succeeded, without those ten minutes or more past their opening |
| `PreScaler.CheckSetsMinimumExactly` | apps/core-api/src/services/scaling_service.py:104-120 | The minimum after a check, exactly: 2 if any event was restored with success, whatever else is tracked or was just raised; else the plan of a raised event, at most 30; else unchanged |
| `PreScaler.RunPrescalesOnce` | apps/core-api/src/services/scaling_service.py:71-120 | All three over every run with fixed opening times and a clock that does not go back |
| `Sockets.SocketService.HandleConnection` | apps/websocket-service/src/services/socket-service.js:17-36 | Counts the socket and cancels its user's pending release |
| `Sockets.SocketService.HandleDisconnection` | apps/websocket-service/src/services/socket-service.js:63-87 | Uncounts the socket; the last one starts the grace timer |
| `Sockets.SocketService.OnTimer` | apps/websocket-service/src/services/socket-service.js:89-91 | A due timer removes its entry and releases its user's holds |
| `Sockets.NothingIsOverwritten` | apps/websocket-service/src/services/socket-service.js:75-80 | A timer is started only when none is pending for the user |
| `Sockets.StepKeepsInv` | apps/websocket-service/src/services/socket-service.js:17-91 | Every event keeps counts and timers exact |
| `Sockets.CountsAndTimersAreExact` | apps/websocket-service/src/services/socket-service.js:25-36 | In every reachable state each count is the number of live sockets and outstanding timers are exactly the pending entries |
| `Sockets.ReleaseOnlyAfterGrace` | apps/websocket-service/src/services/socket-service.js:69-80 | A release fires only for a user with no live socket at any moment of the preceding grace period |
| `Sockets.PendingMovesExactly` | apps/websocket-service/src/services/socket-service.js:26-36 | A user's pending release, event by event: started, due in a minute, exactly when the user's last socket goes; dropped exactly when the user comes back or is released |
| `Sockets.AbsenceEndsInRelease` | apps/websocket-service/src/services/socket-service.js:72-91 | Over every run: since a user's last socket went, the user has been released, or a release is pending, due one minute after that moment, whose timer can fire as soon as it is due |

## Left out

- HTTP routing, JWT contents, JSON text, logging and metrics: plumbing over libraries.
- SQLAlchemy's identity map, and comparison of timezone-aware with naive datetimes: library behaviour.
- Which error names an unreachable Redis when the lock is asked for: it is reported as a lock not acquired.
- A Redis failure between INCR and EXPIRE of the rate limiter: the counter keeps a key of a past bucket that nobody counts in again.
- `get_reservation`, `get_payment` and list endpoints: they only read.
- Two clock readings in one check where the code takes two microseconds apart, except where they decide something (`checkAt`, `writeAt`, `completeAt`).
- The LSTM forecaster and its training: floating-point library code; the forecast is any list of bounded points.
- The prediction cache and its fallback for unknown events: easy members beside the planner.
- The `ScalerService`, storage helpers, the Luhn check, seat map geometry and React pages: operations or user interface.
- Event rooms of the gateway: a disconnect does not remove subscribers, so only a partial invariant holds.
- Client-sent seat_hold and seat_unhold broadcasts, and server-sent events: the first bypass the database, the second repeat the same payload.
- The guard against falsy seat ids in the browser hook: identifiers are never empty strings.
- The fetch that carries a grace release to the core API, and its secret: `Sockets` records that it is attempted, `Services.ReservationService.ReleaseUserHolds` is what it calls.
- Several processes: in-memory tables are modelled for one process.
- The order of rows in a cached list: lists are compared as sets of rows.
- Concurrent subscriptions to one channel while the first is still waiting: each subscription is one step.
