/** The fixed-window rate limiter: one Redis counter for each identity and bucket of the clock. Instants
    are microseconds since the epoch; a dispatch reads the clock once. */
module RateLimiter {
  import opened Wrappers

  const SECOND: int := 1_000_000

  datatype Path = QueueJoin | Reservations | Other(name: nat)

  datatype Rule = Rule(maxRequests: nat, window: int, perUser: bool)

  function RuleFor(path: Path): Rule {
    match path
    case QueueJoin => Rule(3, SECOND, false)
    case Reservations => Rule(2, SECOND, true)
    case Other(_) => Rule(5, SECOND, false)
  }

  /** Who is counted: the user where the rule is per user and the token decodes, else the address. */
  datatype Principal = User(id: nat) | Address(ip: nat)

  datatype Identity = Identity(principal: Principal, path: Path)

  /** `user` is what the bearer token decodes to, if it does. */
  function IdentityOf(path: Path, address: nat, user: Option<nat>): Identity {
    Identity(if RuleFor(path).perUser && user.Some? then User(user.value) else Address(address), path)
  }

  datatype Key = Key(id: Identity, bucket: int)

  datatype Counter = Counter(count: nat, expiresAt: int)

  function Bucket(now: int, window: int): int
    requires window > 0
  {
    now / window
  }

  /** The count an INCR returns: a key that is absent or expired starts again at one. */
  function Incremented(counters: map<Key, Counter>, key: Key, now: int): nat {
    if key in counters && now < counters[key].expiresAt then counters[key].count + 1 else 1
  }

  /** INCR, and EXPIRE after the first one of a key. */
  function Counted(counters: map<Key, Counter>, key: Key, now: int, window: int): map<Key, Counter> {
    var current := Incremented(counters, key, now);
    counters[key := if current == 1 then Counter(1, now + window * 2) else Counter(current, counters[key].expiresAt)]
  }

  class RateLimiterMiddleware {
    var counters: map<Key, Counter>

    constructor ()
      ensures counters == map[]
    {
      counters := map[];
    }

    /** True when the request goes on to its handler, false when it is answered 429. */
    method Dispatch(preflight: bool, path: Path, address: nat, user: Option<nat>, now: int, redisUp: bool)
      returns (passed: bool)
      modifies this
      ensures var rule := RuleFor(path);
              var key := Key(IdentityOf(path, address, user), Bucket(now, rule.window));
              if preflight || !redisUp then passed && counters == old(counters)
              else
                && passed == (Incremented(old(counters), key, now) <= rule.maxRequests)
                && counters == Counted(old(counters), key, now, rule.window)
    {
      if preflight { return true; }
      var rule := RuleFor(path);
      var bucket := Bucket(now, rule.window);
      var key := Key(IdentityOf(path, address, user), bucket);
      if !redisUp { return true; }
      var live := key in counters && now < counters[key].expiresAt;
      var current := if live then counters[key].count + 1 else 1;
      counters := counters[key := Counter(current, if live then counters[key].expiresAt else now)];
      if current == 1 { counters := counters[key := Counter(1, now + rule.window * 2)]; }
      return current <= rule.maxRequests;
    }
  }

  /** Two requests share a counter exactly if they are for the same path, in the same second, and of the
      same user where users are counted and both tokens decode, of the same address where neither counts. */
  lemma SharedCounterExactly(path1: Path, address1: nat, user1: Option<nat>, now1: int,
                             path2: Path, address2: nat, user2: Option<nat>, now2: int)
    ensures var key1 := Key(IdentityOf(path1, address1, user1), Bucket(now1, RuleFor(path1).window));
            var key2 := Key(IdentityOf(path2, address2, user2), Bucket(now2, RuleFor(path2).window));
            key1 == key2 <==>
              && path1 == path2 && now1 / 1_000_000 == now2 / 1_000_000
              && if path1 == Reservations && (user1.Some? || user2.Some?) then user1 == user2 else address1 == address2
  {
  }

  // ---- whole runs -------------------------------------------------------------------------

  datatype Request = Request(id: Identity, now: int)

  function KeyOf(r: Request): Key {
    Key(r.id, Bucket(r.now, RuleFor(r.id.path).window))
  }

  /** The counters after serving the requests one after another from an empty Redis. */
  function Serve(requests: seq<Request>): map<Key, Counter> {
    if requests == [] then map[] else
      var last := requests[|requests| - 1];
      Counted(Serve(requests[..|requests| - 1]), KeyOf(last), last.now, RuleFor(last.id.path).window)
  }

  /** Whether the last request of a non-empty run is let through. */
  predicate LastPasses(requests: seq<Request>)
    requires requests != []
  {
    var last := requests[|requests| - 1];
    Incremented(Serve(requests[..|requests| - 1]), KeyOf(last), last.now) <= RuleFor(last.id.path).maxRequests
  }

  ghost predicate Chronological(requests: seq<Request>) {
    forall i, j | 0 <= i <= j < |requests| :: requests[i].now <= requests[j].now
  }

  function CountOf(requests: seq<Request>, key: Key): nat {
    if requests == [] then 0 else
      CountOf(requests[..|requests| - 1], key) + if KeyOf(requests[|requests| - 1]) == key then 1 else 0
  }

  /** How many requests of `key` are let through. */
  function PassedOf(requests: seq<Request>, key: Key): nat {
    if requests == [] then 0 else
      PassedOf(requests[..|requests| - 1], key)
      + if KeyOf(requests[|requests| - 1]) == key && LastPasses(requests) then 1 else 0
  }

  /** How many requests of `id` are let through at instants from `lo` up to, not including, `hi`. */
  function PassedBetween(requests: seq<Request>, id: Identity, lo: int, hi: int): nat {
    if requests == [] then 0 else
      var last := requests[|requests| - 1];
      PassedBetween(requests[..|requests| - 1], id, lo, hi)
      + if last.id == id && lo <= last.now < hi && LastPasses(requests) then 1 else 0
  }

  lemma BucketBounds(now: int, window: int)
    requires window > 0
    ensures Bucket(now, window) * window <= now < (Bucket(now, window) + 1) * window
  {
  }

  /** A counter holds exactly the requests of its bucket and lives past the bucket's end. */
  ghost predicate CounterFits(counters: map<Key, Counter>, requests: seq<Request>, key: Key) {
    if CountOf(requests, key) == 0 then key !in counters
    else key in counters && counters[key].count == CountOf(requests, key)
         && counters[key].expiresAt >= (key.bucket + 2) * RuleFor(key.id.path).window
  }

  /** No counter can expire within its own bucket, so the counters of a run are exact. */
  lemma {:induction false} CountersAreExact(requests: seq<Request>, key: Key)
    requires Chronological(requests)
    ensures CounterFits(Serve(requests), requests, key)
    decreases |requests|
  {
    if requests == [] {
    } else {
      var before, last := requests[..|requests| - 1], requests[|requests| - 1];
      CountersAreExact(before, key);
      BucketBounds(last.now, RuleFor(last.id.path).window);
    }
  }

  lemma LastPassesExactly(requests: seq<Request>)
    requires requests != [] && Chronological(requests)
    ensures var before, last := requests[..|requests| - 1], requests[|requests| - 1];
            LastPasses(requests) <==> CountOf(before, KeyOf(last)) < RuleFor(last.id.path).maxRequests
  {
    var before, last := requests[..|requests| - 1], requests[|requests| - 1];
    CountersAreExact(before, KeyOf(last));
    BucketBounds(last.now, RuleFor(last.id.path).window);
  }

  /** Of the requests an identity makes in one bucket exactly the first max_requests get through. */
  lemma {:induction false} BucketLetsThroughExactly(requests: seq<Request>, key: Key)
    requires Chronological(requests)
    ensures PassedOf(requests, key) == Min(CountOf(requests, key), RuleFor(key.id.path).maxRequests)
    decreases |requests|
  {
    if requests == [] {
    } else {
      BucketLetsThroughExactly(requests[..|requests| - 1], key);
      LastPassesExactly(requests);
    }
  }

  lemma {:induction false} WindowMeetsTwoBuckets(requests: seq<Request>, id: Identity, lo: int)
    ensures var window := RuleFor(id.path).window;
            PassedBetween(requests, id, lo, lo + window) <=
            PassedOf(requests, Key(id, Bucket(lo, window))) + PassedOf(requests, Key(id, Bucket(lo, window) + 1))
    decreases |requests|
  {
    if requests == [] {
    } else {
      var window, last := RuleFor(id.path).window, requests[|requests| - 1];
      WindowMeetsTwoBuckets(requests[..|requests| - 1], id, lo);
      BucketBounds(lo, window);
      BucketBounds(last.now, window);
    }
  }

  /** In any half-open interval of one window length at most twice max_requests get through, wherever
      it starts. */
  lemma AnyWindowLetsThroughAtMostTwice(requests: seq<Request>, id: Identity, lo: int)
    requires Chronological(requests)
    ensures PassedBetween(requests, id, lo, lo + RuleFor(id.path).window) <= 2 * RuleFor(id.path).maxRequests
  {
    var window := RuleFor(id.path).window;
    WindowMeetsTwoBuckets(requests, id, lo);
    BucketLetsThroughExactly(requests, Key(id, Bucket(lo, window)));
    BucketLetsThroughExactly(requests, Key(id, Bucket(lo, window) + 1));
  }

  /** How many requests `id` sends at instants from `lo` up to, not including, `hi`. */
  function SentBetween(requests: seq<Request>, id: Identity, lo: int, hi: int): nat {
    if requests == [] then 0 else
      var last := requests[|requests| - 1];
      SentBetween(requests[..|requests| - 1], id, lo, hi) + if last.id == id && lo <= last.now < hi then 1 else 0
  }

  /** The window of one bucket sees and lets through what the bucket does. */
  lemma {:induction false} AlignedWindowIsOneBucket(requests: seq<Request>, id: Identity, bucket: int)
    ensures var window := RuleFor(id.path).window;
            && PassedBetween(requests, id, bucket * window, bucket * window + window)
               == PassedOf(requests, Key(id, bucket))
            && SentBetween(requests, id, bucket * window, bucket * window + window)
               == CountOf(requests, Key(id, bucket))
    decreases |requests|
  {
    if requests == [] {
    } else {
      AlignedWindowIsOneBucket(requests[..|requests| - 1], id, bucket);
      BucketBounds(requests[|requests| - 1].now, RuleFor(id.path).window);
    }
  }

  /** In figures: of what is sent in one second of the clock the first three joins, two reservations or
      five other requests get through, and in any second at most twice as many. */
  lemma SecondsAreLimited(requests: seq<Request>, id: Identity, second: int, lo: int)
    requires Chronological(requests)
    ensures var most := match id.path case QueueJoin => 3 case Reservations => 2 case Other(_) => 5;
            && PassedBetween(requests, id, second * 1_000_000, second * 1_000_000 + 1_000_000)
               == Min(SentBetween(requests, id, second * 1_000_000, second * 1_000_000 + 1_000_000), most)
            && PassedBetween(requests, id, lo, lo + 1_000_000) <= 2 * most
  {
    AlignedWindowIsOneBucket(requests, id, second);
    BucketLetsThroughExactly(requests, Key(id, second));
    AnyWindowLetsThroughAtMostTwice(requests, id, lo);
  }

  /** When bucket `b` begins. */
  function Start(id: Identity, b: int): int {
    b * RuleFor(id.path).window
  }

  /** `m` requests in the last microsecond before bucket `b`, then `n` at its start. */
  ghost function Bursts(id: Identity, b: int, m: nat, n: nat): seq<Request> {
    if n > 0 then Bursts(id, b, m, n - 1) + [Request(id, Start(id, b))]
    else if m > 0 then Bursts(id, b, m - 1, 0) + [Request(id, Start(id, b) - 1)]
    else []
  }

  lemma {:induction false} BurstsAt(id: Identity, b: int, m: nat, n: nat)
    ensures var bursts := Bursts(id, b, m, n);
            && |bursts| == m + n
            && forall i | 0 <= i < m + n :: bursts[i] == Request(id, if i < m then Start(id, b) - 1 else Start(id, b))
    decreases m + n
  {
    if m + n > 0 { BurstsAt(id, b, if n > 0 then m else m - 1, if n > 0 then n - 1 else 0); }
  }

  lemma BurstKeys(id: Identity, b: int)
    ensures KeyOf(Request(id, Start(id, b) - 1)) == Key(id, b - 1)
    ensures KeyOf(Request(id, Start(id, b))) == Key(id, b)
  {
    assert RuleFor(id.path).window == SECOND;
  }

  lemma CountOfSnoc(requests: seq<Request>, last: Request, key: Key)
    ensures CountOf(requests + [last], key) == CountOf(requests, key) + if KeyOf(last) == key then 1 else 0
  {
    assert (requests + [last])[..|requests|] == requests;
  }

  lemma {:induction false} BurstsCount(id: Identity, b: int, m: nat, n: nat)
    ensures CountOf(Bursts(id, b, m, n), Key(id, b - 1)) == m && CountOf(Bursts(id, b, m, n), Key(id, b)) == n
    decreases m + n
  {
    BurstKeys(id, b);
    if n > 0 {
      BurstsCount(id, b, m, n - 1);
      CountOfSnoc(Bursts(id, b, m, n - 1), Request(id, Start(id, b)), Key(id, b - 1));
      CountOfSnoc(Bursts(id, b, m, n - 1), Request(id, Start(id, b)), Key(id, b));
    } else if m > 0 {
      BurstsCount(id, b, m - 1, 0);
      CountOfSnoc(Bursts(id, b, m - 1, 0), Request(id, Start(id, b) - 1), Key(id, b - 1));
      CountOfSnoc(Bursts(id, b, m - 1, 0), Request(id, Start(id, b) - 1), Key(id, b));
    }
  }

  lemma BurstsAreChronological(id: Identity, b: int, m: nat, n: nat)
    ensures Chronological(Bursts(id, b, m, n))
  {
    BurstsAt(id, b, m, n);
  }

  lemma BurstPasses(id: Identity, b: int, m: nat, n: nat)
    requires m <= RuleFor(id.path).maxRequests && n <= RuleFor(id.path).maxRequests && m + n > 0
    ensures Bursts(id, b, m, n) != [] && LastPasses(Bursts(id, b, m, n))
  {
    var before := if n > 0 then Bursts(id, b, m, n - 1) else Bursts(id, b, m - 1, 0);
    BurstsAreChronological(id, b, m, n);
    BurstKeys(id, b);
    BurstsCount(id, b, if n > 0 then m else m - 1, if n > 0 then n - 1 else 0);
    assert Bursts(id, b, m, n)[..|before|] == before;
    LastPassesExactly(Bursts(id, b, m, n));
  }

  /** The factor two cannot be improved: twice max_requests do get through, within the two microseconds
      around the start of any bucket. */
  lemma {:induction false} TwiceIsReached(id: Identity, b: int, m: nat, n: nat, lo: int, hi: int)
    requires m <= RuleFor(id.path).maxRequests && n <= RuleFor(id.path).maxRequests
    requires lo < Start(id, b) < hi
    ensures Chronological(Bursts(id, b, m, n))
    ensures PassedBetween(Bursts(id, b, m, n), id, lo, hi) == m + n
    decreases m + n
  {
    BurstsAreChronological(id, b, m, n);
    if m + n > 0 {
      var before := if n > 0 then Bursts(id, b, m, n - 1) else Bursts(id, b, m - 1, 0);
      BurstPasses(id, b, m, n);
      TwiceIsReached(id, b, if n > 0 then m else m - 1, if n > 0 then n - 1 else 0, lo, hi);
      assert Bursts(id, b, m, n)[..|before|] == before;
    }
  }

  /** A window starts with its bucket, or has the start of the next one strictly inside. */
  lemma NextStartIsInside(id: Identity, lo: int)
    ensures var window, bucket := RuleFor(id.path).window, Bucket(lo, RuleFor(id.path).window);
            if lo % window == 0 then lo == Start(id, bucket) else lo < Start(id, bucket + 1) < lo + window
  {
    assert RuleFor(id.path).window == SECOND;
  }

  /** Whatever an identity sends, at most max_requests get through in the window from `lo`. */
  ghost predicate Limited(id: Identity, lo: int) {
    forall requests | Chronological(requests) ::
      PassedBetween(requests, id, lo, lo + RuleFor(id.path).window) <= RuleFor(id.path).maxRequests
  }

  lemma BucketIsLimited(id: Identity, bucket: int)
    ensures Limited(id, Start(id, bucket))
  {
    var lo := Start(id, bucket);
    forall requests | Chronological(requests)
      ensures PassedBetween(requests, id, lo, lo + RuleFor(id.path).window) <= RuleFor(id.path).maxRequests
    {
      AlignedWindowIsOneBucket(requests, id, bucket);
      BucketLetsThroughExactly(requests, Key(id, bucket));
    }
  }

  lemma OverlapIsNotLimited(id: Identity, b: int, lo: int)
    requires lo < Start(id, b) < lo + RuleFor(id.path).window
    ensures !Limited(id, lo)
  {
    var limit := RuleFor(id.path).maxRequests;
    var bursts := Bursts(id, b, limit, limit);
    TwiceIsReached(id, b, limit, limit, lo, lo + RuleFor(id.path).window);
    assert Chronological(bursts) && PassedBetween(bursts, id, lo, lo + RuleFor(id.path).window) == limit + limit;
    assert limit > 0;
  }

  /** The limit of max_requests per window holds in the window from `lo` if and only if that window is a
      bucket. */
  lemma WindowIsLimitedExactly(id: Identity, lo: int)
    ensures Limited(id, lo) <==> lo % RuleFor(id.path).window == 0
  {
    var bucket := Bucket(lo, RuleFor(id.path).window);
    NextStartIsInside(id, lo);
    if lo % RuleFor(id.path).window == 0 {
      BucketIsLimited(id, bucket);
    } else {
      OverlapIsNotLimited(id, bucket + 1, lo);
    }
  }
}
