/** The waiting line of one event: a Redis sorted set scored by join time, with an expiry on the whole
    key. The service refines a first-in-first-out line. */
module WaitingQueue {
  import opened Wrappers

  type UserId = nat

  const QUEUE_TTL_MICROS: int := 3_600_000_000

  datatype SortedSet = SortedSet(scores: map<UserId, int>, expiresAt: int)

  /** Sorted-set order: by score, and by member where scores are equal. */
  predicate Before(scores: map<UserId, int>, a: UserId, b: UserId)
    requires a in scores && b in scores
  {
    scores[a] < scores[b] || (scores[a] == scores[b] && a < b)
  }

  function Ahead(scores: map<UserId, int>, u: UserId): set<UserId>
    requires u in scores
  {
    set v | v in scores && Before(scores, v, u)
  }

  /** ZRANK. */
  function Rank(scores: map<UserId, int>, u: UserId): Option<nat> {
    if u in scores then Some(|Ahead(scores, u)|) else None
  }

  function Position(scores: map<UserId, int>, u: UserId): Option<nat> {
    match Rank(scores, u) case Some(rank) => Some(rank + 1) case None => None
  }

  /** The queue operations of the Redis client, on one event's key. */
  class RedisQueue {
    var queue: SortedSet
    var now: int

    constructor (now: int)
      ensures this.now == now && queue == SortedSet(map[], now)
    {
      this.now, queue := now, SortedSet(map[], now);
    }

    /** Time passes; a key whose expiry is reached is gone. */
    method Tick(to: int)
      requires now <= to
      modifies this
      ensures now == to && queue == Expired(old(queue), to)
    {
      now := to;
      if queue.scores != map[] && queue.expiresAt <= now { queue := queue.(scores := map[]); }
    }

    /** ZADD and EXPIRE in one pipeline. */
    method Add(u: UserId)
      modifies this`queue
      ensures queue == SortedSet(old(queue).scores[u := now], now + QUEUE_TTL_MICROS)
    {
      queue := SortedSet(queue.scores[u := now], now + QUEUE_TTL_MICROS);
    }

    /** ZREM. */
    method Remove(u: UserId) returns (removed: nat)
      modifies this`queue
      ensures removed == (if u in old(queue).scores then 1 else 0)
      ensures queue == old(queue).(scores := old(queue).scores - {u})
    {
      removed := if u in queue.scores then 1 else 0;
      queue := queue.(scores := queue.scores - {u});
    }

    /** The Lua script: remove `u` if and only if its rank is 0, atomically. */
    method ConsumeAtomic(u: UserId) returns (consumed: bool)
      modifies this`queue
      ensures consumed == (Rank(old(queue).scores, u) == Some(0))
      ensures queue == if consumed then old(queue).(scores := old(queue).scores - {u}) else old(queue)
    {
      consumed := Rank(queue.scores, u) == Some(0);
      if consumed { queue := queue.(scores := queue.scores - {u}); }
    }
  }

  class QueueService {
    const r: RedisQueue

    constructor (r: RedisQueue)
      ensures this.r == r
    {
      this.r := r;
    }

    method JoinQueue(u: UserId) returns (position: Option<nat>, total: nat)
      modifies r
      ensures r.now == old(r.now) && r.queue == Joined(old(r.queue), u, r.now)
      ensures position == Position(r.queue.scores, u) && position.Some? && total == |r.queue.scores|
    {
      var existing := Position(r.queue.scores, u);
      if existing.Some? { return existing, |r.queue.scores|; }
      r.Add(u);
      return Position(r.queue.scores, u), |r.queue.scores|;
    }

    method LeaveQueue(u: UserId) returns (left: bool)
      modifies r
      ensures r.now == old(r.now) && r.queue == Without(old(r.queue), u)
      ensures left == (u in old(r.queue).scores)
    {
      var removed := r.Remove(u);
      return removed > 0;
    }

    /** An access token is issued only to the head of the line. */
    method ConsumeToken(u: UserId) returns (token: bool)
      modifies r
      ensures r.now == old(r.now)
      ensures token == (Rank(old(r.queue).scores, u) == Some(0))
      ensures r.queue == if token then Without(old(r.queue), u) else old(r.queue)
    {
      token := r.ConsumeAtomic(u);
    }
  }

  function Joined(q: SortedSet, u: UserId, now: int): SortedSet {
    if u in q.scores then q else SortedSet(q.scores[u := now], now + QUEUE_TTL_MICROS)
  }

  function Without(q: SortedSet, u: UserId): SortedSet {
    q.(scores := q.scores - {u})
  }

  function Expired(q: SortedSet, now: int): SortedSet {
    if q.scores != map[] && q.expiresAt <= now then q.(scores := map[]) else q
  }

  // ---- positions --------------------------------------------------------------------------

  lemma AheadIsOrdered(scores: map<UserId, int>, a: UserId, b: UserId)
    requires a in scores && b in scores && Before(scores, a, b)
    ensures |Ahead(scores, a)| < |Ahead(scores, b)| < |scores|
  {
    SubsetSize(Ahead(scores, a), Ahead(scores, b));
    assert a in Ahead(scores, b) && a !in Ahead(scores, a);
    AheadIsBounded(scores, b);
  }

  lemma AheadIsBounded(scores: map<UserId, int>, u: UserId)
    requires u in scores
    ensures |Ahead(scores, u)| < |scores|
  {
    SubsetSize(Ahead(scores, u) + {u}, scores.Keys);
    assert |Ahead(scores, u) + {u}| == |Ahead(scores, u)| + 1;
  }

  /** The last of a non-empty sorted set. */
  lemma {:induction false} LastOf(scores: map<UserId, int>) returns (last: UserId)
    requires scores != map[]
    ensures last in scores && forall v | v in scores && v != last :: Before(scores, v, last)
    decreases |scores|
  {
    var u :| u in scores;
    var rest := scores - {u};
    assert forall v | v in scores && v != u :: v in rest;
    if rest == map[] {
      last := u;
    } else {
      assert scores == rest[u := scores[u]];
      var candidate := LastOf(rest);
      last := if Before(scores, candidate, u) then u else candidate;
      forall v | v in scores && v != last ensures Before(scores, v, last) {
        if v != u {
          assert v in rest && rest[v] == scores[v] && rest[candidate] == scores[candidate];
          assert v == candidate || Before(rest, v, candidate);
        }
      }
    }
  }

  lemma {:induction false} RankIsTaken(scores: map<UserId, int>, k: nat) returns (u: UserId)
    requires k < |scores|
    ensures u in scores && Rank(scores, u) == Some(k)
    decreases |scores|
  {
    var last := LastOf(scores);
    var rest := scores - {last};
    assert scores == rest[last := scores[last]];
    if k == |scores| - 1 {
      u := last;
      assert Ahead(scores, last) == rest.Keys;
    } else {
      u := RankIsTaken(rest, k);
      assert Before(scores, u, last);
      assert Ahead(scores, u) == Ahead(rest, u);
    }
  }

  lemma PositionsDiffer(scores: map<UserId, int>, u: UserId, v: UserId)
    requires u in scores && v in scores
    ensures Position(scores, u) == Position(scores, v) ==> u == v
  {
    if u != v {
      if Before(scores, u, v) { AheadIsOrdered(scores, u, v); } else { AheadIsOrdered(scores, v, u); }
    }
  }

  lemma PositionIsTaken(scores: map<UserId, int>, k: nat)
    requires 1 <= k <= |scores|
    ensures exists u :: u in scores && Position(scores, u) == Some(k)
  {
    var u := RankIsTaken(scores, k - 1);
  }

  /** Positions are a bijection from the waiting users onto 1..size, whatever the scores. */
  lemma PositionsAreABijection(scores: map<UserId, int>)
    ensures forall u | u in scores :: Position(scores, u).Some? && 1 <= Position(scores, u).value <= |scores|
    ensures forall u, v | u in scores && v in scores && Position(scores, u) == Position(scores, v) :: u == v
    ensures forall k | 1 <= k <= |scores| :: exists u :: u in scores && Position(scores, u) == Some(k)
  {
    forall u | u in scores ensures Position(scores, u).Some? && 1 <= Position(scores, u).value <= |scores| {
      AheadIsBounded(scores, u);
    }
    forall u, v | u in scores && v in scores && Position(scores, u) == Position(scores, v) ensures u == v {
      PositionsDiffer(scores, u, v);
    }
    forall k | 1 <= k <= |scores| ensures exists u :: u in scores && Position(scores, u) == Some(k) {
      PositionIsTaken(scores, k);
    }
  }

  // ---- first in, first out ----------------------------------------------------------------

  /** The sorted set stands for `line`: the same users, in sorted-set order. */
  ghost predicate Represents(scores: map<UserId, int>, line: seq<UserId>) {
    && NoDuplicates(line) && Elements(line) == scores.Keys
    && forall i, j | 0 <= i < j < |line| :: Before(scores, line[i], line[j])
  }

  /** The user at index `i` of the line has position `i + 1`; in particular only the head is rank 0. */
  lemma PositionIsIndex(scores: map<UserId, int>, line: seq<UserId>, i: nat)
    requires Represents(scores, line) && i < |line|
    ensures line[i] in Elements(line) && Position(scores, line[i]) == Some(i + 1)
  {
    var u := line[i];
    assert u in Elements(line);
    forall v | v in scores ensures v in Ahead(scores, u) <==> v in line[..i] {
      assert v in Elements(line);
      var j :| 0 <= j < |line| && line[j] == v;
      if j < i { assert line[..i][j] == v; }
      if v in line[..i] {
        var k :| 0 <= k < i && line[..i][k] == v;
        assert line[k] == line[j];
      }
    }
    assert Ahead(scores, u) == Elements(line[..i]) by {
      forall v | v in line[..i] ensures v in scores { assert v in Elements(line); }
    }
    LengthOfElements(line[..i]);
  }

  /** A newcomer goes to the back of the line exactly when nobody waiting has a later join time, nor
      the same one with a larger name. Strictly increasing join times are enough. */
  lemma JoinGoesLastExactly(q: SortedSet, line: seq<UserId>, u: UserId, now: int)
    requires Represents(q.scores, line) && u !in q.scores
    ensures Represents(Joined(q, u, now).scores, line + [u]) <==>
            forall v | v in q.scores :: q.scores[v] < now || (q.scores[v] == now && v < u)
  {
    LongerLine(q, line, u, now);
    var scores, longer := Joined(q, u, now).scores, line + [u];
    if forall v | v in q.scores :: q.scores[v] < now || (q.scores[v] == now && v < u) {
      forall i, j | 0 <= i < j < |longer| ensures Before(scores, longer[i], longer[j]) {
        assert line[i] in q.scores;
        if j < |line| { assert Before(q.scores, line[i], line[j]); }
      }
    } else {
      var v :| v in q.scores && !(q.scores[v] < now || (q.scores[v] == now && v < u));
      assert v in Elements(line);
      var i :| 0 <= i < |line| && line[i] == v;
      assert longer[i] == v && longer[|line|] == u && !Before(scores, v, u);
    }
  }

  /** The line with a newcomer at the end lists everybody who now waits, once. */
  lemma LongerLine(q: SortedSet, line: seq<UserId>, u: UserId, now: int)
    requires Represents(q.scores, line) && u !in q.scores
    ensures NoDuplicates(line + [u]) && Elements(line + [u]) == Joined(q, u, now).scores.Keys
    ensures forall i | 0 <= i < |line| :: line[i] in q.scores && line[i] != u
  {
    TakeOne(line, {u}, u);
    forall i | 0 <= i < |line| ensures line[i] in q.scores { assert line[i] in Elements(line); }
  }

  /** The line without `u`. */
  ghost function RemoveFrom(line: seq<UserId>, u: UserId): seq<UserId> {
    if u !in line then line else
      var i :| 0 <= i < |line| && line[i] == u;
      line[..i] + line[i + 1..]
  }

  lemma WithoutIndex(line: seq<UserId>, i: nat, v: UserId)
    requires NoDuplicates(line) && i < |line|
    ensures v in line[..i] + line[i + 1..] <==> v in line && v != line[i]
  {
    var shorter := line[..i] + line[i + 1..];
    if v in line && v != line[i] {
      var k :| 0 <= k < |line| && line[k] == v;
      assert shorter[if k < i then k else k - 1] == v;
    }
    if v in shorter {
      var k :| 0 <= k < |shorter| && shorter[k] == v;
      assert line[if k < i then k else k + 1] == v;
    }
  }

  /** Where the elements of the shorter line were before. */
  lemma RemovedFrom(line: seq<UserId>, u: UserId, i: nat)
    requires NoDuplicates(line) && i < |line| && line[i] == u
    ensures RemoveFrom(line, u) == line[..i] + line[i + 1..] && |RemoveFrom(line, u)| == |line| - 1
    ensures forall k | 0 <= k < |line| - 1 :: RemoveFrom(line, u)[k] == line[if k < i then k else k + 1]
    ensures Elements(RemoveFrom(line, u)) == Elements(line) - {u}
  {
    var j :| 0 <= j < |line| && line[j] == u && RemoveFrom(line, u) == line[..j] + line[j + 1..];
    assert i == j;
    forall v ensures v in line[..i] + line[i + 1..] <==> v in line && v != u { WithoutIndex(line, i, v); }
  }

  lemma LeaveKeepsTheLine(q: SortedSet, line: seq<UserId>, u: UserId)
    requires Represents(q.scores, line)
    ensures Represents(Without(q, u).scores, RemoveFrom(line, u))
  {
    if u !in line {
      assert u !in Elements(line);
      assert q.scores - {u} == q.scores;
    } else {
      var i :| 0 <= i < |line| && line[i] == u;
      RemovedFrom(line, u, i);
      ShorterIsOrdered(q.scores, line, i, RemoveFrom(line, u));
    }
  }

  lemma ShorterIsOrdered(scores: map<UserId, int>, line: seq<UserId>, i: nat, shorter: seq<UserId>)
    requires Represents(scores, line) && i < |line| && |shorter| == |line| - 1
    requires Elements(shorter) == Elements(line) - {line[i]}
    requires forall k | 0 <= k < |shorter| :: shorter[k] == line[if k < i then k else k + 1]
    ensures Represents(scores - {line[i]}, shorter)
  {
    var after := scores - {line[i]};
    forall k, m | 0 <= k < m < |shorter| ensures shorter[k] != shorter[m] && Before(after, shorter[k], shorter[m]) {
      assert shorter[k] in Elements(shorter) && shorter[m] in Elements(shorter);
      assert Before(scores, line[if k < i then k else k + 1], line[if m < i then m else m + 1]);
    }
  }

  // ---- runs -------------------------------------------------------------------------------

  datatype Op = Join(u: UserId) | Leave(u: UserId) | Consume(u: UserId) | Pass(to: int)

  /** The queue, its clock, the line it stands for, when the last newcomer joined, and what has happened
      so far. */
  datatype State = State(q: SortedSet, now: int, line: seq<UserId>, lastJoin: int,
                         joined: nat, consumed: nat, left: nat, expired: nat)

  ghost predicate Can(s: State, op: Op) {
    op.Pass? ==> s.now <= op.to
  }

  /** A newcomer's clock reading is later than the join times of all who wait. */
  ghost predicate Strict(s: State, op: Op) {
    op.Join? && op.u !in s.q.scores ==> forall v | v in s.q.scores :: s.q.scores[v] < s.now
  }

  /** The sorted set changes as the service changes it; the line as a plain queue would. */
  ghost function Do(s: State, op: Op): State {
    match op
    case Join(u) =>
      s.(q := Joined(s.q, u, s.now),
         line := if u in s.line then s.line else s.line + [u],
         lastJoin := if u in s.line then s.lastJoin else s.now,
         joined := s.joined + if u in s.line then 0 else 1)
    case Leave(u) =>
      s.(q := Without(s.q, u), line := RemoveFrom(s.line, u), left := s.left + if u in s.line then 1 else 0)
    case Consume(u) =>
      var head := s.line != [] && s.line[0] == u;
      s.(q := if Rank(s.q.scores, u) == Some(0) then Without(s.q, u) else s.q,
         line := if head then s.line[1..] else s.line,
         consumed := s.consumed + if head then 1 else 0)
    case Pass(to) =>
      var q := Expired(s.q, to);
      var gone := q.scores == map[] && s.q.scores != map[];
      s.(q := q, now := to, line := if gone then [] else s.line, expired := s.expired + if gone then |s.line| else 0)
  }

  ghost predicate Inv(s: State) {
    && Represents(s.q.scores, s.line)
    && s.joined == s.consumed + s.left + s.expired + |s.line|
    && (forall u | u in s.q.scores :: s.q.scores[u] <= s.lastJoin)
    && (s.q.scores != map[] ==>
          s.q.expiresAt == s.lastJoin + 3_600_000_000 && s.lastJoin <= s.now < s.lastJoin + 3_600_000_000)
  }

  lemma EmptyLineIsConsistent(now: int)
    ensures Inv(State(SortedSet(map[], now), now, [], now, 0, 0, 0, 0))
  {
    assert Elements<UserId>([]) == {};
  }

  lemma HeadIsRankZero(scores: map<UserId, int>, line: seq<UserId>, u: UserId)
    requires Represents(scores, line)
    ensures u in line <==> u in scores
    ensures Rank(scores, u) == Some(0) <==> line != [] && line[0] == u
  {
    assert u in line <==> u in Elements(line);
    if u in line {
      var i :| 0 <= i < |line| && line[i] == u;
      PositionIsIndex(scores, line, i);
    }
  }

  lemma RemoveFromLength(line: seq<UserId>, u: UserId)
    ensures |RemoveFrom(line, u)| == |line| - if u in line then 1 else 0
  {
  }

  lemma StepRefinesFifo(s: State, op: Op)
    requires Inv(s) && Can(s, op) && Strict(s, op)
    ensures Inv(Do(s, op))
  {
    match op
    case Join(u) =>
      HeadIsRankZero(s.q.scores, s.line, u);
      if u !in s.line { JoinGoesLastExactly(s.q, s.line, u, s.now); }
    case Leave(u) =>
      LeaveKeepsTheLine(s.q, s.line, u);
      RemoveFromLength(s.line, u);
    case Consume(u) =>
      HeadIsRankZero(s.q.scores, s.line, u);
      if Rank(s.q.scores, u) == Some(0) {
        LeaveKeepsTheLine(s.q, s.line, u);
        RemoveHead(s.line);
      }
    case Pass(to) =>
      assert s.line != [] ==> s.line[0] in Elements(s.line);
      assert Elements<UserId>([]) == {};
  }

  lemma RemoveHead(line: seq<UserId>)
    requires line != [] && NoDuplicates(line)
    ensures RemoveFrom(line, line[0]) == line[1..]
  {
    var i :| 0 <= i < |line| && line[i] == line[0] && RemoveFrom(line, line[0]) == line[..i] + line[i + 1..];
    assert i == 0;
  }

  ghost predicate Possible(s: State, ops: seq<Op>)
    decreases |ops|
  {
    ops == [] || (Can(s, ops[0]) && Strict(s, ops[0]) && Possible(Do(s, ops[0]), ops[1..]))
  }

  ghost function After(s: State, ops: seq<Op>): State
    decreases |ops|
  {
    if ops == [] then s else After(Do(s, ops[0]), ops[1..])
  }

  /** Over every run with strictly increasing join times the service refines a first-in-first-out line:
      the sorted set represents the line, and whoever joined was consumed, left, expired, or waits. */
  lemma {:induction false} RunRefinesFifo(s: State, ops: seq<Op>)
    requires Inv(s) && Possible(s, ops)
    ensures Inv(After(s, ops))
    decreases |ops|
  {
    if ops == [] {
    } else {
      StepRefinesFifo(s, ops[0]);
      RunRefinesFifo(Do(s, ops[0]), ops[1..]);
    }
  }

  /** The whole line goes at once, exactly when an hour has passed since the last newcomer joined. */
  lemma LineLastsAnHourExactly(s: State, to: int)
    requires Inv(s) && Can(s, Pass(to))
    ensures var after := Do(s, Pass(to));
            && after.line == (if to < s.lastJoin + 3_600_000_000 then s.line else [])
            && after.q.scores == (if to < s.lastJoin + 3_600_000_000 then s.q.scores else map[])
            && after.expired == s.expired + |s.line| - |after.line|
  {
    forall u ensures u in s.line <==> u in s.q.scores { HeadIsRankZero(s.q.scores, s.line, u); }
    assert s.line != [] ==> s.line[0] in s.line;
    assert s.q.scores == map[] ==> s.line == [];
    assert s.line == [] ==> s.q.scores.Keys == {} by { assert Elements<UserId>([]) == {}; }
  }

  /** Nobody is dropped by expiry before an hour has passed since their own join. */
  lemma NobodyExpiresEarly(s: State, to: int, u: UserId)
    requires Inv(s) && Can(s, Pass(to)) && u in s.q.scores && to < s.q.scores[u] + 3_600_000_000
    ensures u in Do(s, Pass(to)).q.scores && u in Do(s, Pass(to)).line
  {
    HeadIsRankZero(s.q.scores, s.line, u);
  }

  ghost predicate AheadOf(line: seq<UserId>, a: UserId, b: UserId) {
    exists i, j :: 0 <= i < j < |line| && line[i] == a && line[j] == b
  }

  lemma RemovalKeepsOrder(line: seq<UserId>, u: UserId, a: UserId, b: UserId)
    requires AheadOf(RemoveFrom(line, u), a, b)
    ensures AheadOf(line, a, b)
  {
    var shorter := RemoveFrom(line, u);
    var i, j :| 0 <= i < j < |shorter| && shorter[i] == a && shorter[j] == b;
    if u in line {
      var k :| 0 <= k < |line| && line[k] == u && shorter == line[..k] + line[k + 1..];
      assert line[if i < k then i else i + 1] == a && line[if j < k then j else j + 1] == b;
    }
  }

  lemma StepLetsNobodyOvertake(s: State, op: Op, a: UserId, b: UserId)
    requires Inv(s) && Can(s, op) && Strict(s, op)
    requires b in s.line && AheadOf(Do(s, op).line, a, b)
    ensures AheadOf(s.line, a, b)
  {
    match op
    case Join(u) =>
      if u !in s.line {
        var longer := s.line + [u];
        var i, j :| 0 <= i < j < |longer| && longer[i] == a && longer[j] == b;
        assert j < |s.line|;
        assert s.line[i] == a && s.line[j] == b;
      }
    case Leave(u) => RemovalKeepsOrder(s.line, u, a, b);
    case Consume(u) =>
      if s.line != [] && s.line[0] == u {
        RemoveHead(s.line);
        RemovalKeepsOrder(s.line, u, a, b);
      }
    case Pass(to) =>
  }

  ghost predicate WaitsThroughout(s: State, ops: seq<Op>, b: UserId)
    decreases |ops|
  {
    b in s.line && (ops == [] || WaitsThroughout(Do(s, ops[0]), ops[1..], b))
  }

  /** No one overtakes: whoever is ahead of `b` after a run through which `b` waited was ahead of `b`
      when it began, whatever the others did, leaving and rejoining included. */
  lemma {:induction false} NobodyOvertakes(s: State, ops: seq<Op>, a: UserId, b: UserId)
    requires Inv(s) && Possible(s, ops) && WaitsThroughout(s, ops, b)
    requires AheadOf(After(s, ops).line, a, b)
    ensures AheadOf(s.line, a, b)
    decreases |ops|
  {
    if ops == [] {
    } else {
      StepRefinesFifo(s, ops[0]);
      NobodyOvertakes(Do(s, ops[0]), ops[1..], a, b);
      StepLetsNobodyOvertake(s, ops[0], a, b);
    }
  }
}
