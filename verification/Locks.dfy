/** The leased lock of one Redis node: SET NX PX with retries and backoff, and compare-and-delete. */
module Locks {
  import opened Wrappers

  type Key = nat

  const BACKOFF_CAP_MS: int := 1000
  const LOCK_TTL_MS: int := 10_000
  const RETRY_DELAY_MS: int := 100

  datatype Entry = Entry(value: nat, until: int)

  /** What the other clients leave in Redis, none of whom has guessed our value. */
  function Foreign(left: map<Key, Entry>, ours: nat): map<Key, Entry> {
    map k | k in left && left[k].value != ours :: left[k]
  }

  predicate LiveIn(keys: map<Key, Entry>, key: Key, now: int) {
    key in keys && now < keys[key].until
  }

  /** Attempt `i` of an acquisition that starts at `start` over `keys` finds the key live: the first
      attempt in what was there, a later one in what the others left during the wait before it. */
  predicate Busy(keys: map<Key, Entry>, start: int, key: Key, delayMs: int, uuid: nat, others: int -> map<Key, Entry>,
                 i: nat)
  {
    if i == 0 then LiveIn(keys, key, start) else LiveIn(Foreign(others(i - 1), uuid), key, start + Backoff(delayMs, i))
  }

  /** The Redis keys used as locks, and Redis's clock in milliseconds. */
  class LockStore {
    var keys: map<Key, Entry>
    var now: int

    predicate Live(key: Key)
      reads this
    {
      LiveIn(keys, key, now)
    }

    /** Our own value is stored nowhere but possibly under `key`, and there live. */
    ghost predicate OnlyAt(value: nat, key: Key)
      reads this
    {
      forall k | k in keys && keys[k].value == value :: k == key
    }

    method SetIfAbsent(key: Key, value: nat, ttlMs: int) returns (stored: bool)
      modifies this`keys
      ensures stored == !(key in old(keys) && now < old(keys)[key].until)
      ensures keys == if stored then old(keys)[key := Entry(value, now + ttlMs)] else old(keys)
    {
      stored := !Live(key);
      if stored { keys := keys[key := Entry(value, now + ttlMs)]; }
    }

    /** The release script: delete the key only if it is live and still holds `value`. */
    method CompareAndDelete(key: Key, value: nat) returns (deleted: bool)
      modifies this`keys
      ensures deleted == (key in old(keys) && now < old(keys)[key].until && old(keys)[key].value == value)
      ensures keys == if deleted then old(keys) - {key} else old(keys)
    {
      deleted := Live(key) && keys[key].value == value;
      if deleted { keys := keys - {key}; }
    }

    /** Time passes while we hold nothing and the other clients leave Redis as they please. */
    method Sleep(ms: int, ours: nat, left: map<Key, Entry>)
      requires ms >= 0
      modifies this
      ensures now == old(now) + ms && keys == Foreign(left, ours)
    {
      now := now + ms;
      keys := Foreign(left, ours);
    }

    /** Time passes while `key` is ours: until it expires nobody else can set or delete it. */
    method Hold(ms: int, ours: nat, key: Key, left: map<Key, Entry>)
      requires ms >= 0 && key in keys && keys[key].value == ours
      modifies this
      ensures now == old(now) + ms
      ensures keys == if now < old(keys)[key].until then Foreign(left, ours)[key := old(keys)[key]]
          else Foreign(left, ours)
    {
      now := now + ms;
      keys := if now < keys[key].until then Foreign(left, ours)[key := keys[key]] else Foreign(left, ours);
    }
  }

  /** The wait after failed attempt `i`: the initial delay doubles, up to the cap. */
  function Delay(initial: int, i: nat): int {
    if i == 0 then initial else Min(Delay(initial, i - 1) * 2, BACKOFF_CAP_MS)
  }

  /** The time slept over the first `waits` waits. */
  function Backoff(initial: int, waits: nat): int {
    if waits == 0 then 0 else Backoff(initial, waits - 1) + Delay(initial, waits - 1)
  }

  class RedisLock {
    const r: LockStore
    const key: Key
    const ttlMs: int
    var lockValue: Option<nat>

    constructor (r: LockStore, key: Key, ttlMs: int)
      ensures this.r == r && this.key == key && this.ttlMs == ttlMs && lockValue == None
    {
      this.r, this.key, this.ttlMs, lockValue := r, key, ttlMs, None;
    }

    /** `uuid` is the UUID this acquisition uses; `others(i)` is what other clients leave in Redis
        during the wait after attempt `i`. On success the lock is ours, live for the whole
        time to live from this moment; on failure nothing of ours is stored. It succeeds exactly if some
        attempt finds the key free, and `failures` counts the attempts before the first that does. The
        time slept is exactly the backoff of the failed attempts before the last one. */
    method Acquire(retry: int, retryDelayMs: int, uuid: nat, others: int -> map<Key, Entry>)
      returns (ok: bool, ghost failures: nat)
      requires retryDelayMs >= 0 && forall k | k in r.keys :: r.keys[k].value != uuid
      modifies this, r
      ensures lockValue == Some(uuid)
      ensures ok ==> r.OnlyAt(uuid, key) && key in r.keys && r.keys[key] == Entry(uuid, r.now + ttlMs)
      ensures !ok ==> forall k | k in r.keys :: r.keys[k].value != uuid
      ensures if ok then failures < retry else failures == Max(retry, 0)
      ensures forall i | 0 <= i < failures :: Busy(old(r.keys), old(r.now), key, retryDelayMs, uuid, others, i)
      ensures ok ==> !Busy(old(r.keys), old(r.now), key, retryDelayMs, uuid, others, failures)
      ensures r.now - old(r.now) == Backoff(retryDelayMs, if ok || retry <= 0 then failures else failures - 1)
      ensures retry > 0 && retryDelayMs <= BACKOFF_CAP_MS ==> r.now - old(r.now) <= BACKOFF_CAP_MS * (retry - 1)
    {
      lockValue := Some(uuid);
      var currentDelayMs := retryDelayMs;
      var attempt: nat := 0;
      ghost var start := r.now;
      while attempt < retry
        invariant attempt <= Max(retry, 0) && currentDelayMs >= 0
        invariant lockValue == Some(uuid) && forall k | k in r.keys :: r.keys[k].value != uuid
        invariant attempt < retry ==> currentDelayMs == Delay(retryDelayMs, attempt)
        invariant forall i | 0 <= i < attempt :: Busy(old(r.keys), start, key, retryDelayMs, uuid, others, i)
        invariant attempt < retry ==> r.Live(key) == Busy(old(r.keys), start, key, retryDelayMs, uuid, others, attempt)
        invariant r.now - start == Backoff(retryDelayMs, if attempt < retry || retry <= 0 then attempt else attempt - 1)
      {
        var result := r.SetIfAbsent(key, uuid, ttlMs);
        if result {
          if attempt > 0 { BackoffIsBoundedExactly(retryDelayMs, attempt); }
          return true, attempt;
        }
        if attempt < retry - 1 {
          r.Sleep(currentDelayMs, uuid, others(attempt));
          currentDelayMs := Min(currentDelayMs * 2, BACKOFF_CAP_MS);
        }
        attempt := attempt + 1;
      }
      if attempt > 1 { BackoffIsBoundedExactly(retryDelayMs, attempt - 1); }
      return false, attempt;
    }

    /** A release deletes the key exactly when it is live and still ours; an owner whose lease ran out
        leaves its successor's entry, and every other key, alone. */
    method Release() returns (released: bool)
      modifies this, r`keys
      ensures lockValue == None
      ensures released == old(lockValue.Some? && r.Live(key) && r.keys[key].value == lockValue.value)
      ensures r.keys == if released then old(r.keys) - {key} else old(r.keys)
    {
      if lockValue.None? { return false; }
      released := r.CompareAndDelete(key, lockValue.value);
      lockValue := None;
    }
  }

  /** The block guarded by the lock: how long it runs, whether it raises, what the others do meanwhile. */
  datatype Body = Body(ms: nat, raises: bool, left: map<Key, Entry>)

  datatype Outcome = NotAcquired | Returned | Raised

  /** The context manager. The block runs unless every attempt finds the key live. However it ends, and
      whether or not it outlived its ten-second lease, no live key of ours is left behind, and nothing of
      anybody else's is touched on the way out: a successor's key stays if the block took ten seconds. */
  method ReservationLock(r: LockStore, key: Key, retry: int, uuid: nat, others: int -> map<Key, Entry>, body: Body)
    returns (outcome: Outcome)
    requires forall k | k in r.keys :: r.keys[k].value != uuid
    modifies r
    ensures outcome == NotAcquired <==>
            forall i | 0 <= i < retry :: Busy(old(r.keys), old(r.now), key, 100, uuid, others, i)
    ensures outcome == NotAcquired && retry == 3 ==> r.now == old(r.now) + 100 + 200
    ensures outcome != NotAcquired ==> outcome == (if body.raises then Raised else Returned)
    ensures forall k | r.Live(k) :: r.keys[k].value != uuid
    ensures outcome != NotAcquired ==>
              forall k | k in Foreign(body.left, uuid) && k != key :: k in r.keys && r.keys[k] == body.left[k]
    ensures outcome != NotAcquired ==>
              r.keys == if body.ms >= 10_000 then Foreign(body.left, uuid) else Foreign(body.left, uuid) - {key}
  {
    var lock := new RedisLock(r, key, LOCK_TTL_MS);
    var acquired, _ := lock.Acquire(retry, RETRY_DELAY_MS, uuid, others);
    if !acquired {
      assert retry == 3 ==> Backoff(100, 2) == Backoff(100, 1) + Delay(100, 1) && Backoff(100, 1) == Delay(100, 0);
      return NotAcquired;
    }
    r.Hold(body.ms, uuid, key, body.left);
    outcome := if body.raises then Raised else Returned;
    var _ := lock.Release();
  }

  function TwoToThe(i: nat): nat {
    if i == 0 then 1 else 2 * TwoToThe(i - 1)
  }

  /** Closed form: a wait doubles with every failed attempt, and only the first may exceed a second. */
  lemma {:induction false} WaitsDouble(initial: int, i: nat)
    requires initial >= 0
    ensures Delay(initial, i) == if i == 0 then initial else Min(initial * TwoToThe(i), 1000)
  {
    if i > 1 {
      WaitsDouble(initial, i - 1);
      assert initial * TwoToThe(i) == initial * TwoToThe(i - 1) * 2;
    } else if i == 1 {
      assert TwoToThe(1) == 2;
    }
  }

  lemma {:induction false} DelayIsCapped(initial: int, i: nat)
    requires initial >= 0
    ensures Delay(initial, i) >= 0
    ensures i > 0 || initial <= BACKOFF_CAP_MS ==> Delay(initial, i) <= BACKOFF_CAP_MS
    ensures initial > BACKOFF_CAP_MS && i > 0 ==> Delay(initial, i) == BACKOFF_CAP_MS
  {
    if i > 0 { DelayIsCapped(initial, i - 1); }
  }

  /** Waiting is bounded by one second per wait exactly when the initial delay is at most a second: the
      cap applies only from the second wait on. */
  lemma {:induction false} BackoffIsBoundedExactly(initial: int, waits: nat)
    requires initial >= 0 && waits > 0
    ensures Backoff(initial, waits) <= BACKOFF_CAP_MS * waits <==> initial <= BACKOFF_CAP_MS
    ensures initial > BACKOFF_CAP_MS ==> Backoff(initial, waits) == initial + BACKOFF_CAP_MS * (waits - 1)
  {
    DelayIsCapped(initial, waits - 1);
    if waits > 1 { BackoffIsBoundedExactly(initial, waits - 1); }
  }
}
