/** Connections, per-user socket counts and disconnect grace timers of one gateway process. Each handler
    runs to completion before the next; instants are milliseconds. */
module Sockets {
  import opened Wrappers

  type SocketId = nat
  type UserId = nat
  type TimerId = nat

  const DISCONNECT_GRACE_MS: int := 60_000

  datatype Timer = Timer(user: UserId, dueAt: int)

  /** The service's three maps and the runtime's clock and timers. A connection carries the user its
      socket was authenticated as, if any. `releases` lists the users whose holds were released. */
  datatype Gateway = Gateway(connections: map<SocketId, Option<UserId>>, counts: map<UserId, nat>,
                             pending: map<UserId, TimerId>, timers: map<TimerId, Timer>, nextTimer: TimerId,
                             now: int, releases: seq<UserId>)

  const EMPTY := Gateway(map[], map[], map[], map[], 0, 0, [])

  datatype Event =
    | Connect(id: SocketId, user: Option<UserId>)
    | Disconnect(id: SocketId)
    | Fire(timer: TimerId)
    | Pass(to: int)

  /** Socket ids are not reused, a socket disconnects once, a timer fires when it is due. */
  predicate Can(g: Gateway, e: Event) {
    match e
    case Connect(id, _) => id !in g.connections
    case Disconnect(id) => id in g.connections
    case Fire(t) => t in g.timers && g.timers[t].dueAt <= g.now
    case Pass(to) => g.now <= to
  }

  function Cancelled(g: Gateway, user: UserId): Gateway {
    if user !in g.pending then g
    else g.(timers := g.timers - {g.pending[user]}, pending := g.pending - {user})
  }

  function Started(g: Gateway, user: UserId): Gateway {
    g.(timers := g.timers[g.nextTimer := Timer(user, g.now + DISCONNECT_GRACE_MS)],
       pending := g.pending[user := g.nextTimer], nextTimer := g.nextTimer + 1)
  }

  function CountOf(g: Gateway, user: UserId): nat {
    if user in g.counts then g.counts[user] else 0
  }

  function Do(g: Gateway, e: Event): Gateway
    requires Can(g, e)
  {
    match e
    case Connect(id, user) =>
      var joined := g.(connections := g.connections[id := user]);
      if user.None? then joined
      else Cancelled(joined.(counts := g.counts[user.value := CountOf(g, user.value) + 1]), user.value)
    case Disconnect(id) =>
      var left := g.(connections := g.connections - {id});
      var user := g.connections[id];
      if user.None? then left
      else if CountOf(g, user.value) <= 1 then Started(left.(counts := g.counts - {user.value}), user.value)
      else left.(counts := g.counts[user.value := CountOf(g, user.value) - 1])
    case Fire(t) =>
      var user := g.timers[t].user;
      g.(timers := g.timers - {t}, pending := g.pending - {user}, releases := g.releases + [user])
    case Pass(to) => g.(now := to)
  }

  class SocketService {
    var connections: map<SocketId, Option<UserId>>
    var userSocketCount: map<UserId, nat>
    var pendingReleases: map<UserId, TimerId>
    var timers: map<TimerId, Timer>
    var nextTimer: TimerId
    var now: int
    var releases: seq<UserId>

    ghost function View(): Gateway
      reads this
    {
      Gateway(connections, userSocketCount, pendingReleases, timers, nextTimer, now, releases)
    }

    constructor ()
      ensures View() == EMPTY
    {
      connections, userSocketCount, pendingReleases, timers := map[], map[], map[], map[];
      nextTimer, now, releases := 0, 0, [];
    }

    method SetTimeout(user: UserId, delayMs: int) returns (timer: TimerId)
      modifies this
      ensures timer == old(nextTimer)
      ensures View() == old(View()).(timers := old(timers)[timer := Timer(user, now + delayMs)], nextTimer := timer + 1)
    {
      timer := nextTimer;
      timers := timers[timer := Timer(user, now + delayMs)];
      nextTimer := nextTimer + 1;
    }

    method HandleConnection(id: SocketId, user: Option<UserId>)
      requires Can(View(), Connect(id, user))
      modifies this
      ensures View() == Do(old(View()), Connect(id, user))
    {
      connections := connections[id := user];
      if user.Some? {
        var u := user.value;
        var prev := if u in userSocketCount then userSocketCount[u] else 0;
        userSocketCount := userSocketCount[u := prev + 1];
        if u in pendingReleases {
          timers := timers - {pendingReleases[u]};
          pendingReleases := pendingReleases - {u};
        }
      }
    }

    method HandleDisconnection(id: SocketId)
      requires Can(View(), Disconnect(id))
      modifies this
      ensures View() == Do(old(View()), Disconnect(id))
    {
      var user := connections[id];
      connections := connections - {id};
      if user.None? { return; }
      var u := user.value;
      var remaining := (if u in userSocketCount && userSocketCount[u] != 0 then userSocketCount[u] else 1) - 1;
      if remaining <= 0 {
        userSocketCount := userSocketCount - {u};
        var timer := SetTimeout(u, DISCONNECT_GRACE_MS);
        pendingReleases := pendingReleases[u := timer];
      } else {
        userSocketCount := userSocketCount[u := remaining];
      }
    }

    /** The runtime fires a due timer, whose callback is _releaseUserHolds. */
    method OnTimer(timer: TimerId)
      requires Can(View(), Fire(timer))
      modifies this
      ensures View() == Do(old(View()), Fire(timer))
    {
      var user := timers[timer].user;
      timers := timers - {timer};
      pendingReleases := pendingReleases - {user};
      releases := releases + [user];
    }
  }

  // ---- invariants -------------------------------------------------------------------------

  ghost function SocketsOf(connections: map<SocketId, Option<UserId>>, user: UserId): set<SocketId> {
    set id | id in connections && connections[id] == Some(user)
  }

  ghost predicate Connected(g: Gateway, user: UserId) {
    SocketsOf(g.connections, user) != {}
  }

  ghost predicate CountOk(g: Gateway, user: UserId) {
    CountOf(g, user) == |SocketsOf(g.connections, user)| && (user in g.counts <==> Connected(g, user))
  }

  /** The user count is the number of live sockets, with an entry exactly for connected users. */
  ghost predicate CountsOk(g: Gateway) {
    forall user :: CountOk(g, user)
  }

  /** Outstanding timers are exactly the entries of pendingReleases. */
  ghost predicate TimersOk(g: Gateway) {
    && (forall user | user in g.pending :: g.pending[user] in g.timers && g.timers[g.pending[user]].user == user)
    && (forall t | t in g.timers ::
          t < g.nextTimer && g.timers[t].user in g.pending && g.pending[g.timers[t].user] == t)
  }

  /** No timer is outstanding for a connected user. */
  ghost predicate PendingAreGone(g: Gateway) {
    forall user | user in g.pending :: user !in g.counts
  }

  ghost predicate Inv(g: Gateway) {
    CountsOk(g) && TimersOk(g) && PendingAreGone(g)
  }

  lemma AddSocket(connections: map<SocketId, Option<UserId>>, id: SocketId, user: Option<UserId>, other: UserId)
    requires id !in connections
    ensures SocketsOf(connections[id := user], other)
        == SocketsOf(connections, other) + (if user == Some(other) then {id} else {})
    ensures |SocketsOf(connections[id := user], other)|
        == |SocketsOf(connections, other)| + (if user == Some(other) then 1 else 0)
  {
    assert SocketsOf(connections[id := user], other)
        == SocketsOf(connections, other) + (if user == Some(other) then {id} else {});
    assert id !in SocketsOf(connections, other);
  }

  lemma DropSocket(connections: map<SocketId, Option<UserId>>, id: SocketId, other: UserId)
    requires id in connections
    ensures SocketsOf(connections - {id}, other) == SocketsOf(connections, other) - {id}
    ensures |SocketsOf(connections - {id}, other)|
        == |SocketsOf(connections, other)| - (if connections[id] == Some(other) then 1 else 0)
  {
    assert SocketsOf(connections - {id}, other) == SocketsOf(connections, other) - {id};
    assert id in SocketsOf(connections, other) <==> connections[id] == Some(other);
  }

  lemma ConnectKeepsCount(g: Gateway, id: SocketId, u: Option<UserId>, user: UserId)
    requires CountOk(g, user) && Can(g, Connect(id, u))
    ensures CountOk(Do(g, Connect(id, u)), user)
  {
    AddSocket(g.connections, id, u, user);
    var after := Do(g, Connect(id, u));
    assert after.connections == g.connections[id := u];
    if u == Some(user) { assert id in SocketsOf(after.connections, user); }
  }

  lemma DisconnectKeepsCount(g: Gateway, id: SocketId, user: UserId)
    requires CountOk(g, user) && Can(g, Disconnect(id))
    ensures CountOk(Do(g, Disconnect(id)), user)
  {
    DropSocket(g.connections, id, user);
    var after := Do(g, Disconnect(id));
    var rest := SocketsOf(after.connections, user);
    assert after.connections == g.connections - {id};
    assert rest == {} <==> |rest| == 0;
    if g.connections[id] == Some(user) { assert id in SocketsOf(g.connections, user); }
  }

  lemma StepKeepsCounts(g: Gateway, e: Event, user: UserId)
    requires CountsOk(g) && Can(g, e)
    ensures CountOk(Do(g, e), user)
  {
    assert CountOk(g, user);
    if e.Connect? {
      ConnectKeepsCount(g, e.id, e.user, user);
    } else if e.Disconnect? {
      DisconnectKeepsCount(g, e.id, user);
    }
  }

  /** A disconnecting socket's user is counted, and so has no timer that a new one could overwrite. */
  lemma NothingIsOverwritten(g: Gateway, id: SocketId)
    requires Inv(g) && id in g.connections && g.connections[id].Some?
    ensures g.connections[id].value in g.counts && g.connections[id].value !in g.pending
    ensures g.nextTimer !in g.timers
  {
    var user := g.connections[id].value;
    assert CountOk(g, user) && id in SocketsOf(g.connections, user);
  }

  lemma StepKeepsTimers(g: Gateway, e: Event)
    requires Inv(g) && Can(g, e)
    ensures TimersOk(Do(g, e)) && PendingAreGone(Do(g, e))
  {
    if e.Disconnect? && g.connections[e.id].Some? { NothingIsOverwritten(g, e.id); }
  }

  lemma StepKeepsInv(g: Gateway, e: Event)
    requires Inv(g) && Can(g, e)
    ensures Inv(Do(g, e))
  {
    forall user ensures CountOk(Do(g, e), user) { StepKeepsCounts(g, e, user); }
    StepKeepsTimers(g, e);
  }

  /** A timer is either an old one or has just been started, for the full grace period. */
  lemma TimerIsOldOrNew(g: Gateway, e: Event, t: TimerId)
    requires Inv(g) && Can(g, e) && t in Do(g, e).timers
    ensures (t in g.timers && g.timers[t] == Do(g, e).timers[t])
        || Do(g, e).timers[t].dueAt == Do(g, e).now + DISCONNECT_GRACE_MS
  {
  }

  /** When the user's pending release is due, if one is pending. */
  ghost function DueOf(g: Gateway, user: UserId): Option<int> {
    if user in g.pending && g.pending[user] in g.timers then Some(g.timers[g.pending[user]].dueAt) else None
  }

  /** A user's pending release, event by event: it is started, for a minute, exactly when the user's last
      socket goes, and it is dropped exactly when the user comes back or is released. */
  lemma PendingMovesExactly(g: Gateway, e: Event, user: UserId)
    requires Inv(g) && Can(g, e)
    ensures DueOf(Do(g, e), user) ==
            match e
            case Connect(_, u) => if u == Some(user) then None else DueOf(g, user)
            case Disconnect(id) =>
              if SocketsOf(g.connections, user) == {id} then Some(g.now + 60_000) else DueOf(g, user)
            case Fire(t) => if g.timers[t].user == user then None else DueOf(g, user)
            case Pass(_) => DueOf(g, user)
    ensures Do(g, e).releases == g.releases + if e.Fire? then [g.timers[e.timer].user] else []
  {
    assert CountOk(g, user);
    if e.Disconnect? {
      LastSocketExactly(g, e.id, user);
      if g.connections[e.id].Some? { NothingIsOverwritten(g, e.id); }
    }
  }

  /** A disconnecting socket is its user's last exactly if the count says at most one. */
  lemma LastSocketExactly(g: Gateway, id: SocketId, user: UserId)
    requires Inv(g) && id in g.connections
    ensures SocketsOf(g.connections, user) == {id} <==> g.connections[id] == Some(user) && CountOf(g, user) <= 1
  {
    assert CountOk(g, user);
    var sockets := SocketsOf(g.connections, user);
    assert id in sockets <==> g.connections[id] == Some(user);
    if id in sockets { assert |sockets| == 1 + |sockets - {id}|; }
  }

  // ---- whole runs -------------------------------------------------------------------------

  ghost predicate Run(states: seq<Gateway>, events: seq<Event>) {
    && |states| == |events| + 1 && states[0] == EMPTY
    && forall k | 0 <= k < |events| :: Can(states[k], events[k]) && states[k + 1] == Do(states[k], events[k])
  }

  lemma {:induction false} RunIsConsistent(states: seq<Gateway>, events: seq<Event>, k: nat)
    requires Run(states, events) && k < |states|
    ensures Inv(states[k])
  {
    if k == 0 {
      forall user ensures CountOk(EMPTY, user) { assert SocketsOf(map[], user) == {}; }
    } else {
      RunIsConsistent(states, events, k - 1);
      assert Can(states[k - 1], events[k - 1]) && states[k] == Do(states[k - 1], events[k - 1]);
      StepKeepsInv(states[k - 1], events[k - 1]);
    }
  }

  /** In every reachable state each count is the number of that user's live sockets, and the timers
      outstanding are exactly those pendingReleases knows: none is leaked, none lost. */
  lemma CountsAndTimersAreExact(states: seq<Gateway>, events: seq<Event>, k: nat)
    requires Run(states, events) && k < |states|
    ensures forall user :: CountOf(states[k], user) == |SocketsOf(states[k].connections, user)|
    ensures states[k].timers.Keys == states[k].pending.Values
    ensures forall user | user in states[k].pending ::
              states[k].timers[states[k].pending[user]].user == user && !Connected(states[k], user)
  {
    RunIsConsistent(states, events, k);
    var g := states[k];
    forall user ensures CountOf(g, user) == |SocketsOf(g.connections, user)| { assert CountOk(g, user); }
    forall user | user in g.pending ensures !Connected(g, user) { assert CountOk(g, user); }
  }

  /** From state `i` to state `k` of the run the user has no live socket. */
  ghost predicate QuietFrom(states: seq<Gateway>, i: nat, k: nat, user: UserId)
    requires i <= k < |states|
  {
    forall j | i <= j <= k :: !Connected(states[j], user)
  }

  /** The user of an outstanding timer has been gone since one grace period before the timer is due. */
  lemma {:induction false} TimerUserIsGone(states: seq<Gateway>, events: seq<Event>, k: nat, t: TimerId)
    returns (i: nat)
    requires Run(states, events) && k < |states| && t in states[k].timers
    ensures i <= k && states[i].now + DISCONNECT_GRACE_MS == states[k].timers[t].dueAt
    ensures QuietFrom(states, i, k, states[k].timers[t].user)
  {
    RunIsConsistent(states, events, k);
    CountsAndTimersAreExact(states, events, k);
    var timer := states[k].timers[t];
    assert timer.user in states[k].pending && !Connected(states[k], timer.user);
    if k > 0 {
      RunIsConsistent(states, events, k - 1);
      assert Can(states[k - 1], events[k - 1]) && states[k] == Do(states[k - 1], events[k - 1]);
      TimerIsOldOrNew(states[k - 1], events[k - 1], t);
    }
    if k > 0 && t in states[k - 1].timers && states[k - 1].timers[t] == timer {
      i := TimerUserIsGone(states, events, k - 1, t);
    } else {
      i := k;
    }
  }

  /** A release fires only for a user who has had no live socket, at any moment, for at least the whole
      grace period, and it uses its timer up. */
  lemma ReleaseOnlyAfterGrace(states: seq<Gateway>, events: seq<Event>, k: nat)
    requires Run(states, events) && k < |events| && events[k].Fire? && events[k].timer in states[k].timers
    ensures var user := states[k].timers[events[k].timer].user;
            && states[k + 1].releases == states[k].releases + [user]
            && user !in states[k + 1].pending && events[k].timer !in states[k + 1].timers
            && exists i: nat :: i <= k && states[i].now + DISCONNECT_GRACE_MS <= states[k].now
                  && QuietFrom(states, i, k, user)
  {
    assert Can(states[k], events[k]) && states[k + 1] == Do(states[k], events[k]);
    var i := TimerUserIsGone(states, events, k, events[k].timer);
  }

  /** The `j`th event releases the user. */
  ghost predicate Frees(states: seq<Gateway>, events: seq<Event>, j: nat, user: UserId)
    requires Run(states, events)
  {
    j < |events| && events[j].Fire? && Can(states[j], events[j]) && states[j].timers[events[j].timer].user == user
  }

  /** Since a user's last socket went, after state `i`, and up to state `k`: either the user has been
      released, or a release is pending, due one minute after that moment; and whenever it is due, its timer
      can fire. */
  lemma {:induction false} AbsenceEndsInRelease(states: seq<Gateway>, events: seq<Event>, i: nat, k: nat, user: UserId)
    requires Run(states, events) && i < k < |states|
    requires Connected(states[i], user) && QuietFrom(states, i + 1, k, user)
    ensures DueOf(states[k], user) ==
            if exists j :: i < j < k && Frees(states, events, j, user) then None else Some(states[i].now + 60_000)
    ensures DueOf(states[k], user).Some? && DueOf(states[k], user).value <= states[k].now ==>
              Can(states[k], Fire(states[k].pending[user]))
  {
    RunIsConsistent(states, events, k - 1);
    assert Can(states[k - 1], events[k - 1]) && states[k] == Do(states[k - 1], events[k - 1]);
    PendingMovesExactly(states[k - 1], events[k - 1], user);
    assert !Connected(states[k], user);
    if k == i + 1 {
      LastToGo(states[i], events[i], user);
    } else {
      AbsenceEndsInRelease(states, events, i, k - 1, user);
      assert !Connected(states[k - 1], user);
      NobodyLeavesTwice(states[k - 1], events[k - 1], user);
      assert Frees(states, events, k - 1, user) <==>
             events[k - 1].Fire? && states[k - 1].timers[events[k - 1].timer].user == user;
    }
  }

  lemma LastToGo(g: Gateway, e: Event, user: UserId)
    requires Can(g, e) && Connected(g, user) && !Connected(Do(g, e), user)
    ensures e.Disconnect? && SocketsOf(g.connections, user) == {e.id}
  {
    match e
    case Connect(id, u) => AddSocket(g.connections, id, u, user);
    case Disconnect(id) => DropSocket(g.connections, id, user);
    case Fire(_) =>
    case Pass(_) =>
  }

  lemma NobodyLeavesTwice(g: Gateway, e: Event, user: UserId)
    requires Can(g, e) && !Connected(g, user) && !Connected(Do(g, e), user)
    ensures e.Connect? ==> e.user != Some(user)
    ensures e.Disconnect? ==> SocketsOf(g.connections, user) != {e.id}
  {
    if e.Connect? { AddSocket(g.connections, e.id, e.user, user); }
  }
}
