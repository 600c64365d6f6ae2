/** The pre-scaling check: raise the autoscaler's minimum before an event opens, restore it after. */
module PreScaler {
  import opened Wrappers

  type EventId = nat

  const MINUTE: int := 60_000_000
  const WINDOW: int := 15 * MINUTE
  const LEAD: int := 5 * MINUTE
  const RESTORE_AFTER: int := 10 * MINUTE
  const DEFAULT_MIN_REPLICAS: int := 2
  const REPLICA_CEILING: int := 30

  /** The tracking table (event to opening time), the autoscaler's minReplicas, and the events whose
      scale-up patch succeeded, in order. */
  datatype Scaler = Scaler(tracked: map<EventId, int>, minReplicas: int, prescaled: seq<EventId>)

  /** One check: the clock, the plan and the patch outcomes it meets. */
  datatype Check = Check(now: int, plan: EventId -> int, raised: EventId -> bool, restored: EventId -> bool)

  /** Events opening five to fifteen minutes from now. */
  function Upcoming(events: map<EventId, int>, now: int): set<EventId> {
    set e | e in events && now + LEAD <= events[e] <= now + WINDOW
  }

  function Late(tracked: map<EventId, int>, now: int): set<EventId> {
    set e | e in tracked && now >= tracked[e] + RESTORE_AFTER
  }

  function RaiseOne(s: Scaler, events: map<EventId, int>, e: EventId, check: Check): Scaler
    requires e in events
  {
    if e in s.tracked || !check.raised(e) then s
    else Scaler(s.tracked[e := events[e]], Min(check.plan(e), REPLICA_CEILING), s.prescaled + [e])
  }

  function RaiseAll(s: Scaler, events: map<EventId, int>, order: seq<EventId>, check: Check): Scaler
    requires forall e | e in order :: e in events
  {
    if order == [] then s else
      RaiseOne(RaiseAll(s, events, order[..|order| - 1], check), events, order[|order| - 1], check)
  }

  function RestoreOne(s: Scaler, e: EventId, check: Check): Scaler {
    Scaler(s.tracked - {e}, if check.restored(e) then DEFAULT_MIN_REPLICAS else s.minReplicas, s.prescaled)
  }

  function RestoreAll(s: Scaler, order: seq<EventId>, check: Check): Scaler {
    if order == [] then s else RestoreOne(RestoreAll(s, order[..|order| - 1], check), order[|order| - 1], check)
  }

  class ScalingService {
    var tracked: map<EventId, int>
    var minReplicas: int
    ghost var prescaled: seq<EventId>

    ghost function View(): Scaler
      reads this
    {
      Scaler(tracked, minReplicas, prescaled)
    }

    constructor ()
      ensures View() == Scaler(map[], DEFAULT_MIN_REPLICAS, [])
    {
      tracked, minReplicas, prescaled := map[], DEFAULT_MIN_REPLICAS, [];
    }

    method PatchMinReplicas(replicas: int, succeeds: bool) returns (ok: bool)
      modifies this`minReplicas
      ensures ok == succeeds && minReplicas == if succeeds then replicas else old(minReplicas)
    {
      if succeeds { minReplicas := replicas; }
      return succeeds;
    }

    /** `ups` and `downs` are the orders in which the two loops meet their events. */
    method RunPrescaleCheck(events: map<EventId, int>, check: Check)
      returns (ghost ups: seq<EventId>, ghost downs: seq<EventId>)
      modifies this
      ensures Enumerates(ups, Upcoming(events, check.now))
      ensures forall e | e in ups :: e in events
      ensures var raised := RaiseAll(old(View()), events, ups, check);
              Enumerates(downs, Late(raised.tracked, check.now)) && View() == RestoreAll(raised, downs, check)
    {
      ups := RaiseUpcoming(events, check);
      downs := RestoreLate(check);
    }

    method RaiseUpcoming(events: map<EventId, int>, check: Check) returns (ghost ups: seq<EventId>)
      modifies this
      ensures Enumerates(ups, Upcoming(events, check.now))
      ensures forall e | e in ups :: e in events
      ensures View() == RaiseAll(old(View()), events, ups, check)
    {
      var rest := Upcoming(events, check.now);
      ups := [];
      while rest != {}
        invariant NoDuplicates(ups) && Elements(ups) !! rest && Elements(ups) + rest == Upcoming(events, check.now)
        invariant forall e | e in ups :: e in events
        invariant View() == RaiseAll(old(View()), events, ups, check)
        decreases rest
      {
        var e :| e in rest;
        TakeOne(ups, rest, e);
        assert (ups + [e])[..|ups|] == ups;
        rest, ups := rest - {e}, ups + [e];
        if e !in tracked {
          var recommended := Min(check.plan(e), REPLICA_CEILING);
          var ok := PatchMinReplicas(recommended, check.raised(e));
          if ok {
            tracked := tracked[e := events[e]];
            prescaled := prescaled + [e];
          }
        }
      }
    }

    method RestoreLate(check: Check) returns (ghost downs: seq<EventId>)
      modifies this
      ensures Enumerates(downs, Late(old(tracked), check.now))
      ensures View() == RestoreAll(old(View()), downs, check)
    {
      var toRestore := Late(tracked, check.now);
      ghost var late := toRestore;
      downs := [];
      while toRestore != {}
        invariant NoDuplicates(downs) && Elements(downs) !! toRestore && Elements(downs) + toRestore == late
        invariant View() == RestoreAll(old(View()), downs, check)
        decreases toRestore
      {
        var e :| e in toRestore;
        TakeOne(downs, toRestore, e);
        assert (downs + [e])[..|downs|] == downs;
        toRestore, downs := toRestore - {e}, downs + [e];
        var _ := PatchMinReplicas(DEFAULT_MIN_REPLICAS, check.restored(e));
        tracked := tracked - {e};
      }
    }
  }

  // ---- what a check does ------------------------------------------------------------------

  ghost predicate Checked(s: Scaler, events: map<EventId, int>, check: Check, after: Scaler) {
    exists ups: seq<EventId>, downs: seq<EventId> ::
      && Enumerates(ups, Upcoming(events, check.now)) && (forall e | e in ups :: e in events)
      && Enumerates(downs, Late(RaiseAll(s, events, ups, check).tracked, check.now))
      && after == RestoreAll(RaiseAll(s, events, ups, check), downs, check)
  }

  lemma TheLoops(s: Scaler, events: map<EventId, int>, check: Check, after: Scaler)
    returns (ups: seq<EventId>, downs: seq<EventId>)
    requires Checked(s, events, check, after)
    ensures Enumerates(ups, Upcoming(events, check.now)) && forall e | e in ups :: e in events
    ensures Enumerates(downs, Late(RaiseAll(s, events, ups, check).tracked, check.now))
    ensures after == RestoreAll(RaiseAll(s, events, ups, check), downs, check)
  {
    ups, downs :|
      && Enumerates(ups, Upcoming(events, check.now)) && (forall e | e in ups :: e in events)
      && Enumerates(downs, Late(RaiseAll(s, events, ups, check).tracked, check.now))
      && after == RestoreAll(RaiseAll(s, events, ups, check), downs, check);
  }

  /** What holds between checks at clock `now`: tracked events carry their opening time and are not
      late, and an event raised once is still tracked or already past its restoration. */
  ghost predicate Inv(s: Scaler, events: map<EventId, int>, now: int) {
    && NoDuplicates(s.prescaled)
    && (forall e | e in s.tracked :: e in events && s.tracked[e] == events[e] && now < events[e] + RESTORE_AFTER)
    && (forall e | e in s.prescaled :: e in s.tracked || (e in events && now >= events[e] + RESTORE_AFTER))
  }

  /** The same while a check at clock `now` is raising: late events have not been restored yet. */
  ghost predicate Raising(s: Scaler, events: map<EventId, int>, now: int) {
    && NoDuplicates(s.prescaled)
    && (forall e | e in s.tracked :: e in events && s.tracked[e] == events[e])
    && (forall e | e in s.prescaled :: e in s.tracked || (e in events && now >= events[e] + RESTORE_AFTER))
  }

  lemma {:induction false} RaisingIsKept(s: Scaler, events: map<EventId, int>, order: seq<EventId>, check: Check)
    requires Raising(s, events, check.now)
    requires forall e | e in order :: e in events && e in Upcoming(events, check.now)
    ensures Raising(RaiseAll(s, events, order, check), events, check.now)
    ensures s.tracked.Keys <= RaiseAll(s, events, order, check).tracked.Keys
    decreases |order|
  {
    if order != [] {
      var init, e := order[..|order| - 1], order[|order| - 1];
      RaisingIsKept(s, events, init, check);
      assert e in Upcoming(events, check.now);
    }
  }

  lemma {:induction false} RestoreRemoves(s: Scaler, order: seq<EventId>, check: Check)
    ensures var after := RestoreAll(s, order, check);
            after.tracked == s.tracked - Elements(order) && after.prescaled == s.prescaled
    ensures order != [] && (forall e | e in order :: check.restored(e)) ==>
              RestoreAll(s, order, check).minReplicas == DEFAULT_MIN_REPLICAS
    ensures order == [] ==> RestoreAll(s, order, check) == s
    decreases |order|
  {
    if order == [] {
      assert s.tracked - Elements(order) == s.tracked;
    } else {
      var init, e := order[..|order| - 1], order[|order| - 1];
      RestoreRemoves(s, init, check);
      assert order == init + [e] && Elements(order) == Elements(init) + {e};
      assert s.tracked - Elements(init) - {e} == s.tracked - Elements(order);
      assert e in order;
    }
  }

  /** A check keeps the invariant: no event is raised twice, and afterwards no tracked event is ten or
      more minutes past its opening. */
  lemma CheckKeepsInv(s: Scaler, events: map<EventId, int>, before: int, check: Check, after: Scaler)
    requires Inv(s, events, before) && before <= check.now && Checked(s, events, check, after)
    ensures Inv(after, events, check.now) && s.prescaled <= after.prescaled
  {
    var ups, downs := TheLoops(s, events, check, after);
    assert forall e | e in ups :: e in Elements(ups);
    RaisingIsKept(s, events, ups, check);
    RaiseAppends(s, events, ups, check);
    RestoreRemoves(RaiseAll(s, events, ups, check), downs, check);
  }

  lemma {:induction false} RaiseAppends(s: Scaler, events: map<EventId, int>, order: seq<EventId>, check: Check)
    requires forall e | e in order :: e in events
    ensures s.prescaled <= RaiseAll(s, events, order, check).prescaled
    ensures s.tracked.Keys <= RaiseAll(s, events, order, check).tracked.Keys
    ensures RaiseAll(s, events, order, check).tracked.Keys == s.tracked.Keys ==> RaiseAll(s, events, order, check) == s
    decreases |order|
  {
    if order != [] {
      RaiseAppends(s, events, order[..|order| - 1], check);
    }
  }

  // ---- a check, said of events and minutes ------------------------------------------------

  /** Raised by this check: not tracked yet, opening in five to fifteen minutes, and the patch succeeds. */
  ghost predicate RaisedBy(s: Scaler, events: map<EventId, int>, check: Check, e: EventId) {
    && e !in s.tracked && e in events && check.raised(e)
    && check.now + 5 * 60_000_000 <= events[e] <= check.now + 15 * 60_000_000
  }

  /** Restored by this check: tracked, and ten minutes or more past the opening. */
  ghost predicate RestoredBy(s: Scaler, check: Check, e: EventId) {
    e in s.tracked && s.tracked[e] + 10 * 60_000_000 <= check.now
  }

  lemma {:induction false} RaiseExactly(s: Scaler, events: map<EventId, int>, order: seq<EventId>, check: Check,
                                        e: EventId)
    requires forall o | o in order :: o in events
    ensures var after, isNew := RaiseAll(s, events, order, check), e in order && e !in s.tracked && check.raised(e);
            && (e in after.tracked <==> e in s.tracked || isNew)
            && (e in after.tracked ==> after.tracked[e] == if e in s.tracked then s.tracked[e] else events[e])
            && (e in after.prescaled <==> e in s.prescaled || isNew)
    decreases |order|
  {
    if order != [] {
      RaiseExactly(s, events, order[..|order| - 1], check, e);
      assert order == order[..|order| - 1] + [order[|order| - 1]];
    }
  }

  /** The minimum after raising is the capped plan of some event raised, if any was. */
  lemma {:induction false} RaiseSetsMinimum(s: Scaler, events: map<EventId, int>, order: seq<EventId>, check: Check)
    requires forall o | o in order :: o in events
    ensures var after := RaiseAll(s, events, order, check);
            if forall e | e in order :: e in s.tracked || !check.raised(e) then after.minReplicas == s.minReplicas
            else exists e :: e in order && e !in s.tracked && check.raised(e)
                             && after.minReplicas == Min(check.plan(e), 30)
    decreases |order|
  {
    if order != [] {
      var init, last := order[..|order| - 1], order[|order| - 1];
      RaiseSetsMinimum(s, events, init, check);
      RaiseExactly(s, events, init, check, last);
      assert order == init + [last];
      assert last in order;
    }
  }

  lemma {:induction false} RestoreSetsMinimum(s: Scaler, order: seq<EventId>, check: Check)
    ensures RestoreAll(s, order, check).minReplicas ==
            if exists e :: e in order && check.restored(e) then 2 else s.minReplicas
    decreases |order|
  {
    if order != [] {
      var init, last := order[..|order| - 1], order[|order| - 1];
      RestoreSetsMinimum(s, init, check);
      assert order == init + [last];
      assert last in order;
    }
  }

  /** The tracking table after a check, exactly: what was tracked or has been raised, with its opening time
      as of then, except what has been restored. */
  lemma CheckTracksExactly(s: Scaler, events: map<EventId, int>, check: Check, after: Scaler, e: EventId)
    requires Checked(s, events, check, after)
    ensures e in after.tracked <==> (e in s.tracked || RaisedBy(s, events, check, e)) && !RestoredBy(s, check, e)
    ensures e in after.tracked ==> after.tracked[e] == if e in s.tracked then s.tracked[e] else events[e]
    ensures e in after.prescaled <==> e in s.prescaled || RaisedBy(s, events, check, e)
  {
    var ups, downs := TheLoops(s, events, check, after);
    RaiseExactly(s, events, ups, check, e);
    RestoreRemoves(RaiseAll(s, events, ups, check), downs, check);
    assert e in ups <==> e in Elements(ups);
  }

  /** The minimum after a check, exactly: two if any event was restored with success, whatever else is
      tracked or has just been raised; else the plan of an event raised, at most thirty; else unchanged. */
  lemma CheckSetsMinimumExactly(s: Scaler, events: map<EventId, int>, check: Check, after: Scaler)
    requires Checked(s, events, check, after)
    ensures if exists e :: RestoredBy(s, check, e) && check.restored(e) then after.minReplicas == 2
            else if exists e :: RaisedBy(s, events, check, e)
            then exists e :: RaisedBy(s, events, check, e) && after.minReplicas == Min(check.plan(e), 30)
            else after.minReplicas == s.minReplicas
  {
    var ups, downs := TheLoops(s, events, check, after);
    var raised := RaiseAll(s, events, ups, check);
    RaiseSetsMinimum(s, events, ups, check);
    RestoreSetsMinimum(raised, downs, check);
    forall e ensures e in downs <==> RestoredBy(s, check, e)
    {
      RaiseExactly(s, events, ups, check, e);
      assert e in downs <==> e in Elements(downs);
      assert e in ups <==> e in Elements(ups);
    }
    forall e ensures e in ups && e !in s.tracked && check.raised(e) <==> RaisedBy(s, events, check, e) {
      assert e in ups <==> e in Elements(ups);
    }
  }

  ghost predicate Idle(s: Scaler) {
    s.tracked == map[] ==> s.minReplicas == DEFAULT_MIN_REPLICAS
  }

  /** When the patches succeed, an empty tracking table means the minimum is back at its default. */
  lemma CheckRestoresDefault(s: Scaler, events: map<EventId, int>, before: int, check: Check, after: Scaler)
    requires Inv(s, events, before) && before <= check.now && Checked(s, events, check, after)
    requires Idle(s) && forall e :: check.raised(e) && check.restored(e)
    ensures Idle(after)
  {
    var ups, downs := TheLoops(s, events, check, after);
    var raised := RaiseAll(s, events, ups, check);
    assert forall e | e in ups :: e in Elements(ups);
    RaisingIsKept(s, events, ups, check);
    RaiseAppends(s, events, ups, check);
    RestoreRemoves(raised, downs, check);
    if after.tracked == map[] && downs == [] {
      assert Elements(downs) == {};
      assert raised.tracked == map[] && s.tracked == map[];
    }
  }

  // ---- whole runs -------------------------------------------------------------------------

  /** The states between the checks of a run with fixed opening times and a clock that never goes back. */
  ghost predicate Run(states: seq<Scaler>, events: map<EventId, int>, checks: seq<Check>) {
    && |states| == |checks| + 1
    && states[0] == Scaler(map[], DEFAULT_MIN_REPLICAS, [])
    && (forall i | 0 <= i < |checks| :: Checked(states[i], events, checks[i], states[i + 1]))
    && (forall i, j | 0 <= i <= j < |checks| :: checks[i].now <= checks[j].now)
  }

  /** In every run, after every check: each event has been pre-scaled at most once, no tracked event is
      ten or more minutes past its opening, and if all patches have succeeded an empty tracking table
      means minReplicas is back at 2. */
  lemma {:induction false} RunPrescalesOnce(states: seq<Scaler>, events: map<EventId, int>, checks: seq<Check>, k: nat)
    requires Run(states, events, checks) && 1 <= k <= |checks|
    ensures NoDuplicates(states[k].prescaled)
    ensures forall e | e in states[k].tracked :: e in events && checks[k - 1].now < events[e] + RESTORE_AFTER
    ensures Inv(states[k], events, checks[k - 1].now)
    ensures (forall i, e | 0 <= i < k :: checks[i].raised(e) && checks[i].restored(e)) ==> Idle(states[k])
  {
    var before := if k == 1 then checks[0].now else checks[k - 2].now;
    if k > 1 { RunPrescalesOnce(states, events, checks, k - 1); }
    assert Checked(states[k - 1], events, checks[k - 1], states[k]);
    CheckKeepsInv(states[k - 1], events, before, checks[k - 1], states[k]);
    if forall i, e | 0 <= i < k :: checks[i].raised(e) && checks[i].restored(e) {
      CheckRestoresDefault(states[k - 1], events, before, checks[k - 1], states[k]);
    }
  }
}
