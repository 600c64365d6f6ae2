/** The replica planner: demand per forecast step, the smoothed scale-down, the merged windows, and the
    recommendation taken from them. Rates are reals; rounding of floating point is not modelled. */
module Planner {
  import opened Wrappers

  const MIN_REPLICAS: int := 2
  const MAX_REPLICAS: int := 50

  datatype ForecastPoint = ForecastPoint(timestamp: int, predicted: real, lower: real, upper: real)

  datatype ScalingWindow = ScalingWindow(from: int, to: int, replicas: int, cpuRequestM: int, memoryRequestMi: int)

  function Ceil(x: real): int {
    -((-x).Floor)
  }

  function RpsToReplicas(rps: real, rpsPerPod: int): int
    requires rpsPerPod > 0
  {
    Max(MIN_REPLICAS, Min(MAX_REPLICAS, Ceil(rps / rpsPerPod as real)))
  }

  /** The least count allowed right after `n`: four fifths, rounded down, and at least one. */
  function Decay(n: int): int {
    Max(1, 4 * n / 5)
  }

  function DecayFor(n: int, steps: nat): int {
    if steps == 0 then n else Decay(DecayFor(n, steps - 1))
  }

  function Smooth(demand: seq<int>): (smoothed: seq<int>)
    ensures |smoothed| == |demand|
  {
    if |demand| <= 1 then demand else
      var before := Smooth(demand[..|demand| - 1]);
      before + [Max(demand[|demand| - 1], Decay(before[|before| - 1]))]
  }

  /** The recurrence, index by index. */
  lemma {:induction false} SmoothAt(demand: seq<int>, i: nat)
    requires i < |demand|
    ensures Smooth(demand)[i] == if i == 0 then demand[0] else Max(demand[i], Decay(Smooth(demand)[i - 1]))
    decreases |demand|
  {
    if i < |demand| - 1 { SmoothAt(demand[..|demand| - 1], i); }
  }

  /** The in-place loop over a copy of the demand. */
  method SmoothScaleDown(demand: seq<int>) returns (smoothed: array<int>)
    ensures fresh(smoothed) && smoothed[..] == Smooth(demand)
  {
    smoothed := new int[|demand|](i requires 0 <= i < |demand| => demand[i]);
    if |demand| > 0 { SmoothAt(demand, 0); }
    var i := 1;
    while i < smoothed.Length
      invariant 1 <= i && (i <= smoothed.Length || smoothed.Length == 0)
      invariant forall k | 0 <= k < i && k < |demand| :: smoothed[k] == Smooth(demand)[k]
      invariant forall k | i <= k < smoothed.Length :: smoothed[k] == demand[k]
    {
      SmoothAt(demand, i);
      var maxDecrease := Max(1, 4 * smoothed[i - 1] / 5);
      smoothed[i] := Max(smoothed[i], maxDecrease);
      i := i + 1;
    }
  }

  // ---- what smoothing means ---------------------------------------------------------------

  /** At least one pod, and less than a whole pod below four fifths of the step before. */
  predicate SmallDrop(before: int, after: int) {
    after >= 1 && 5 * after + 5 > 4 * before
  }

  /** A plan that meets the demand everywhere and has only small drops. */
  ghost predicate Gentle(plan: seq<int>, demand: seq<int>) {
    && |plan| == |demand|
    && (forall i | 0 <= i < |plan| :: plan[i] >= demand[i])
    && (forall i | 0 < i < |plan| :: SmallDrop(plan[i - 1], plan[i]))
  }

  /** Decay gives the least count that is a small drop after `n`. */
  lemma DecayIsLeast(n: int, m: int)
    ensures Decay(n) <= m <==> SmallDrop(n, m)
  {
    var q := 4 * n / 5;
    assert 5 * q <= 4 * n < 5 * q + 5;
  }

  lemma DecayIsMonotone(a: int, b: int)
    requires a <= b
    ensures Decay(a) <= Decay(b)
  {
  }

  lemma {:induction false} SmoothIsBelow(plan: seq<int>, demand: seq<int>, i: nat)
    requires Gentle(plan, demand) && i < |demand|
    ensures Smooth(demand)[i] <= plan[i]
  {
    SmoothAt(demand, i);
    if i > 0 {
      SmoothIsBelow(plan, demand, i - 1);
      DecayIsLeast(plan[i - 1], plan[i]);
      DecayIsMonotone(Smooth(demand)[i - 1], plan[i - 1]);
    }
  }

  /** The smoothed plan is gentle, and it is pointwise the least plan that is. */
  lemma SmoothIsLeastGentlePlan(demand: seq<int>)
    ensures Gentle(Smooth(demand), demand)
    ensures forall plan, i | Gentle(plan, demand) && 0 <= i < |demand| :: Smooth(demand)[i] <= plan[i]
  {
    SmoothIsGentle(demand);
    forall plan, i | Gentle(plan, demand) && 0 <= i < |demand| ensures Smooth(demand)[i] <= plan[i] {
      SmoothIsBelow(plan, demand, i);
    }
  }

  lemma SmoothIsGentle(demand: seq<int>)
    ensures Gentle(Smooth(demand), demand)
  {
    var plan := Smooth(demand);
    forall i | 0 <= i < |demand|
      ensures plan[i] >= demand[i] && (i > 0 ==> SmallDrop(plan[i - 1], plan[i]))
    {
      SmoothAt(demand, i);
      if i > 0 { DecayIsLeast(plan[i - 1], plan[i]); }
    }
  }

  /** Smoothing a smoothed plan changes nothing. */
  lemma SmoothIsIdempotent(demand: seq<int>)
    ensures Smooth(Smooth(demand)) == Smooth(demand)
  {
    var s := Smooth(demand);
    SmoothIsLeastGentlePlan(demand);
    forall i | 0 <= i < |s| ensures Smooth(s)[i] == s[i] {
      SmoothIsBelow(s, s, i);
      SmoothAt(s, i);
    }
  }

  /** The plan is meant to shrink by at most a fifth per step. Rounding down lets it shrink by more; it
      keeps to the fifth exactly when the previous count is 1 or a multiple of five, or demand itself
      shrinks by no more. */
  lemma ShrinksByAFifthExactly(demand: seq<int>, i: nat)
    requires 0 < i < |demand| && demand[0] >= 1
    ensures var before := Smooth(demand)[i - 1];
            5 * Smooth(demand)[i] >= 4 * before <==> before == 1 || before % 5 == 0 || 5 * demand[i] >= 4 * before
  {
    SmoothAt(demand, i);
    SmoothIsPositive(demand, i - 1);
    DecayIsAFifthExactly(Smooth(demand)[i - 1]);
  }

  lemma DecayIsAFifthExactly(n: int)
    requires n >= 1
    ensures 5 * Decay(n) >= 4 * n <==> n == 1 || n % 5 == 0
  {
    var q := 4 * n / 5;
    assert 5 * q <= 4 * n < 5 * q + 5;
  }

  lemma {:induction false} SmoothIsPositive(demand: seq<int>, i: nat)
    requires i < |demand| && demand[0] >= 1
    ensures Smooth(demand)[i] >= 1
  {
    SmoothAt(demand, i);
    if i > 0 { SmoothIsPositive(demand, i - 1); }
  }

  lemma {:induction false} DecayForIsMonotone(a: int, b: int, steps: nat)
    requires a <= b
    ensures DecayFor(a, steps) <= DecayFor(b, steps)
  {
    if steps > 0 {
      DecayForIsMonotone(a, b, steps - 1);
      DecayIsMonotone(DecayFor(a, steps - 1), DecayFor(b, steps - 1));
    }
  }

  /** Closed form: each smoothed count is the largest of the earlier demands, each decayed once for
      every step since. */
  lemma {:induction false} SmoothClosedForm(demand: seq<int>, i: nat)
    requires i < |demand|
    ensures forall j | 0 <= j <= i :: Smooth(demand)[i] >= DecayFor(demand[j], i - j)
    ensures exists j :: 0 <= j <= i && Smooth(demand)[i] == DecayFor(demand[j], i - j)
  {
    SmoothAt(demand, i);
    if i == 0 {
      assert Smooth(demand)[0] == DecayFor(demand[0], 0);
    } else {
      SmoothClosedForm(demand, i - 1);
      forall j | 0 <= j <= i ensures Smooth(demand)[i] >= DecayFor(demand[j], i - j) {
        if j < i { DecayIsMonotone(DecayFor(demand[j], i - 1 - j), Smooth(demand)[i - 1]); }
      }
      if Smooth(demand)[i] == demand[i] {
        assert Smooth(demand)[i] == DecayFor(demand[i], i - i);
      } else {
        var j :| 0 <= j <= i - 1 && Smooth(demand)[i - 1] == DecayFor(demand[j], i - 1 - j);
        assert Smooth(demand)[i] == DecayFor(demand[j], i - j);
      }
    }
  }

  const SETTLING_STEPS: nat := 12

  lemma DecayFromMaximum()
    ensures DecayFor(MAX_REPLICAS, SETTLING_STEPS) == MIN_REPLICAS
    ensures DecayFor(MAX_REPLICAS, SETTLING_STEPS - 1) == 3
  {
    assert DecayFor(50, 3) == Decay(DecayFor(50, 2)) == Decay(Decay(DecayFor(50, 1))) == 25;
    assert DecayFor(50, 6) == Decay(DecayFor(50, 5)) == Decay(Decay(DecayFor(50, 4))) == 12;
    assert DecayFor(50, 9) == Decay(DecayFor(50, 8)) == Decay(Decay(DecayFor(50, 7))) == 5;
    assert DecayFor(50, 12) == Decay(DecayFor(50, 11)) == Decay(Decay(DecayFor(50, 10))) == 2;
  }

  lemma {:induction false} DecayKeepsShrinking(n: int, steps: nat, more: nat)
    requires n >= 1 && steps <= more
    ensures 1 <= DecayFor(n, more) <= DecayFor(n, steps)
    decreases more
  {
    if steps < more {
      DecayKeepsShrinking(n, steps, more - 1);
    } else if steps > 0 {
      DecayKeepsShrinking(n, steps - 1, more - 1);
    }
  }

  lemma SmoothComesFrom(demand: seq<int>, i: nat) returns (j: nat)
    requires i < |demand|
    ensures j <= i && Smooth(demand)[i] == DecayFor(demand[j], i - j) && Smooth(demand)[i] >= demand[i]
  {
    SmoothClosedForm(demand, i);
    j :| 0 <= j <= i && Smooth(demand)[i] == DecayFor(demand[j], i - j);
    assert Smooth(demand)[i] >= DecayFor(demand[i], i - i);
  }

  /** Once demand has been constant for twelve steps the plan equals it, whatever came before. */
  lemma ConstantDemandIsReached(demand: seq<int>, start: nat, i: nat)
    requires forall k | 0 <= k < |demand| :: MIN_REPLICAS <= demand[k] <= MAX_REPLICAS
    requires start + SETTLING_STEPS - 1 <= i < |demand|
    requires forall k | start <= k <= i :: demand[k] == demand[i]
    ensures Smooth(demand)[i] == demand[i]
  {
    var j := SmoothComesFrom(demand, i);
    DecayedByThen(demand[j], demand[i], i - j);
  }

  /** An earlier count has come down to the present one: because it is the same, or because it is old. */
  lemma DecayedByThen(n: int, present: int, steps: nat)
    requires 1 <= n <= MAX_REPLICAS && present >= MIN_REPLICAS && (n == present || steps >= SETTLING_STEPS)
    ensures DecayFor(n, steps) <= present
  {
    if n == present { ShrinksFromTheStart(n, steps); } else { OldDemandHasDecayed(n, steps); }
  }

  lemma ShrinksFromTheStart(n: int, steps: nat)
    requires n >= 1
    ensures DecayFor(n, steps) <= n
  {
    DecayKeepsShrinking(n, 0, steps);
  }

  lemma OldDemandHasDecayed(n: int, steps: nat)
    requires n <= MAX_REPLICAS && steps >= SETTLING_STEPS
    ensures DecayFor(n, steps) <= MIN_REPLICAS
  {
    DecayForIsMonotone(n, MAX_REPLICAS, steps);
    DecayKeepsShrinking(MAX_REPLICAS, SETTLING_STEPS, steps);
    DecayFromMaximum();
  }

  /** Twelve is the least such number: eleven steps after a drop from 50 to 2 the plan is still at 3. */
  lemma ElevenStepsAreTooFew(demand: seq<int>)
    requires |demand| == SETTLING_STEPS && demand[0] == MAX_REPLICAS
    requires forall k | 1 <= k < |demand| :: demand[k] == MIN_REPLICAS
    ensures Smooth(demand)[SETTLING_STEPS - 1] >= 3
  {
    SmoothClosedForm(demand, SETTLING_STEPS - 1);
    DecayFromMaximum();
    assert DecayFor(demand[0], SETTLING_STEPS - 1 - 0) == 3;
  }

  // ---- windows ----------------------------------------------------------------------------

  /** `windows` cut the steps 0..n at `cuts`: each window covers a non-empty stretch of one constant
      count, from the timestamp of its first step to that of its last, and neighbours differ. */
  ghost predicate Tiles(windows: seq<ScalingWindow>, cuts: seq<nat>, forecast: seq<ForecastPoint>, plan: seq<int>,
                        cpu: int, memory: int)
    requires |forecast| == |plan|
  {
    && |cuts| == |windows| + 1 && cuts[0] == 0 && cuts[|windows|] == |plan|
    && (forall w | 0 <= w < |windows| :: Covers(windows[w], cuts[w], cuts[w + 1], forecast, plan, cpu, memory))
    && (forall w | 0 < w < |windows| :: windows[w].replicas != windows[w - 1].replicas)
  }

  ghost predicate Covers(window: ScalingWindow, lo: nat, hi: nat, forecast: seq<ForecastPoint>, plan: seq<int>,
                         cpu: int, memory: int)
    requires |forecast| == |plan|
  {
    && lo < hi <= |plan|
    && window == ScalingWindow(forecast[lo].timestamp, forecast[hi - 1].timestamp, plan[lo], cpu, memory)
    && forall i | lo <= i < hi :: plan[i] == plan[lo]
  }

  /** `windows` are a maximal run-length encoding of `plan`. */
  ghost predicate Encodes(windows: seq<ScalingWindow>, forecast: seq<ForecastPoint>, plan: seq<int>, cpu: int,
                          memory: int)
    requires |forecast| == |plan|
  {
    exists cuts :: Tiles(windows, cuts, forecast, plan, cpu, memory)
  }

  /** The merging loop. It compares each step with the first of the open window. */
  method MergeWindows(forecast: seq<ForecastPoint>, demand: seq<int>, cpuRequestM: int, memoryRequestMi: int)
    returns (windows: seq<ScalingWindow>)
    requires |forecast| == |demand|
    ensures Encodes(windows, forecast, Smooth(demand), cpuRequestM, memoryRequestMi)
  {
    var smoothed := SmoothScaleDown(demand);
    ghost var plan := Smooth(demand);
    windows := [];
    ghost var cuts: seq<nat> := [0];
    var startIdx: nat := 0;
    var i: nat := 1;
    while i < smoothed.Length + 1
      invariant 1 <= i <= smoothed.Length + 1
      invariant |cuts| == |windows| + 1 && cuts[0] == 0 && cuts[|windows|] == startIdx
      invariant if i == smoothed.Length + 1 then startIdx == smoothed.Length else startIdx < i
      invariant forall k | startIdx <= k < i && k < smoothed.Length :: plan[k] == plan[startIdx]
      invariant forall w | 0 <= w < |windows| ::
          Covers(windows[w], cuts[w], cuts[w + 1], forecast, plan, cpuRequestM, memoryRequestMi)
      invariant forall w | 0 < w < |windows| :: windows[w].replicas != windows[w - 1].replicas
      invariant |windows| > 0 && startIdx < |plan| ==> windows[|windows| - 1].replicas != plan[startIdx]
    {
      assert smoothed.Length > 0 ==> smoothed[startIdx] == plan[startIdx];
      if i == smoothed.Length || smoothed[i] != smoothed[startIdx] {
        windows := windows + [ScalingWindow(forecast[startIdx].timestamp, forecast[i - 1].timestamp,
                                            smoothed[startIdx], cpuRequestM, memoryRequestMi)];
        cuts := cuts + [i];
        startIdx := i;
      }
      i := i + 1;
    }
    assert Tiles(windows, cuts, forecast, plan, cpuRequestM, memoryRequestMi);
  }

  /** The plan a list of windows stands for: each window's count, once per step. */
  ghost function Expand(windows: seq<ScalingWindow>, cuts: seq<nat>): seq<int>
    requires |cuts| == |windows| + 1 && forall w | 0 <= w < |windows| :: cuts[w] <= cuts[w + 1]
  {
    if windows == [] then [] else
      var n := |windows| - 1;
      Expand(windows[..n], cuts[..n + 1]) + seq(cuts[n + 1] - cuts[n], _ => windows[n].replicas)
  }

  ghost predicate Flat(plan: seq<int>, lo: nat, hi: nat, count: int) {
    lo < hi <= |plan| && forall i | lo <= i < hi :: plan[i] == count
  }

  ghost predicate Stretches(windows: seq<ScalingWindow>, cuts: seq<nat>, plan: seq<int>) {
    && |cuts| == |windows| + 1 && cuts[0] == 0
    && forall w | 0 <= w < |windows| :: Flat(plan, cuts[w], cuts[w + 1], windows[w].replicas)
  }

  lemma {:induction false} ExpandStretches(windows: seq<ScalingWindow>, cuts: seq<nat>, plan: seq<int>)
    requires Stretches(windows, cuts, plan)
    ensures cuts[|windows|] <= |plan| && Expand(windows, cuts) == plan[..cuts[|windows|]]
    decreases |windows|
  {
    if windows == [] {
    } else {
      var n := |windows| - 1;
      ExpandStretches(windows[..n], cuts[..n + 1], plan);
      assert Flat(plan, cuts[n], cuts[n + 1], windows[n].replicas);
      assert seq(cuts[n + 1] - cuts[n], _ => windows[n].replicas) == plan[cuts[n]..cuts[n + 1]];
      assert plan[..cuts[n + 1]] == plan[..cuts[n]] + plan[cuts[n]..cuts[n + 1]];
    }
  }

  /** Decoding: expanding the windows gives back the smoothed plan. */
  lemma ExpandGivesBackThePlan(windows: seq<ScalingWindow>, cuts: seq<nat>, forecast: seq<ForecastPoint>,
                               plan: seq<int>,
                               cpu: int, memory: int)
    requires |forecast| == |plan| && Tiles(windows, cuts, forecast, plan, cpu, memory)
    ensures Stretches(windows, cuts, plan) && Expand(windows, cuts) == plan
  {
    forall w | 0 <= w < |windows| ensures Flat(plan, cuts[w], cuts[w + 1], windows[w].replicas) {
      assert Covers(windows[w], cuts[w], cuts[w + 1], forecast, plan, cpu, memory);
    }
    ExpandStretches(windows, cuts, plan);
  }

  /** Two tilings that agree on where window `k` starts cannot disagree on where it ends: the longer
      one would join two neighbours that differ. */
  lemma EndsNoLater(windows: seq<ScalingWindow>, cuts: seq<nat>, others: seq<ScalingWindow>, otherCuts: seq<nat>,
                    forecast: seq<ForecastPoint>, plan: seq<int>, cpu: int, memory: int, k: nat)
    requires |forecast| == |plan|
    requires Tiles(windows, cuts, forecast, plan, cpu, memory) && Tiles(others, otherCuts, forecast, plan, cpu, memory)
    requires k < |windows| && k < |others| && cuts[k] == otherCuts[k]
    ensures otherCuts[k + 1] <= cuts[k + 1]
  {
    assert Covers(windows[k], cuts[k], cuts[k + 1], forecast, plan, cpu, memory);
    assert Covers(others[k], otherCuts[k], otherCuts[k + 1], forecast, plan, cpu, memory);
    if k + 1 < |windows| { assert Covers(windows[k + 1], cuts[k + 1], cuts[k + 2], forecast, plan, cpu, memory); }
  }

  lemma {:induction false} SameCuts(windows: seq<ScalingWindow>, cuts: seq<nat>, others: seq<ScalingWindow>,
                                    otherCuts: seq<nat>,
                                    forecast: seq<ForecastPoint>, plan: seq<int>, cpu: int, memory: int, k: nat)
    requires |forecast| == |plan|
    requires Tiles(windows, cuts, forecast, plan, cpu, memory) && Tiles(others, otherCuts, forecast, plan, cpu, memory)
    requires k <= |windows|
    ensures k <= |others| && cuts[k] == otherCuts[k] && (k > 0 ==> windows[k - 1] == others[k - 1])
  {
    if k > 0 {
      SameCuts(windows, cuts, others, otherCuts, forecast, plan, cpu, memory, k - 1);
      assert Covers(windows[k - 1], cuts[k - 1], cuts[k], forecast, plan, cpu, memory);
      assert k - 1 < |others|;
      EndsNoLater(windows, cuts, others, otherCuts, forecast, plan, cpu, memory, k - 1);
      EndsNoLater(others, otherCuts, windows, cuts, forecast, plan, cpu, memory, k - 1);
      assert Covers(others[k - 1], otherCuts[k - 1], otherCuts[k], forecast, plan, cpu, memory);
    }
  }

  /** Merging is the one maximal run-length encoding: any windows with these traits are the same. */
  lemma WindowsAreUnique(windows: seq<ScalingWindow>, others: seq<ScalingWindow>,
                         forecast: seq<ForecastPoint>, plan: seq<int>, cpu: int, memory: int)
    requires |forecast| == |plan|
    requires Encodes(windows, forecast, plan, cpu, memory) && Encodes(others, forecast, plan, cpu, memory)
    ensures windows == others
  {
    var cuts :| Tiles(windows, cuts, forecast, plan, cpu, memory);
    var otherCuts :| Tiles(others, otherCuts, forecast, plan, cpu, memory);
    SameCuts(windows, cuts, others, otherCuts, forecast, plan, cpu, memory, |windows|);
    SameCuts(others, otherCuts, windows, cuts, forecast, plan, cpu, memory, |others|);
    forall k | 0 <= k < |windows| ensures windows[k] == others[k] {
      SameCuts(windows, cuts, others, otherCuts, forecast, plan, cpu, memory, k + 1);
    }
  }

  lemma {:induction false} CutsIncrease(windows: seq<ScalingWindow>, cuts: seq<nat>, plan: seq<int>, a: nat, b: nat)
    requires Stretches(windows, cuts, plan) && a < b <= |windows|
    ensures cuts[a] < cuts[b]
    decreases b
  {
    if a < b - 1 { CutsIncrease(windows, cuts, plan, a, b - 1); }
  }

  lemma {:induction false} CutBefore(windows: seq<ScalingWindow>, cuts: seq<nat>, plan: seq<int>, i: nat, n: nat)
    returns (w: nat)
    requires Stretches(windows, cuts, plan) && n <= |windows| && i < cuts[n]
    ensures w < n && cuts[w] <= i < cuts[w + 1]
  {
    if i < cuts[n - 1] { w := CutBefore(windows, cuts, plan, i, n - 1); } else { w := n - 1; }
  }

  /** With forecast timestamps in increasing order, every forecast step lies in exactly one window, and
      that window asks for the step's smoothed count. */
  lemma EachStepHasOneWindow(windows: seq<ScalingWindow>, forecast: seq<ForecastPoint>, plan: seq<int>,
                             cpu: int, memory: int, i: nat)
    requires |forecast| == |plan| && i < |plan| && Encodes(windows, forecast, plan, cpu, memory)
    requires forall a, b | 0 <= a < b < |forecast| :: forecast[a].timestamp < forecast[b].timestamp
    ensures exists w :: 0 <= w < |windows| && windows[w].from <= forecast[i].timestamp <= windows[w].to
                        && windows[w].replicas == plan[i]
                        && forall v | 0 <= v < |windows|
                              && windows[v].from <= forecast[i].timestamp <= windows[v].to :: v == w
  {
    var cuts :| Tiles(windows, cuts, forecast, plan, cpu, memory);
    ExpandGivesBackThePlan(windows, cuts, forecast, plan, cpu, memory);
    var w := CutBefore(windows, cuts, plan, i, |windows|);
    assert Covers(windows[w], cuts[w], cuts[w + 1], forecast, plan, cpu, memory);
    assert forecast[cuts[w]].timestamp <= forecast[i].timestamp <= forecast[cuts[w + 1] - 1].timestamp;
    forall v | 0 <= v < |windows|
      ensures v < w ==> windows[v].to < forecast[i].timestamp
      ensures w < v ==> forecast[i].timestamp < windows[v].from
    {
      assert Covers(windows[v], cuts[v], cuts[v + 1], forecast, plan, cpu, memory);
      if v + 1 < w { CutsIncrease(windows, cuts, plan, v + 1, w); }
      if w + 1 < v { CutsIncrease(windows, cuts, plan, w + 1, v); }
    }
  }

  // ---- from the forecast to the recommendation --------------------------------------------

  function Load(p: ForecastPoint, safety: real): real {
    p.upper * safety
  }

  function StepDemand(p: ForecastPoint, safety: real, rpsPerPod: int): int
    requires rpsPerPod > 0
  {
    RpsToReplicas(Load(p, safety), rpsPerPod)
  }

  function DemandOf(forecast: seq<ForecastPoint>, safety: real, rpsPerPod: int): seq<int>
    requires rpsPerPod > 0
  {
    seq(|forecast|, i requires 0 <= i < |forecast| => StepDemand(forecast[i], safety, rpsPerPod))
  }

  method Calculate(forecast: seq<ForecastPoint>, safety: real, rpsPerPod: int, cpuRequestM: int, memoryRequestMi: int)
    returns (windows: seq<ScalingWindow>)
    requires rpsPerPod > 0
    ensures windows == [] <==> forecast == []
    ensures Encodes(windows, forecast, Smooth(DemandOf(forecast, safety, rpsPerPod)), cpuRequestM, memoryRequestMi)
  {
    if forecast == [] {
      assert Tiles([], [0], forecast, Smooth(DemandOf(forecast, safety, rpsPerPod)), cpuRequestM, memoryRequestMi);
      return [];
    }
    windows := MergeWindows(forecast, DemandOf(forecast, safety, rpsPerPod), cpuRequestM, memoryRequestMi);
  }

  function Peak(counts: seq<int>): (m: int)
    requires counts != []
    ensures m in counts && forall c | c in counts :: c <= m
  {
    if |counts| == 1 then counts[0] else
      assert counts == [counts[0]] + counts[1..];
      Max(counts[0], Peak(counts[1..]))
  }

  function Counts(windows: seq<ScalingWindow>): seq<int> {
    seq(|windows|, i requires 0 <= i < |windows| => windows[i].replicas)
  }

  function Recommended(windows: seq<ScalingWindow>): int {
    if windows == [] then 10 else Peak(Counts(windows))
  }

  lemma RpsToReplicasIsMonotone(a: real, b: real, rpsPerPod: int)
    requires rpsPerPod > 0 && a <= b
    ensures RpsToReplicas(a, rpsPerPod) <= RpsToReplicas(b, rpsPerPod)
  {
    var pod := rpsPerPod as real;
    assert a / pod <= b / pod;
  }

  lemma {:induction false} SmoothStaysBelowPeak(demand: seq<int>, peak: int, i: nat)
    requires i < |demand| && 1 <= peak && forall k | 0 <= k < |demand| :: demand[k] <= peak
    ensures Smooth(demand)[i] <= peak
  {
    SmoothAt(demand, i);
    if i > 0 { SmoothStaysBelowPeak(demand, peak, i - 1); }
  }

  lemma PeakIs(counts: seq<int>, m: int)
    requires m in counts && forall c | c in counts :: c <= m
    ensures Peak(counts) == m
  {
    assert Peak(counts) in counts;
  }

  /** Merging keeps the maximum: the largest count of the windows is the largest of the plan. */
  lemma MergingKeepsPeak(plan: seq<int>, top: nat, forecast: seq<ForecastPoint>, cpu: int, memory: int,
                         windows: seq<ScalingWindow>, cuts: seq<nat>)
    requires |forecast| == |plan| && top < |plan| && forall k | 0 <= k < |plan| :: plan[k] <= plan[top]
    requires Tiles(windows, cuts, forecast, plan, cpu, memory)
    ensures Recommended(windows) == plan[top]
  {
    forall w | 0 <= w < |windows| ensures windows[w].replicas <= plan[top] {
      assert Covers(windows[w], cuts[w], cuts[w + 1], forecast, plan, cpu, memory);
    }
    ExpandGivesBackThePlan(windows, cuts, forecast, plan, cpu, memory);
    var w := CutBefore(windows, cuts, plan, top, |windows|);
    assert Flat(plan, cuts[w], cuts[w + 1], windows[w].replicas);
    assert Counts(windows)[w] == plan[top];
    PeakIs(Counts(windows), plan[top]);
  }

  /** Smoothing keeps the maximum. */
  lemma SmoothingKeepsPeak(demand: seq<int>, top: nat)
    requires top < |demand| && demand[top] >= 1 && forall k | 0 <= k < |demand| :: demand[k] <= demand[top]
    ensures Smooth(demand)[top] == demand[top]
    ensures forall k | 0 <= k < |demand| :: Smooth(demand)[k] <= demand[top]
  {
    forall k | 0 <= k < |demand| ensures Smooth(demand)[k] <= demand[top]
    {
      SmoothStaysBelowPeak(demand, demand[top], k);
    }
    SmoothAt(demand, top);
  }

  /** `count` pods carry the upper bound of the step, with the safety factor on it. */
  ghost predicate Carries(count: int, rpsPerPod: int, p: ForecastPoint, safety: real) {
    count as real * rpsPerPod as real >= p.upper * safety
  }

  /** End to end: the recommendation is the least count from 2 to 50 whose pods carry the largest upper
      bound times the safety factor, or 50; `n` is any candidate. */
  lemma RecommendationIsPeakDemand(forecast: seq<ForecastPoint>, safety: real, rpsPerPod: int, cpu: int, memory: int,
                                   windows: seq<ScalingWindow>, top: nat, n: int)
    requires rpsPerPod > 0 && safety >= 0.0 && top < |forecast|
    requires forall i | 0 <= i < |forecast| :: forecast[i].upper <= forecast[top].upper
    requires Encodes(windows, forecast, Smooth(DemandOf(forecast, safety, rpsPerPod)), cpu, memory)
    ensures Recommended(windows) <= n <==>
            n >= 2 && (n >= 50 || Carries(n, rpsPerPod, forecast[top], safety))
  {
    RpsToReplicasIsLeast(Load(forecast[top], safety), rpsPerPod, n);
    var demand := DemandOf(forecast, safety, rpsPerPod);
    forall k | 0 <= k < |demand| ensures 1 <= demand[k] <= demand[top] {
      DemandBelow(forecast[k], forecast[top], safety, rpsPerPod);
    }
    SmoothingKeepsPeak(demand, top);
    var cuts :| Tiles(windows, cuts, forecast, Smooth(demand), cpu, memory);
    MergingKeepsPeak(Smooth(demand), top, forecast, cpu, memory, windows, cuts);
  }

  /** Without a forecast the recommendation is ten pods. */
  lemma NoForecastRecommendsTen(windows: seq<ScalingWindow>, cpu: int, memory: int)
    requires Encodes(windows, [], [], cpu, memory)
    ensures Recommended(windows) == 10
  {
    var cuts :| Tiles(windows, cuts, [], [], cpu, memory);
    assert |windows| > 0 ==> Covers(windows[0], cuts[0], cuts[1], [], [], cpu, memory);
  }

  lemma DemandBelow(a: ForecastPoint, b: ForecastPoint, safety: real, rpsPerPod: int)
    requires rpsPerPod > 0 && safety >= 0.0 && a.upper <= b.upper
    ensures MIN_REPLICAS <= StepDemand(a, safety, rpsPerPod) <= StepDemand(b, safety, rpsPerPod) <= MAX_REPLICAS
  {
    LoadIsMonotone(a, b, safety);
    RpsToReplicasIsMonotone(Load(a, safety), Load(b, safety), rpsPerPod);
  }

  lemma LoadIsMonotone(a: ForecastPoint, b: ForecastPoint, safety: real)
    requires a.upper <= b.upper && safety >= 0.0
    ensures Load(a, safety) <= Load(b, safety)
  {
    ProductIsMonotone(a.upper, b.upper, safety);
  }

  /** Each forecast step is given enough pods for the upper bound times the safety factor, unless the
      count was clipped at the maximum. */
  lemma PlanCoversDemand(forecast: seq<ForecastPoint>, safety: real, rpsPerPod: int, i: nat, count: int)
    requires rpsPerPod > 0 && i < |forecast| && count == Smooth(DemandOf(forecast, safety, rpsPerPod))[i]
    ensures 2 <= count <= 50 && (Carries(count, rpsPerPod, forecast[i], safety) || count == 50)
  {
    PlanMeetsDemand(forecast, safety, rpsPerPod, i);
    StepIsCovered(forecast[i], safety, rpsPerPod, count);
  }

  lemma PlanMeetsDemand(forecast: seq<ForecastPoint>, safety: real, rpsPerPod: int, i: nat)
    requires rpsPerPod > 0 && i < |forecast|
    ensures var count := Smooth(DemandOf(forecast, safety, rpsPerPod))[i];
            StepDemand(forecast[i], safety, rpsPerPod) <= count <= MAX_REPLICAS
  {
    var demand := DemandOf(forecast, safety, rpsPerPod);
    SmoothIsGentle(demand);
    forall k | 0 <= k < |demand| ensures MIN_REPLICAS <= demand[k] <= MAX_REPLICAS {
      StepDemandInRange(forecast[k], safety, rpsPerPod);
    }
    SmoothStaysBelowPeak(demand, MAX_REPLICAS, i);
  }

  lemma StepIsCovered(p: ForecastPoint, safety: real, rpsPerPod: int, count: int)
    requires rpsPerPod > 0 && StepDemand(p, safety, rpsPerPod) <= count <= MAX_REPLICAS
    ensures 2 <= count <= 50 && (Carries(count, rpsPerPod, p, safety) || count == 50)
  {
    RpsToReplicasIsLeast(Load(p, safety), rpsPerPod, count);
  }

  lemma StepDemandInRange(p: ForecastPoint, safety: real, rpsPerPod: int)
    requires rpsPerPod > 0
    ensures MIN_REPLICAS <= StepDemand(p, safety, rpsPerPod) <= MAX_REPLICAS
  {
  }

  /** The count is the least one in range whose pods carry the rate: `n` is enough exactly when it is at
      least the minimum and has the capacity or is at least the maximum. */
  lemma RpsToReplicasIsLeast(rps: real, rpsPerPod: int, n: int)
    requires rpsPerPod > 0
    ensures RpsToReplicas(rps, rpsPerPod) <= n <==>
            n >= 2 && (n >= 50 || n as real * rpsPerPod as real >= rps)
  {
    var pod := rpsPerPod as real;
    assert rps / pod * pod == rps;
    assert Ceil(rps / pod) <= n <==> rps / pod <= n as real;
    if rps / pod <= n as real {
      ProductIsMonotone(rps / pod, n as real, pod);
    } else {
      ProductIsStrict(n as real, rps / pod, pod);
    }
  }

  lemma ProductIsStrict(a: real, b: real, factor: real)
    requires a < b && factor > 0.0
    ensures a * factor < b * factor
  {
    assert (b - a) * factor > 0.0;
    assert (b - a) * factor == b * factor - a * factor;
  }

  lemma ProductIsMonotone(a: real, b: real, factor: real)
    requires a <= b && factor >= 0.0
    ensures a * factor <= b * factor
  {
    assert (b - a) * factor >= 0.0;
    assert (b - a) * factor == b * factor - a * factor;
  }
}
