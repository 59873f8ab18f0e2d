/** The live-migration downtime ramp, in exact arithmetic, and its use over a run. */
module Downtime {
  import opened Prelude
  import opened Arithmetic

  /** (seconds elapsed, downtime to set) */
  type Step = (int, int)

  // ---------------------------------------------------------------- the ramp

  /** Step `i` in closed form: floor of downtime * (steps + i * (steps - 1)) / steps^2. */
  function RampValue(downtime: nat, steps: nat, i: nat): nat
    requires 0 < steps
  {
    MulPositive(steps, steps);
    Rise(downtime, steps, i) / (steps * steps)
  }

  function Rise(downtime: nat, steps: nat, i: nat): nat
    requires 0 < steps
  {
    downtime * (steps + i * (steps - 1))
  }

  function RampDelay(delay: nat, dataGb: real): nat
    requires 0.0 <= dataGb
  {
    (delay as real * dataGb).Floor
  }

  /** The delay is that many seconds for each GB, rounded down: more data makes for longer steps. */
  lemma RampDelayGrows(delay: nat, dataGb: real, more: real)
    requires 0.0 <= dataGb <= more
    ensures RampDelay(delay, dataGb) as real <= delay as real * dataGb < RampDelay(delay, dataGb) as real + 1.0
    ensures RampDelay(delay, dataGb) <= RampDelay(delay, more)
  {
    ScaleMonotone(delay as real, dataGb, more);
    FloorFacts(delay as real * dataGb, delay as real * more);
  }

  lemma FloorFacts(x: real, y: real)
    requires x <= y
    ensures x.Floor as real <= x < x.Floor as real + 1.0
    ensures x.Floor <= y.Floor
  {
  }

  /** For whole GB nothing is lost. */
  lemma RampDelayWhole(delay: nat, gb: nat)
    ensures RampDelay(delay, gb as real) == delay * gb
  {
    RealOfProduct(delay, gb);
  }

  lemma ScaleMonotone(a: real, b: real, c: real)
    requires a >= 0.0 && b <= c
    ensures a * b <= a * c
  {
  }

  lemma MulPositive(a: int, b: int)
    requires a > 0 && b > 0
    ensures a * b > 0
  {
  }

  lemma UnitFraction(y: real, b: real, r: real)
    requires b > 0.0 && y * b == r && 0.0 <= r < b
    ensures 0.0 <= y < 1.0
  {
  }

  /** The quotient of integers, taken exactly and floored, is the integer quotient. */
  lemma FloorOfQuotient(x: real, a: nat, b: nat)
    requires b > 0 && x * b as real == a as real
    ensures x.Floor == a / b
  {
    var q, r := a / b, a % b;
    assert a == q * b + r;
    RealOfProduct(q, b);
    assert (x - q as real) * b as real == r as real;
    UnitFraction(x - q as real, b as real, r as real);
  }

  lemma RealOfProduct(x: int, y: int)
    ensures (x * y) as real == x as real * y as real
  {
  }

  /** base + offset * i, scaled by the square of the number of steps. */
  lemma LinearScaled(d: real, s: real, i: real)
    requires s > 0.0
    ensures (d / s + (d - d / s) / s * i) * (s * s) == d * (s + i * (s - 1.0))
  {
  }

  function Level(base: real, offset: real, i: nat): int {
    (base + offset * i as real).Floor
  }

  function Base(downtime: nat, steps: nat): real
    requires steps > 0
  {
    downtime as real / steps as real
  }

  function Offset(downtime: nat, steps: nat): real
    requires steps > 0
  {
    (downtime as real - Base(downtime, steps)) / steps as real
  }

  /** The linear formula, floored, is the closed form. */
  lemma RampValueIsLinear(downtime: nat, steps: nat, i: nat)
    requires steps > 0
    ensures Level(Base(downtime, steps), Offset(downtime, steps), i) == RampValue(downtime, steps, i)
  {
    var d, s := downtime as real, steps as real;
    var x := Base(downtime, steps) + Offset(downtime, steps) * i as real;
    LinearScaled(d, s, i as real);
    RiseAsReal(downtime, steps, i);
    MulPositive(steps, steps);
    RealOfProduct(steps, steps);
    FloorOfQuotient(x, Rise(downtime, steps, i), steps * steps);
  }

  lemma RiseAsReal(downtime: nat, steps: nat, i: nat)
    requires steps > 0
    ensures Rise(downtime, steps, i) as real == downtime as real * (steps as real + i as real * (steps as real - 1.0))
  {
  }

  /** The pair that a step yields. */
  function Yield(delay: nat, base: real, offset: real, i: nat): Step {
    (delay * i, Level(base, offset, i))
  }

  function Yields(delay: nat, base: real, offset: real, n: nat): (r: seq<Step>)
    ensures |r| == n && forall i :: 0 <= i < n ==> r[i] == Yield(delay, base, offset, i)
  {
    if n == 0 then [] else Yields(delay, base, offset, n - 1) + [Yield(delay, base, offset, n - 1)]
  }

  lemma YieldsAreRamp(ramp: seq<Step>, delay: nat, downtime: nat, steps: nat)
    requires steps > 0
    requires ramp == Yields(delay, Base(downtime, steps), Offset(downtime, steps), steps + 1)
    ensures IsRamp(ramp, downtime, steps, delay)
  {
    forall i | 0 <= i <= steps ensures ramp[i] == RampStep(delay, downtime, steps, i) {
      RampValueIsLinear(downtime, steps, i);
    }
  }

  method DowntimeSteps(downtime: nat, steps: nat, delay: nat, dataGb: real) returns (ramp: seq<Step>)
    requires 0 < steps && 0.0 <= dataGb
    ensures IsRamp(ramp, downtime, steps, RampDelay(delay, dataGb))
  {
    var delay' := RampDelay(delay, dataGb);
    var base := downtime as real / steps as real;
    var offset := (downtime as real - base) / steps as real;
    ramp := [];
    for i := 0 to steps + 1
      invariant ramp == Yields(delay', base, offset, i)
    {
      ramp := ramp + [Yield(delay', base, offset, i)];
    }
    YieldsAreRamp(ramp, delay', downtime, steps);
  }

  function RampStep(delay: nat, downtime: nat, steps: nat, i: nat): Step
    requires 0 < steps
  {
    (delay * i, RampValue(downtime, steps, i))
  }

  /** The list of steps for a downtime, a number of steps and a delay between them. */
  ghost predicate IsRamp(ramp: seq<Step>, downtime: nat, steps: nat, delay: nat) {
    && steps > 0 && |ramp| == steps + 1
    && forall i :: 0 <= i <= steps ==> ramp[i] == RampStep(delay, downtime, steps, i)
  }

  /** From floor(downtime / steps) to exactly downtime. */
  lemma RampEnds(downtime: nat, steps: nat)
    requires steps > 0
    ensures RampValue(downtime, steps, 0) == downtime / steps
    ensures RampValue(downtime, steps, steps) == downtime
  {
    MulPositive(steps, steps);
    assert steps + steps * (steps - 1) == steps * steps;
    QuotientOfProduct(downtime, steps * steps);
    var x := downtime as real / steps as real;
    FloorOfQuotient(x, downtime, steps);
    RealOfProduct(downtime, steps);
    RealOfProduct(steps, steps);
    assert x * (steps as real * steps as real) == (x * steps as real) * steps as real;
    FloorOfQuotient(x, Rise(downtime, steps, 0), steps * steps);
  }

  lemma RampIncreases(downtime: nat, steps: nat, i: nat, j: nat)
    requires steps > 0 && i <= j
    ensures RampValue(downtime, steps, i) <= RampValue(downtime, steps, j)
  {
    MulPositive(steps, steps);
    MulMonotone(i, j, steps - 1);
    MulMonotone(steps + i * (steps - 1), steps + j * (steps - 1), downtime);
    QuotientMonotone(downtime * (steps + i * (steps - 1)), downtime * (steps + j * (steps - 1)), steps * steps);
  }

  /** Both coordinates never decrease, and no value exceeds the configured downtime. */
  lemma RampShape(ramp: seq<Step>, downtime: nat, steps: nat, delay: nat)
    requires IsRamp(ramp, downtime, steps, delay)
    ensures forall i, j :: 0 <= i <= j <= steps ==> ramp[i].0 <= ramp[j].0 && ramp[i].1 <= ramp[j].1
    ensures ramp[0] == (0, downtime / steps) && ramp[steps].1 == downtime
    ensures forall i :: 0 <= i <= steps ==> ramp[i].1 <= downtime
  {
    RampEnds(downtime, steps);
    forall i, j | 0 <= i <= j <= steps ensures ramp[i].0 <= ramp[j].0 && ramp[i].1 <= ramp[j].1 {
      MulMonotone(i, j, delay);
      RampIncreases(downtime, steps, i, j);
      assert ramp[i] == RampStep(delay, downtime, steps, i) && ramp[j] == RampStep(delay, downtime, steps, j);
    }
    assert forall i :: 0 <= i <= steps ==> ramp[i].1 <= ramp[steps].1;
  }

  // ---------------------------------------------------------------- its use

  /** How many steps' time markers have been passed. */
  ghost function Passed(ramp: seq<Step>, elapsed: real): int {
    if ramp == [] then 0
    else if elapsed > ramp[|ramp| - 1].0 as real then |ramp| else Passed(ramp[..|ramp| - 1], elapsed)
  }

  lemma {:induction false} PassedFacts(ramp: seq<Step>, elapsed: real)
    ensures 0 <= Passed(ramp, elapsed) <= |ramp|
    ensures Passed(ramp, elapsed) > 0 ==> elapsed > ramp[Passed(ramp, elapsed) - 1].0 as real
    ensures forall k :: Passed(ramp, elapsed) <= k < |ramp| ==> elapsed <= ramp[k].0 as real
  {
    if ramp != [] && !(elapsed > ramp[|ramp| - 1].0 as real) {
      PassedFacts(ramp[..|ramp| - 1], elapsed);
    }
  }

  /** The k-th marker is the last that has been passed. */
  ghost predicate LastPassed(ramp: seq<Step>, elapsed: real, k: nat) {
    && k < |ramp| && elapsed > ramp[k].0 as real
    && forall j :: k < j < |ramp| ==> elapsed <= ramp[j].0 as real
  }

  /** The value of the last step whose marker has been passed. */
  ghost function StepAt(ramp: seq<Step>, elapsed: real): Option<int> {
    PassedFacts(ramp, elapsed);
    if Passed(ramp, elapsed) == 0 then None else Some(ramp[Passed(ramp, elapsed) - 1].1)
  }

  lemma LastDecides(ramp: seq<Step>, elapsed: real, last: int)
    requires -1 <= last < |ramp| && (last >= 0 ==> elapsed > ramp[last].0 as real)
    requires forall j :: last < j < |ramp| ==> elapsed <= ramp[j].0 as real
    ensures forall k: nat :: LastPassed(ramp, elapsed, k) <==> k == last
    ensures StepAt(ramp, elapsed) == if last == -1 then None else Some(ramp[last].1)
  {
    PassedFacts(ramp, elapsed);
    assert Passed(ramp, elapsed) == last + 1;
  }

  class Guest {
    var maxDowntime: Option<int>

    constructor ()
      ensures maxDowntime == None
    {
      maxDowntime := None;
    }

    /** Fails, leaving the guest as it is, when libvirt does. */
    method MigrateConfigureMaxDowntime(ms: int, fails: bool) returns (ok: bool)
      modifies this
      ensures ok == !fails && maxDowntime == if ok then Some(ms) else old(maxDowntime)
    {
      if !fails {
        maxDowntime := Some(ms);
      }
      return !fails;
    }
  }

  /** Returns the current step's value, set on the guest if it is new; a failure to
      set it is ignored, and the value is returned all the same. */
  method UpdateDowntime(guest: Guest, oldDowntime: Option<int>, ramp: seq<Step>, elapsed: real, fails: bool)
    returns (r: Option<int>)
    modifies guest
    ensures (forall k :: 0 <= k < |ramp| ==> elapsed <= ramp[k].0 as real) ==> r == oldDowntime
    ensures forall k: nat :: LastPassed(ramp, elapsed, k) ==> r == Some(ramp[k].1)
    ensures r == if StepAt(ramp, elapsed).Some? then StepAt(ramp, elapsed) else oldDowntime
    ensures guest.maxDowntime == if r != oldDowntime && !fails then r else old(guest.maxDowntime)
  {
    var thisStep: Option<Step> := None;
    ghost var last := -1;
    var i := 0;
    while i < |ramp|
      invariant 0 <= i <= |ramp| && -1 <= last < i && guest.maxDowntime == old(guest.maxDowntime)
      invariant thisStep == if last == -1 then None else Some(ramp[last])
      invariant last >= 0 ==> elapsed > ramp[last].0 as real
      invariant forall j :: last < j < i ==> elapsed <= ramp[j].0 as real
    {
      if elapsed > ramp[i].0 as real {
        thisStep := Some(ramp[i]);
        last := i;
      }
      i := i + 1;
    }
    LastDecides(ramp, elapsed, last);
    if thisStep.None? || oldDowntime == Some(thisStep.value.1) {
      return oldDowntime;
    }
    var ok := guest.MigrateConfigureMaxDowntime(thisStep.value.1, fails);
    return Some(thisStep.value.1);
  }

  /** On a ramp, the i-th value holds from after the i-th marker up to the next. */
  lemma RampAt(ramp: seq<Step>, downtime: nat, steps: nat, delay: nat, elapsed: real, i: nat)
    requires IsRamp(ramp, downtime, steps, delay) && i < steps
    requires (delay * i) as real < elapsed <= (delay * (i + 1)) as real
    ensures StepAt(ramp, elapsed) == Some(downtime * (steps + i * (steps - 1)) / (steps * steps))
  {
    RampShape(ramp, downtime, steps, delay);
    MarkersDecide(ramp, elapsed, i);
    assert ramp[i] == RampStep(delay, downtime, steps, i) && ramp[i + 1] == RampStep(delay, downtime, steps, i + 1);
  }

  /** After the last marker it is the configured downtime, and there is none up to the first. */
  lemma RampPast(ramp: seq<Step>, downtime: nat, steps: nat, delay: nat, elapsed: real)
    requires IsRamp(ramp, downtime, steps, delay)
    ensures elapsed <= 0.0 ==> StepAt(ramp, elapsed) == None
    ensures elapsed > (delay * steps) as real ==> StepAt(ramp, elapsed) == Some(downtime)
  {
    RampShape(ramp, downtime, steps, delay);
    MarkersDecide(ramp, elapsed, 0);
    assert ramp[steps] == RampStep(delay, downtime, steps, steps);
  }

  lemma MarkersDecide(ramp: seq<Step>, elapsed: real, i: nat)
    requires ramp != [] && forall j, k :: 0 <= j <= k < |ramp| ==> ramp[j].0 <= ramp[k].0
    ensures elapsed <= ramp[0].0 as real ==> StepAt(ramp, elapsed) == None
    ensures i + 1 < |ramp| && ramp[i].0 as real < elapsed <= ramp[i + 1].0 as real ==>
            StepAt(ramp, elapsed) == Some(ramp[i].1)
    ensures elapsed > ramp[|ramp| - 1].0 as real ==> StepAt(ramp, elapsed) == Some(ramp[|ramp| - 1].1)
  {
    if elapsed <= ramp[0].0 as real {
      assert forall k :: 0 <= k < |ramp| ==> ramp[0].0 <= ramp[k].0;
      LastDecides(ramp, elapsed, -1);
    } else if elapsed > ramp[|ramp| - 1].0 as real {
      LastDecides(ramp, elapsed, |ramp| - 1);
    }
    if i + 1 < |ramp| && ramp[i].0 as real < elapsed <= ramp[i + 1].0 as real {
      assert forall j :: i < j < |ramp| ==> ramp[i + 1].0 <= ramp[j].0;
      LastDecides(ramp, elapsed, i);
    }
  }

  /** The documented progression: 400 ms in 10 steps for 3 GB at 30 seconds a GB rises by
      36 ms every 90 seconds, from 40 ms. */
  lemma DocumentedProgression(ramp: seq<Step>, i: nat)
    requires IsRamp(ramp, 400, 10, RampDelay(30, 3.0)) && i <= 10
    ensures ramp[i] == (90 * i, 40 + 36 * i)
  {
    RampDelayWhole(30, 3);
    assert ramp[i] == RampStep(90, 400, 10, i);
    assert Rise(400, 10, i) == 100 * (40 + 36 * i);
  }

  /** The value after the updates of a run, the first starting from None. */
  ghost function DowntimeAfter(ramp: seq<Step>, times: seq<real>): Option<int> {
    if times == [] then None
    else
      var now := StepAt(ramp, times[|times| - 1]);
      if now.Some? then now else DowntimeAfter(ramp, times[..|times| - 1])
  }

  ghost predicate Nondecreasing(times: seq<real>) {
    forall i, j :: 0 <= i <= j < |times| ==> times[i] <= times[j]
  }

  ghost function OrZero(v: Option<int>): int {
    if v.Some? then v.value else 0
  }

  /** More time passes more markers of a ramp, up to a larger value. */
  lemma LaterStepIsLarger(ramp: seq<Step>, downtime: nat, steps: nat, delay: nat, t: real, u: real)
    requires IsRamp(ramp, downtime, steps, delay) && t <= u
    ensures StepAt(ramp, t).Some? ==> StepAt(ramp, u).Some? && StepAt(ramp, t).value <= StepAt(ramp, u).value
    ensures StepAt(ramp, u).Some? ==> StepAt(ramp, u).value <= downtime
  {
    RampShape(ramp, downtime, steps, delay);
    PassedFacts(ramp, t);
    PassedFacts(ramp, u);
    var p, q := Passed(ramp, t), Passed(ramp, u);
    assert forall k :: q <= k < |ramp| ==> t <= ramp[k].0 as real;
  }

  /** Over a run in which time does not go back, the value depends on the last reading
      alone; it never falls and never exceeds the configured downtime. */
  lemma {:induction false} DowntimeNeverFalls(ramp: seq<Step>, downtime: nat, steps: nat, delay: nat,
                                              times: seq<real>, k: nat)
    requires IsRamp(ramp, downtime, steps, delay) && Nondecreasing(times) && k < |times|
    ensures DowntimeAfter(ramp, times[..k + 1]) == StepAt(ramp, times[k])
    ensures var before, after := DowntimeAfter(ramp, times[..k]), DowntimeAfter(ramp, times[..k + 1]);
      && (before.Some? ==> after.Some? && before.value <= after.value)
      && OrZero(after) <= downtime
    decreases k
  {
    assert times[..k + 1][..k] == times[..k];
    LaterStepIsLarger(ramp, downtime, steps, delay, times[k], times[k]);
    if k > 0 {
      DowntimeNeverFalls(ramp, downtime, steps, delay, times, k - 1);
      LaterStepIsLarger(ramp, downtime, steps, delay, times[k - 1], times[k]);
    }
  }

  /** What the guest has been given after the updates of a run, of which some fail. */
  ghost function GuestAfter(ramp: seq<Step>, times: seq<real>, fails: seq<bool>): Option<int>
    requires |fails| == |times|
  {
    if times == [] then None
    else
      var last := |times| - 1;
      if Changes(ramp, times) && !fails[last] then DowntimeAfter(ramp, times)
      else GuestAfter(ramp, times[..last], fails[..last])
  }

  /** The last update of the run returns another value than it was given. */
  ghost predicate Changes(ramp: seq<Step>, times: seq<real>)
    requires times != []
  {
    DowntimeAfter(ramp, times) != DowntimeAfter(ramp, times[..|times| - 1])
  }

  /** The last update that changed the value, or -1. */
  ghost function LastChange(ramp: seq<Step>, times: seq<real>): (c: int)
    ensures -1 <= c < |times|
  {
    if times == [] then -1
    else if Changes(ramp, times) then |times| - 1
    else LastChange(ramp, times[..|times| - 1])
  }

  /** A value that could not be set is not tried again: the guest has the value returned
      if and only if the last change of it went through. It never has more, and what it
      has never falls. */
  lemma {:induction false} GuestLagsFailedChange(ramp: seq<Step>, downtime: nat, steps: nat, delay: nat,
                                                 times: seq<real>, fails: seq<bool>)
    requires IsRamp(ramp, downtime, steps, delay) && Nondecreasing(times) && |fails| == |times|
    ensures var guest, returned := GuestAfter(ramp, times, fails), DowntimeAfter(ramp, times);
            var change := LastChange(ramp, times);
      && (guest == returned <==> change == -1 || !fails[change])
      && (guest.Some? ==> returned.Some? && guest.value <= returned.value <= downtime)
      && (times != [] ==>
            var before := GuestAfter(ramp, times[..|times| - 1], fails[..|times| - 1]);
            before.Some? ==> guest.Some? && before.value <= guest.value)
    decreases |times|
  {
    if times != [] {
      var last := |times| - 1;
      GuestLagsFailedChange(ramp, downtime, steps, delay, times[..last], fails[..last]);
      DowntimeNeverFalls(ramp, downtime, steps, delay, times, last);
      assert times[..last + 1] == times;
    }
  }

  /** Two updates within the same step, the first of which fails: the value is returned
      twice and the guest is never given it. */
  lemma FailedChangeNotRetried()
    ensures var ramp: seq<Step> := [(0, 10), (5, 10)]; var times, fails := [1.0, 2.0], [true, false];
      && IsRamp(ramp, 10, 1, 5)
      && DowntimeAfter(ramp, times) == Some(10) && GuestAfter(ramp, times, fails) == None
  {
    var ramp: seq<Step> := [(0, 10), (5, 10)];
    var times, fails := [1.0, 2.0], [true, false];
    assert RampValue(10, 1, 0) == 10 && RampValue(10, 1, 1) == 10;
    assert ramp[..1] == [(0, 10)];
    assert StepAt(ramp, 1.0) == Some(10) && StepAt(ramp, 2.0) == Some(10);
    assert times[..1] == [1.0] && fails[..1] == [true];
    assert DowntimeAfter(ramp, times[..1]) == Some(10) && DowntimeAfter(ramp, times) == Some(10);
    assert GuestAfter(ramp, times[..1], fails[..1]) == GuestAfter(ramp, [], []);
  }
}
