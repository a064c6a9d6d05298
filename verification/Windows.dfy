/**
  What a power window measures, twice.

  `Integral` is the reference: it visits every nanosecond of [a, b) and charges it at the rate of the
  sample in force at that nanosecond.  `Measure` is what the sampler computes: one clipped rectangle
  per sample.  The two agree on every list in time order, and every property of a window (additivity,
  exact coverage, frozen pasts, what retention may change) is proved about the reference, once for
  all rates.
 */
module Windows {
  import opened Common
  import opened Samples

  /** What one nanosecond in a given state is worth. */
  type Rate = Option<Sample> -> real

  function ObservedTime(state: Option<Sample>): real {
    if state.Some? then 1.0 else 0.0
  }

  function ActiveTime(state: Option<Sample>): real {
    if state.Some? && state.value.Active() then 1.0 else 0.0
  }

  function Power(state: Option<Sample>): real {
    if state.Some? then state.value.powerW.Value() else 0.0
  }

  function ActivePower(state: Option<Sample>): real {
    if state.Some? && state.value.Active() then state.value.powerW.Value() else 0.0
  }

  datatype WindowSummary =
    WindowSummary(activeHours: real, totalHours: real, activeEnergyKWh: real, totalEnergyKWh: real) {
    function Plus(that: WindowSummary): WindowSummary {
      WindowSummary(activeHours + that.activeHours, totalHours + that.totalHours,
                    activeEnergyKWh + that.activeEnergyKWh, totalEnergyKWh + that.totalEnergyKWh)
    }
  }

  const NO_DATA := WindowSummary(0.0, 0.0, 0.0, 0.0)

  function Hours(ns: real): real {
    ns / NS_PER_HOUR
  }

  function KWh(wattNs: real): real {
    wattNs / NS_PER_HOUR / 1000.0
  }

  /** A rate held for n nanoseconds. */
  function Held(x: real, n: nat): real {
    if n == 0 then 0.0 else Held(x, n - 1) + x
  }

  lemma {:induction false} HeldIsProduct(x: real, n: nat)
    ensures Held(x, n) == x * n as real
  {
    if n > 0 {
      HeldIsProduct(x, n - 1);
    }
  }

  // ----- the reference -----

  function Integral(xs: seq<Sample>, rate: Rate, a: int, b: int): real
    decreases b - a
  {
    if b <= a then 0.0 else Integral(xs, rate, a, b - 1) + rate(StateAt(xs, b - 1))
  }

  function Summary(xs: seq<Sample>, start: int, end: int): WindowSummary {
    WindowSummary(Hours(Integral(xs, ActiveTime, start, end)), Hours(Integral(xs, ObservedTime, start, end)),
                  KWh(Integral(xs, ActivePower, start, end)), KWh(Integral(xs, Power, start, end)))
  }

  /** A window depends on the history only: lists that agree on every instant of it agree on it. */
  lemma {:induction false} IntegralCongruent(xs: seq<Sample>, ys: seq<Sample>, rate: Rate, a: int, b: int)
    requires forall t :: a <= t < b ==> StateAt(xs, t) == StateAt(ys, t)
    ensures Integral(xs, rate, a, b) == Integral(ys, rate, a, b)
    decreases b - a
  {
    if a < b {
      IntegralCongruent(xs, ys, rate, a, b - 1);
    }
  }

  lemma SummaryCongruent(xs: seq<Sample>, ys: seq<Sample>, a: int, b: int)
    requires forall t :: a <= t < b ==> StateAt(xs, t) == StateAt(ys, t)
    ensures Summary(xs, a, b) == Summary(ys, a, b)
  {
    IntegralCongruent(xs, ys, ActiveTime, a, b);
    IntegralCongruent(xs, ys, ObservedTime, a, b);
    IntegralCongruent(xs, ys, ActivePower, a, b);
    IntegralCongruent(xs, ys, Power, a, b);
  }

  lemma {:induction false} IntegralAdditive(xs: seq<Sample>, rate: Rate, a: int, m: int, b: int)
    requires a <= m <= b
    ensures Integral(xs, rate, a, b) == Integral(xs, rate, a, m) + Integral(xs, rate, m, b)
    decreases b - m
  {
    if m < b {
      IntegralAdditive(xs, rate, a, m, b - 1);
    }
  }

  /** A stretch under a single state is a rectangle. */
  lemma {:induction false} IntegralConstant(xs: seq<Sample>, rate: Rate, state: Option<Sample>, a: int, b: int)
    requires a <= b
    requires forall t :: a <= t < b ==> StateAt(xs, t) == state
    ensures Integral(xs, rate, a, b) == Held(rate(state), b - a)
    decreases b - a
  {
    if a < b {
      IntegralConstant(xs, rate, state, a, b - 1);
    }
  }

  lemma Stretch(xs: seq<Sample>, rate: Rate, state: Option<Sample>, worth: real, a: int, b: int, width: nat)
    requires rate(state) == worth && b == a + width && forall t :: a <= t < b ==> StateAt(xs, t) == state
    ensures Integral(xs, rate, a, b) == worth * width as real
  {
    IntegralConstant(xs, rate, state, a, b);
    HeldIsProduct(worth, width);
  }

  // ----- the sampler's loop -----

  /** The interval that iteration i credits: sample i until the next one, clipped to the window. */
  function From(xs: seq<Sample>, i: nat, start: int): int
    requires i < |xs|
  {
    Max(xs[i].at, start)
  }

  function To(xs: seq<Sample>, i: nat, end: int): int
    requires i < |xs|
  {
    if i + 1 < |xs| then Min(xs[i + 1].at, end) else end
  }

  /** What iteration i adds; an empty interval is skipped. */
  function Credit(xs: seq<Sample>, rate: Rate, i: nat, start: int, end: int): real
    requires i < |xs|
  {
    var width := To(xs, i, end) - From(xs, i, start);
    if width <= 0 then 0.0 else Held(rate(Some(xs[i])), width)
  }

  /** The accumulator for one rate after the first n iterations. */
  function Rectangles(xs: seq<Sample>, rate: Rate, n: nat, start: int, end: int): real
    requires n <= |xs|
  {
    if n == 0 then 0.0
    else Rectangles(xs, rate, n - 1, start, end) + Credit(xs, rate, n - 1, start, end)
  }

  /** A draw held for n nanoseconds, in kilowatt-hours. */
  function HeldKWh(watts: real, n: nat): real {
    KWh(Held(watts, n))
  }

  /** One loop iteration: `sample` held over [from, to). */
  function Credited(before: WindowSummary, sample: Sample, from: int, to: int): WindowSummary {
    if to <= from then before
    else
      var hours := Hours((to - from) as real);
      var energyKWh := HeldKWh(sample.powerW.Value(), to - from);
      before.Plus(if sample.Active() then WindowSummary(hours, hours, energyKWh, energyKWh)
                  else WindowSummary(0.0, hours, 0.0, energyKWh))
  }

  /** The accumulated summary after n iterations. */
  function Progress(xs: seq<Sample>, n: nat, start: int, end: int): WindowSummary
    requires n <= |xs|
  {
    if n == 0 then NO_DATA
    else Credited(Progress(xs, n - 1, start, end), xs[n - 1], From(xs, n - 1, start), To(xs, n - 1, end))
  }

  function Measure(xs: seq<Sample>, start: int, end: int): WindowSummary {
    Progress(xs, |xs|, start, end)
  }

  lemma {:induction false} ProgressIsRectangles(xs: seq<Sample>, n: nat, start: int, end: int)
    requires n <= |xs|
    ensures Progress(xs, n, start, end)
         == WindowSummary(Hours(Rectangles(xs, ActiveTime, n, start, end)),
             Hours(Rectangles(xs, ObservedTime, n, start, end)),
                          KWh(Rectangles(xs, ActivePower, n, start, end)), KWh(Rectangles(xs, Power, n, start, end)))
  {
    if n > 0 {
      ProgressIsRectangles(xs, n - 1, start, end);
      Credits(xs, n - 1, start, end);
    }
  }

  lemma Credits(xs: seq<Sample>, i: nat, start: int, end: int)
    requires i < |xs|
    ensures var width, watts := Max(0, To(xs, i, end) - From(xs, i, start)), xs[i].powerW.Value();
            && Credit(xs, ObservedTime, i, start, end) == width as real
            && Credit(xs, ActiveTime, i, start, end) == (if xs[i].Active() then width as real else 0.0)
            && Credit(xs, Power, i, start, end) == Held(watts, width)
            && Credit(xs, ActivePower, i, start, end) == (if xs[i].Active() then Held(watts, width) else 0.0)
  {
    var width := Max(0, To(xs, i, end) - From(xs, i, start));
    HeldIsProduct(1.0, width);
    HeldIsProduct(0.0, width);
  }

  /** The loop's arithmetic, seconds to hours and watt-hours to kilowatt-hours. */
  lemma LoopUnits(watts: real, ns: nat)
    ensures ns as real / 1_000_000_000.0 / 3600.0 == Hours(ns as real)
    ensures watts * (ns as real / 1_000_000_000.0 / 3600.0) / 1000.0 == HeldKWh(watts, ns)
  {
    HeldIsProduct(watts, ns);
  }

  /** The instant up to which the first n iterations have accounted for the window. */
  function Reach(xs: seq<Sample>, n: nat, end: int): int
    requires n <= |xs|
  {
    if n < |xs| then Min(xs[n].at, end) else end
  }

  lemma {:induction false} RectanglesReach(xs: seq<Sample>, rate: Rate, n: nat, start: int, end: int)
    requires Ascending(xs) && 0 < |xs| && n <= |xs|
    requires rate(None) == 0.0
    ensures Rectangles(xs, rate, n, start, end) == Integral(xs, rate, start, Reach(xs, n, end))
  {
    if n == 0 {
      Unobserved(xs, rate, start, Reach(xs, 0, end));
    } else {
      RectanglesReach(xs, rate, n - 1, start, end);
      OneRectangle(xs, rate, n - 1, start, end);
    }
  }

  lemma Unobserved(xs: seq<Sample>, rate: Rate, a: int, b: int)
    requires Ascending(xs) && (xs == [] || b <= xs[0].at)
    requires rate(None) == 0.0
    ensures Integral(xs, rate, a, b) == 0.0
  {
    if a < b {
      forall t | a <= t < b ensures StateAt(xs, t) == None {
        UnknownBeforeFirst(xs, t);
      }
      IntegralConstant(xs, rate, None, a, b);
      HeldIsProduct(0.0, b - a);
    }
  }

  lemma OneRectangle(xs: seq<Sample>, rate: Rate, i: nat, start: int, end: int)
    requires Ascending(xs) && i < |xs|
    ensures Integral(xs, rate, start, Reach(xs, i + 1, end))
         == Integral(xs, rate, start, Reach(xs, i, end))
            + Credit(xs, rate, i, start, end)
  {
    var from, to := From(xs, i, start), To(xs, i, end);
    AscendingPair(xs, i, Min(i + 1, |xs| - 1));
    if from < to {
      forall t | from <= t < to ensures StateAt(xs, t) == Some(xs[i]) {
        StateAtIs(xs, i, t);
      }
      IntegralConstant(xs, rate, Some(xs[i]), from, to);
      IntegralAdditive(xs, rate, start, from, to);
    }
  }

  /** The loop computes the pointwise integral of every list in time order. */
  lemma MeasureIsIntegral(xs: seq<Sample>, start: int, end: int)
    requires Ascending(xs)
    ensures Measure(xs, start, end) == Summary(xs, start, end)
  {
    ProgressIsRectangles(xs, |xs|, start, end);
    if xs == [] {
      NothingObserved(start, end);
    } else {
      RectanglesReach(xs, ActiveTime, |xs|, start, end);
      RectanglesReach(xs, ObservedTime, |xs|, start, end);
      RectanglesReach(xs, ActivePower, |xs|, start, end);
      RectanglesReach(xs, Power, |xs|, start, end);
    }
  }

  // ----- in the fields of a sample -----

  /**
    As long as one sample is in force, a window says how long that was, and what its draw makes of that; it is
    active if and only if the draw is above the sample's own threshold.
   */
  lemma SteadyWindow(xs: seq<Sample>, s: Sample, a: int, b: int) returns (w: WindowSummary)
    requires Ascending(xs) && a <= b && forall t :: a <= t < b ==> StateAt(xs, t) == Some(s)
    ensures w == Measure(xs, a, b)
    ensures var hours, watts := (b - a) as real / 3_600_000_000_000.0, s.powerW.Value();
            var energyKWh, active := watts * hours / 1000.0, watts > s.activeW.Value();
            && w.totalHours == hours && w.totalEnergyKWh == energyKWh
            && w.activeHours == (if active then hours else 0.0)
            && w.activeEnergyKWh == (if active then energyKWh else 0.0)
  {
    w := SteadySummary(xs, s, a, b);
    MeasureIsIntegral(xs, a, b);
  }

  lemma SteadySummary(xs: seq<Sample>, s: Sample, a: int, b: int) returns (w: WindowSummary)
    requires a <= b && forall t :: a <= t < b ==> StateAt(xs, t) == Some(s)
    ensures w == Summary(xs, a, b)
    ensures var hours, watts := (b - a) as real / 3_600_000_000_000.0, s.powerW.Value();
            var energyKWh, active := watts * hours / 1000.0, watts > s.activeW.Value();
            && w.totalHours == hours && w.totalEnergyKWh == energyKWh
            && w.activeHours == (if active then hours else 0.0)
            && w.activeEnergyKWh == (if active then energyKWh else 0.0)
  {
    SteadyActive(xs, s, a, b);
    SteadyHours(xs, s, ObservedTime, 1.0, a, b);
    SteadyKWh(xs, s, Power, s.powerW.Value(), a, b);
    w := Summary(xs, a, b);
  }

  lemma SteadyActive(xs: seq<Sample>, s: Sample, a: int, b: int)
    requires a <= b && forall t :: a <= t < b ==> StateAt(xs, t) == Some(s)
    ensures var hours, watts := (b - a) as real / 3_600_000_000_000.0, s.powerW.Value();
            var active := watts > s.activeW.Value();
            && Hours(Integral(xs, ActiveTime, a, b)) == (if active then hours else 0.0)
            && KWh(Integral(xs, ActivePower, a, b)) == (if active then watts * hours / 1000.0 else 0.0)
  {
    var active := s.powerW.Value() > s.activeW.Value();
    SteadyHours(xs, s, ActiveTime, if active then 1.0 else 0.0, a, b);
    SteadyKWh(xs, s, ActivePower, if active then s.powerW.Value() else 0.0, a, b);
  }

  lemma SteadyHours(xs: seq<Sample>, s: Sample, rate: Rate, worth: real, a: int, b: int)
    requires a <= b && rate(Some(s)) == worth && forall t :: a <= t < b ==> StateAt(xs, t) == Some(s)
    ensures Hours(Integral(xs, rate, a, b)) == worth * ((b - a) as real / 3_600_000_000_000.0)
  {
    Stretch(xs, rate, Some(s), worth, a, b, b - a);
  }

  lemma SteadyKWh(xs: seq<Sample>, s: Sample, rate: Rate, worth: real, a: int, b: int)
    requires a <= b && rate(Some(s)) == worth && forall t :: a <= t < b ==> StateAt(xs, t) == Some(s)
    ensures KWh(Integral(xs, rate, a, b)) == worth * ((b - a) as real / 3_600_000_000_000.0) / 1000.0
  {
    Stretch(xs, rate, Some(s), worth, a, b, b - a);
  }

  /** A window after a single sample. */
  lemma MeasureOfOne(s: Sample, a: int, b: int) returns (w: WindowSummary)
    requires s.at <= a <= b
    ensures w == Measure([s], a, b)
    ensures var hours, watts := (b - a) as real / 3_600_000_000_000.0, s.powerW.Value();
            && w.activeHours == (if watts > s.activeW.Value() then hours else 0.0)
            && w.activeEnergyKWh == (if watts > s.activeW.Value() then watts * hours / 1000.0 else 0.0)
  {
    w := SteadyWindow([s], s, a, b);
  }

  /** The instants of a window at which the sample in force draws more than its own threshold. */
  ghost function ActiveInstants(xs: seq<Sample>, a: int, b: int): set<int> {
    set t | a <= t < b && StateAt(xs, t).Some?
            && StateAt(xs, t).value.powerW.Value() > StateAt(xs, t).value.activeW.Value()
  }

  /** Active time is the number of those instants. */
  lemma ActiveTimeIsCounted(xs: seq<Sample>, a: int, b: int)
    requires Ascending(xs)
    ensures Measure(xs, a, b).activeHours == |ActiveInstants(xs, a, b)| as real / 3_600_000_000_000.0
  {
    MeasureIsIntegral(xs, a, b);
    ActiveCount(xs, a, b);
  }

  /** The draws of those instants, nanosecond by nanosecond. */
  ghost function ActiveWatts(xs: seq<Sample>, a: int, b: int): real
    decreases b - a
  {
    if b <= a then 0.0
    else
      var state := StateAt(xs, b - 1);
      ActiveWatts(xs, a, b - 1)
      + if state.Some? && state.value.powerW.Value() > state.value.activeW.Value() then state.value.powerW.Value()
        else 0.0
  }

  /** Active energy is their sum. */
  lemma ActiveEnergyIsSummed(xs: seq<Sample>, a: int, b: int)
    requires Ascending(xs)
    ensures Measure(xs, a, b).activeEnergyKWh == ActiveWatts(xs, a, b) / 3_600_000_000_000.0 / 1000.0
  {
    MeasureIsIntegral(xs, a, b);
    ActiveSum(xs, a, b);
  }

  lemma {:induction false} ActiveSum(xs: seq<Sample>, a: int, b: int)
    ensures Integral(xs, ActivePower, a, b) == ActiveWatts(xs, a, b)
    decreases b - a
  {
    if a < b {
      ActiveSum(xs, a, b - 1);
    }
  }

  lemma {:induction false} ActiveCount(xs: seq<Sample>, a: int, b: int)
    ensures Integral(xs, ActiveTime, a, b) == |ActiveInstants(xs, a, b)| as real
    decreases b - a
  {
    if a < b {
      ActiveCount(xs, a, b - 1);
      var before := ActiveInstants(xs, a, b - 1);
      if b - 1 in ActiveInstants(xs, a, b) {
        assert ActiveInstants(xs, a, b) == before + {b - 1};
      } else {
        assert ActiveInstants(xs, a, b) == before;
      }
    } else {
      assert ActiveInstants(xs, a, b) == {};
    }
  }

  // ----- what a window can say -----

  /** Adjacent windows add up, field by field. */
  lemma WindowsAreAdditive(xs: seq<Sample>, a: int, m: int, b: int)
    requires a <= m <= b
    ensures Summary(xs, a, b) == Summary(xs, a, m).Plus(Summary(xs, m, b))
  {
    IntegralAdditive(xs, ActiveTime, a, m, b);
    IntegralAdditive(xs, ObservedTime, a, m, b);
    IntegralAdditive(xs, ActivePower, a, m, b);
    IntegralAdditive(xs, Power, a, m, b);
  }

  /** Nothing is credited before the first sample. */
  lemma CreditedFromFirst(xs: seq<Sample>, rate: Rate, a: int, b: int)
    requires Ascending(xs) && xs != [] && rate(None) == 0.0
    ensures Integral(xs, rate, a, b) == Integral(xs, rate, Max(a, xs[0].at), b)
  {
    var first := xs[0].at;
    if b <= first {
      Unobserved(xs, rate, a, b);
    } else if a < first {
      Unobserved(xs, rate, a, first);
      IntegralAdditive(xs, rate, a, first, b);
    }
  }

  lemma SummaryFromFirst(xs: seq<Sample>, a: int, b: int)
    requires Ascending(xs) && xs != []
    ensures Summary(xs, a, b) == Summary(xs, Max(a, xs[0].at), b)
  {
    CreditedFromFirst(xs, ActiveTime, a, b);
    CreditedFromFirst(xs, ObservedTime, a, b);
    CreditedFromFirst(xs, ActivePower, a, b);
    CreditedFromFirst(xs, Power, a, b);
  }

  /** Observed time is exactly the part of the window after the first sample. */
  lemma ObservedIsExact(xs: seq<Sample>, a: int, b: int)
    requires Ascending(xs)
    ensures Summary(xs, a, b).totalHours
         == if xs == [] then 0.0 else Hours(Max(0, b - Max(a, xs[0].at)) as real)
  {
    if xs == [] {
      Unobserved(xs, ObservedTime, a, b);
    } else {
      CreditedFromFirst(xs, ObservedTime, a, b);
      CoveredTime(xs, Max(a, xs[0].at), b);
    }
  }

  lemma {:induction false} CoveredTime(xs: seq<Sample>, a: int, b: int)
    requires Ascending(xs) && xs != [] && xs[0].at <= a
    ensures Integral(xs, ObservedTime, a, b) == Max(0, b - a) as real
    decreases b - a
  {
    if a < b {
      CoveredTime(xs, a, b - 1);
      UnknownBeforeFirst(xs, b - 1);
    }
  }

  /** A rate that never exceeds another accumulates no more. */
  lemma {:induction false} IntegralMonotone(xs: seq<Sample>, low: Rate, high: Rate, a: int, b: int)
    requires forall t :: a <= t < b ==> low(StateAt(xs, t)) <= high(StateAt(xs, t))
    ensures Integral(xs, low, a, b) <= Integral(xs, high, a, b)
    decreases b - a
  {
    if a < b {
      IntegralMonotone(xs, low, high, a, b - 1);
    }
  }

  /** Active time never exceeds observed time, nor observed time the window. */
  lemma ActiveWithinObserved(xs: seq<Sample>, a: int, b: int)
    ensures 0.0 <= Summary(xs, a, b).activeHours <= Summary(xs, a, b).totalHours <= Hours(Max(0, b - a) as real)
  {
    Bounded(xs, ActiveTime, a, b);
    Bounded(xs, ObservedTime, a, b);
    IntegralMonotone(xs, ActiveTime, ObservedTime, a, b);
  }

  lemma {:induction false} Bounded(xs: seq<Sample>, rate: Rate, a: int, b: int)
    requires forall t :: a <= t < b ==> 0.0 <= rate(StateAt(xs, t)) <= 1.0
    ensures 0.0 <= Integral(xs, rate, a, b) <= Max(0, b - a) as real
    decreases b - a
  {
    if a < b {
      Bounded(xs, rate, a, b - 1);
    }
  }

  /** A window that has ended is not touched by samples taken at or after its end, whatever thresholds they carry. */
  lemma PastIsFrozen(xs: seq<Sample>, later: seq<Sample>, a: int, b: int)
    requires forall s :: s in later ==> b <= s.at
    ensures Summary(xs + later, a, b) == Summary(xs, a, b)
  {
    forall t | a <= t < b ensures StateAt(xs + later, t) == StateAt(xs, t) {
      LaterSamplesInvisible(xs, later, t);
    }
    SummaryCongruent(xs + later, xs, a, b);
  }

  lemma {:induction false} LaterSamplesInvisible(xs: seq<Sample>, later: seq<Sample>, t: int)
    requires forall s :: s in later ==> t < s.at
    ensures StateAt(xs + later, t) == StateAt(xs, t)
  {
    if later == [] {
      assert xs + later == xs;
    } else {
      var n := |later| - 1;
      assert later[n] in later;
      assert (xs + later)[..|xs| + n] == xs + later[..n];
      LaterSamplesInvisible(xs, later[..n], t);
    }
  }

  /** Where a retained list sees anything, it sees what the full history sees. */
  lemma RetainedAgrees(kept: seq<Sample>, xs: seq<Sample>, cutoff: int, a: int, b: int)
    requires Ascending(kept) && Ascending(xs) && kept != [] && kept[0].at <= a
    requires SameSteps(kept, Since(xs, cutoff))
    ensures Summary(kept, a, b) == Summary(xs, a, b)
  {
    forall t | a <= t < b ensures StateAt(kept, t) == StateAt(xs, t) {
      UnknownBeforeFirst(kept, t);
      StateAtSince(xs, cutoff, t);
    }
    SummaryCongruent(kept, xs, a, b);
  }

  /** Dropping samples before a cut-off only removes the gap before the first sample that is kept. */
  lemma RetentionRemovesOnlyTheGap(xs: seq<Sample>, cutoff: int, a: int, b: int)
    requires Ascending(xs)
    ensures var kept := Since(xs, cutoff);
            Summary(kept, a, b) == if kept == [] then NO_DATA else Summary(xs, Max(a, kept[0].at), b)
  {
    var kept := Since(xs, cutoff);
    SinceAscending(xs, cutoff);
    if kept == [] {
      NothingObserved(a, b);
    } else {
      SummaryFromFirst(kept, a, b);
      RetainedAgrees(kept, xs, cutoff, Max(a, kept[0].at), b);
    }
  }

  lemma NothingObserved(a: int, b: int)
    ensures Summary([], a, b) == NO_DATA
  {
    Unobserved([], ActiveTime, a, b);
    Unobserved([], ObservedTime, a, b);
    Unobserved([], ActivePower, a, b);
    Unobserved([], Power, a, b);
  }
}
