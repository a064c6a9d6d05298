/**
  The figures of one usage report, computed from a power window, the hourly cost and the token total,
  and how its three prices per million tokens relate: marginal, active-hours, fully loaded.
 */
module ReportCosts {
  import opened Common
  import opened Samples
  import opened Windows
  import opened Calculator

  datatype Electricity = Electricity(ratePerKWh: real, pueFactor: real)

  datatype Figures = Figures(totalCost: real, costPerMillion: real, marginalCostPerMillion: real,
                             activeHoursCostPerMillion: real, activeEnergyKWh: real, activeHours: real,
                             utilizationPercent: real, gpuEfficiency: real, hoursInPeriod: real)

  /** The length of a period in hours, with the floor that keeps later divisions safe. */
  function HoursInPeriod(start: int, end: int): real {
    var hours := Hours((end - start) as real);
    if hours < 0.001 then 0.001 else hours
  }

  /** The figures of a report; without a sampler the window is `None`. */
  method ComputeFigures(hourlyCost: real, power: Electricity, window: Option<WindowSummary>,
                        hoursInPeriod: real, totalTokens: int)
    returns (f: Figures)
    requires hoursInPeriod > 0.0
    ensures f.hoursInPeriod == hoursInPeriod && f.totalCost == hourlyCost * hoursInPeriod
    ensures f.costPerMillion == FullyLoaded(hourlyCost, hoursInPeriod, totalTokens)
    ensures f.activeHoursCostPerMillion
         == ActiveHoursCostPerMillion(hourlyCost, f.activeHours, hoursInPeriod, totalTokens)
    ensures f.marginalCostPerMillion == Marginal(power, f.activeEnergyKWh, totalTokens)
    ensures (f.activeHours, f.activeEnergyKWh)
         == if window.Some? then (window.value.activeHours, window.value.activeEnergyKWh) else (0.0, 0.0)
    ensures f.utilizationPercent == f.gpuEfficiency * 100.0 && f.gpuEfficiency * hoursInPeriod == f.activeHours
  {
    var totalCost := hourlyCost * hoursInPeriod;
    var costPerMillion := 0.0;
    if totalTokens > 0 {
      costPerMillion := totalCost / (totalTokens as real / MILLION);
    }
    var activeHours, utilizationPercent, gpuEfficiency := 0.0, 0.0, 0.0;
    var activeEnergyKWh, marginalCostPerMillion := 0.0, 0.0;
    if window.Some? {
      activeHours := window.value.activeHours;
      activeEnergyKWh := window.value.activeEnergyKWh;
      if hoursInPeriod > 0.0 {
        utilizationPercent := activeHours / hoursInPeriod * 100.0;
        gpuEfficiency := activeHours / hoursInPeriod;
      }
      if totalTokens > 0 && activeEnergyKWh > 0.0 {
        var pue := power.pueFactor;
        if pue <= 0.0 {
          pue := 1.0;
        }
        var marginalCostUSD := activeEnergyKWh * power.ratePerKWh * pue;
        marginalCostPerMillion := marginalCostUSD / (totalTokens as real / MILLION);
      }
    }
    var activeHoursCost := ActiveHoursCostPerMillion(hourlyCost, activeHours, hoursInPeriod, totalTokens);
    f := Figures(totalCost, costPerMillion, marginalCostPerMillion, activeHoursCost, activeEnergyKWh, activeHours,
                 utilizationPercent, gpuEfficiency, hoursInPeriod);
  }

  /** The whole cost of the period, per million tokens. */
  function FullyLoaded(hourlyCost: real, hoursInPeriod: real, totalTokens: int): real {
    if totalTokens > 0 then hourlyCost * hoursInPeriod / (totalTokens as real / MILLION) else 0.0
  }

  /** What some energy costs, overhead included. */
  function Bill(power: Electricity, energyKWh: real): real {
    energyKWh * power.ratePerKWh * EffectivePue(power.pueFactor)
  }

  /** The electricity of active serving, per million tokens. */
  function Marginal(power: Electricity, activeEnergyKWh: real, totalTokens: int): real {
    if totalTokens > 0 && activeEnergyKWh > 0.0
    then Bill(power, activeEnergyKWh) / (totalTokens as real / MILLION)
    else 0.0
  }

  // ----- utilization -----

  /** Utilization is a percentage, for every history, period and first sample, the floor included. */
  lemma UtilizationIsAPercentage(xs: seq<Sample>, start: int, from: int, end: int)
    requires start <= from
    ensures 0.0 <= Summary(xs, from, end).activeHours / HoursInPeriod(start, end) * 100.0 <= 100.0
  {
    var active, hours := Summary(xs, from, end).activeHours, HoursInPeriod(start, end);
    ActiveWithinObserved(xs, from, end);
    PositiveQuotient(active, hours);
    DivideOut(1.0, hours, active);
  }

  // ----- active-hours against fully loaded -----

  lemma PerMillionMonotone(x: real, y: real, totalTokens: int)
    requires totalTokens > 0
    ensures x / (totalTokens as real / MILLION) <= y / (totalTokens as real / MILLION) <==> x <= y
  {
  }

  /**
    The active-hours price does not exceed the fully loaded one exactly when there are no tokens to price or
    the hardware has no negative cost.
   */
  lemma ActiveHoursAtMostFullyLoaded(hourlyCost: real, activeHours: real, hours: real, totalTokens: int)
    requires hours > 0.0
    ensures ActiveHoursCostPerMillion(hourlyCost, activeHours, hours, totalTokens) <=
        FullyLoaded(hourlyCost, hours, totalTokens)
       <==> totalTokens <= 0 || hourlyCost >= 0.0
  {
  }

  /** The two prices are the same exactly when active hours fill the period (or there is nothing to price). */
  lemma EqualWhenAlwaysActive(hourlyCost: real, activeHours: real, hours: real, totalTokens: int)
    requires hours > 0.0
    ensures ActiveHoursCostPerMillion(hourlyCost, activeHours, hours, totalTokens) ==
        FullyLoaded(hourlyCost, hours, totalTokens)
       <==> totalTokens <= 0 || hourlyCost == 0.0 || (hourlyCost > 0.0 && activeHours >= hours)
  {
  }

  /**
    The active-hours price is the fully loaded one in proportion to the active part of the period, exactly
    when the hourly cost is not negative (or there is nothing to price).
   */
  lemma ActiveHoursIsProportional(hourlyCost: real, activeHours: real, hours: real, totalTokens: int)
    requires hours > 0.0 && activeHours >= 0.0
    ensures ActiveHoursCostPerMillion(hourlyCost, activeHours, hours, totalTokens) * hours
         == FullyLoaded(hourlyCost, hours, totalTokens) * (if activeHours > hours then hours else activeHours)
       <==> totalTokens <= 0 || activeHours == 0.0 || hourlyCost >= 0.0
  {
    var effective := if activeHours > hours then hours else activeHours;
    if totalTokens > 0 {
      var millions := totalTokens as real / MILLION;
      assert hourlyCost * effective / millions * hours == hourlyCost * hours / millions * effective;
      if hourlyCost < 0.0 && effective > 0.0 {
        NegativeShare(hourlyCost * hours, millions, effective);
      }
    }
  }

  lemma NegativeShare(cost: real, millions: real, effective: real)
    requires cost < 0.0 && millions > 0.0 && effective > 0.0
    ensures cost / millions * effective < 0.0
  {
  }

  // ----- marginal against active-hours -----

  /** What an hour at a given draw costs in electricity. */
  function ElectricityPerHour(power: Electricity, watts: real): real {
    watts / 1000.0 * power.ratePerKWh * EffectivePue(power.pueFactor)
  }

  /** What an active hour is charged: a negative hourly cost counts as none. */
  function Charged(hourlyCost: real): real {
    if hourlyCost <= 0.0 then 0.0 else hourlyCost
  }

  /** The hourly cost covers the electricity of this state, if it is an active one that draws power. */
  predicate Affordable(power: Electricity, hourlyCost: real, state: Option<Sample>) {
    state.Some? && state.value.Active() && state.value.powerW.Value() > 0.0 ==>
      ElectricityPerHour(power, state.value.powerW.Value()) <= Charged(hourlyCost)
  }

  /** What an hour costs per watt drawn. */
  function PerWatt(power: Electricity): real {
    power.ratePerKWh * EffectivePue(power.pueFactor) / 1000.0
  }

  predicate Within(perWatt: real, hourlyCost: real, watts: real, active: real) {
    perWatt * watts <= hourlyCost * active
  }

  lemma {:induction false} EnergyWithinHours(xs: seq<Sample>, power: Electricity, hourlyCost: real, a: int, b: int)
    requires PerWatt(power) >= 0.0 && forall t :: a <= t < b ==> Affordable(power, hourlyCost, StateAt(xs, t))
    ensures Within(PerWatt(power), Charged(hourlyCost), Integral(xs, ActivePower, a, b), Integral(xs, ActiveTime, a, b))
    decreases b - a
  {
    if a < b {
      EnergyWithinHours(xs, power, hourlyCost, a, b - 1);
      var state := StateAt(xs, b - 1);
      AffordableNanosecond(power, hourlyCost, state);
      Accumulate(PerWatt(power), Charged(hourlyCost), Integral(xs, ActivePower, a, b - 1),
                 Integral(xs, ActiveTime, a, b - 1), ActivePower(state), ActiveTime(state));
    }
  }

  lemma AffordableNanosecond(power: Electricity, hourlyCost: real, state: Option<Sample>)
    requires PerWatt(power) >= 0.0 && Affordable(power, hourlyCost, state)
    ensures Within(PerWatt(power), Charged(hourlyCost), ActivePower(state), ActiveTime(state))
  {
  }

  lemma Accumulate(perWatt: real, hourlyCost: real, watts: real, active: real, moreWatts: real, moreActive: real)
    requires Within(perWatt, hourlyCost, watts, active) && Within(perWatt, hourlyCost, moreWatts, moreActive)
    ensures Within(perWatt, hourlyCost, watts + moreWatts, active + moreActive)
  {
  }

  /** Energy times price, from the energy's integral. */
  lemma EnergyBill(power: Electricity, wattNs: real)
    ensures Bill(power, KWh(wattNs)) == ElectricityPerHour(power, wattNs) / NS_PER_HOUR
  {
  }

  ghost predicate MarginalAtMostActiveHours(xs: seq<Sample>, power: Electricity, hourlyCost: real, totalTokens: int,
        a: int, b: int) {
    Marginal(power, Summary(xs, a, b).activeEnergyKWh, totalTokens)
    <= ActiveHoursCostPerMillion(hourlyCost, Summary(xs, a, b).activeHours, HoursInPeriod(a, b), totalTokens)
  }

  /** In a window whose active draws the hourly cost covers, marginal does not exceed active-hours. */
  lemma MarginalOrdering(xs: seq<Sample>, power: Electricity, hourlyCost: real, totalTokens: int, a: int, b: int)
    requires forall t :: a <= t < b ==> Affordable(power, hourlyCost, StateAt(xs, t))
    ensures MarginalAtMostActiveHours(xs, power, hourlyCost, totalTokens, a, b)
  {
    ActiveWithinObserved(xs, a, b);
    var w := Summary(xs, a, b);
    if PerWatt(power) >= 0.0 {
      WindowBill(xs, power, hourlyCost, a, b);
      PricesOrdered(power, hourlyCost, totalTokens, w.activeEnergyKWh, w.activeHours, HoursInPeriod(a, b));
    } else {
      PaidToDraw(power, hourlyCost, totalTokens, w.activeEnergyKWh, w.activeHours, HoursInPeriod(a, b));
    }
  }

  /** With a negative rate no energy costs anything. */
  lemma PaidToDraw(power: Electricity, hourlyCost: real, totalTokens: int, energyKWh: real, activeHours: real,
                   hours: real)
    requires PerWatt(power) <= 0.0 && hours > 0.0
    ensures Marginal(power, energyKWh, totalTokens) <= 0.0 <=
        ActiveHoursCostPerMillion(hourlyCost, activeHours, hours, totalTokens)
  {
    if totalTokens > 0 && energyKWh > 0.0 {
      assert Bill(power, energyKWh) == PerWatt(power) * 1000.0 * energyKWh;
    }
  }

  lemma WindowBill(xs: seq<Sample>, power: Electricity, hourlyCost: real, a: int, b: int)
    requires PerWatt(power) >= 0.0 && forall t :: a <= t < b ==> Affordable(power, hourlyCost, StateAt(xs, t))
    ensures Bill(power, Summary(xs, a, b).activeEnergyKWh) <= Charged(hourlyCost) * Summary(xs, a, b).activeHours
  {
    EnergyWithinHours(xs, power, hourlyCost, a, b);
    BillWithin(power, Charged(hourlyCost), Integral(xs, ActivePower, a, b), Integral(xs, ActiveTime, a, b));
  }

  lemma BillWithin(power: Electricity, hourlyCost: real, energy: real, active: real)
    requires Within(PerWatt(power), hourlyCost, energy, active)
    ensures Bill(power, KWh(energy)) <= hourlyCost * Hours(active)
  {
  }

  lemma PricesOrdered(power: Electricity, hourlyCost: real, totalTokens: int, energyKWh: real, activeHours: real,
                      hours: real)
    requires 0.0 <= activeHours <= hours && Bill(power, energyKWh) <= Charged(hourlyCost) * activeHours
    ensures Marginal(power, energyKWh, totalTokens) <=
        ActiveHoursCostPerMillion(hourlyCost, activeHours, hours, totalTokens)
  {
  }

  /** An active nanosecond the hourly cost does not cover is a window in which marginal exceeds active-hours. */
  lemma UnaffordableNanosecond(xs: seq<Sample>, power: Electricity, hourlyCost: real, totalTokens: int, t: int)
    requires totalTokens > 0 && !Affordable(power, hourlyCost, StateAt(xs, t))
    ensures !MarginalAtMostActiveHours(xs, power, hourlyCost, totalTokens, t, t + 1)
  {
    var watts, charged := StateAt(xs, t).value.powerW.Value(), Charged(hourlyCost);
    var w := Summary(xs, t, t + 1);
    OneNanosecond(xs, ActivePower, t);
    OneNanosecond(xs, ActiveTime, t);
    assert w.activeEnergyKWh == KWh(watts) && w.activeHours == Hours(1.0);
    EnergyBill(power, watts);
    PositiveQuotient(ElectricityPerHour(power, watts) - charged, NS_PER_HOUR);
    var bill := Bill(power, KWh(watts));
    assert bill > charged * Hours(1.0);
    PerMillionMonotone(bill, charged * Hours(1.0), totalTokens);
    assert HoursInPeriod(t, t + 1) == 0.001;
  }

  lemma OneNanosecond(xs: seq<Sample>, rate: Rate, t: int)
    ensures Integral(xs, rate, t, t + 1) == rate(StateAt(xs, t))
  {
  }

  /** The marginal price is what the calculator charges in electricity for the same energy at any draw. */
  lemma MarginalIsTheElectricity(hw: HardwareCosts, watts: real, hours: real, totalTokens: int)
    requires hw.amortizationYears > 0 && hw.pueFactor >= 0.0 && watts > 0.0 && hours > 0.0 && totalTokens > 0
    ensures Marginal(Electricity(hw.ratePerKWh, hw.pueFactor), watts * hours / 1000.0, totalTokens)
            * (totalTokens as real / 1_000_000.0)
         == ComputeHourlyCost(hw, watts).electricity * hours
  {
    var energy, millions := watts * hours / 1000.0, totalTokens as real / 1_000_000.0;
    PositiveQuotient(watts * hours, 1000.0);
    var bill := Bill(Electricity(hw.ratePerKWh, hw.pueFactor), energy);
    assert bill / millions * millions == bill;
  }

  /** The fully loaded price charges the whole period: price times tokens is hourly cost times hours. */
  lemma FullyLoadedIsThePeriod(hourlyCost: real, hours: real, totalTokens: int)
    ensures FullyLoaded(hourlyCost, hours, totalTokens) * (totalTokens as real / 1_000_000.0)
         == if totalTokens > 0 then hourlyCost * hours else 0.0
  {
    var millions := totalTokens as real / 1_000_000.0;
    if totalTokens > 0 {
      assert hourlyCost * hours / millions * millions == hourlyCost * hours;
    }
  }

  /** A period's hours are its nanoseconds, but never less than 3.6 seconds. */
  lemma PeriodHours(start: int, end: int)
    ensures HoursInPeriod(start, end) * 3_600_000_000_000.0
         == if end - start < 3_600_000_000 then 3_600_000_000.0 else (end - start) as real
  {
  }

  // ----- the three prices of one report -----

  /** The mean draw of the active hours, which is what a report knows of them. */
  function MeanActiveWatts(w: WindowSummary): real {
    if w.activeHours > 0.0 then w.activeEnergyKWh * 1000.0 / w.activeHours else 0.0
  }

  /** Marginal at most active-hours at most fully loaded, for one window. */
  predicate InOrder(w: WindowSummary, power: Electricity, hourlyCost: real, hours: real, totalTokens: int) {
    Marginal(power, w.activeEnergyKWh, totalTokens)
    <= ActiveHoursCostPerMillion(hourlyCost, w.activeHours, hours, totalTokens)
    <= FullyLoaded(hourlyCost, hours, totalTokens)
  }

  /** The hardware has no negative cost, and an hour of it covers the electricity of an hour at the mean active draw. */
  predicate Covered(w: WindowSummary, power: Electricity, hourlyCost: real, totalTokens: int) {
    totalTokens > 0 ==>
      hourlyCost >= 0.0 && (w.activeEnergyKWh > 0.0 ==> ElectricityPerHour(power, MeanActiveWatts(w)) <= hourlyCost)
  }

  /** A summary that a window can have: active hours within the period, and no active energy without them. */
  predicate Plausible(w: WindowSummary, hours: real) {
    0.0 <= w.activeHours <= hours && (w.activeEnergyKWh > 0.0 ==> w.activeHours > 0.0)
  }

  lemma InOrderIff(w: WindowSummary, power: Electricity, hourlyCost: real, hours: real, totalTokens: int)
    requires hours > 0.0 && Plausible(w, hours)
    ensures InOrder(w, power, hourlyCost, hours, totalTokens) <==> Covered(w, power, hourlyCost, totalTokens)
  {
    if totalTokens > 0 {
      ActiveHoursAtMostFullyLoaded(hourlyCost, w.activeHours, hours, totalTokens);
      if hourlyCost >= 0.0 && w.activeEnergyKWh > 0.0 {
        BillOfTheMean(power, w);
        DivideOut(hourlyCost, w.activeHours, Bill(power, w.activeEnergyKWh));
        PerMillionMonotone(Bill(power, w.activeEnergyKWh), hourlyCost * w.activeHours, totalTokens);
      }
    }
  }

  lemma BillOfTheMean(power: Electricity, w: WindowSummary)
    requires w.activeHours > 0.0
    ensures ElectricityPerHour(power, MeanActiveWatts(w)) == Bill(power, w.activeEnergyKWh) / w.activeHours
  {
  }

  lemma {:induction false} NoTimeNoEnergy(xs: seq<Sample>, a: int, b: int)
    ensures Integral(xs, ActiveTime, a, b) >= 0.0
    ensures Integral(xs, ActiveTime, a, b) == 0.0 ==> Integral(xs, ActivePower, a, b) == 0.0
    decreases b - a
  {
    if a < b {
      NoTimeNoEnergy(xs, a, b - 1);
    }
  }

  lemma SummaryIsPlausible(xs: seq<Sample>, start: int, from: int, end: int)
    requires start <= from
    ensures Plausible(Summary(xs, from, end), HoursInPeriod(start, end))
  {
    ActiveWithinObserved(xs, from, end);
    NoTimeNoEnergy(xs, from, end);
    PositiveQuotient(Integral(xs, ActiveTime, from, end), NS_PER_HOUR);
  }

  /**
    The three prices of a report are in order exactly when it has no tokens, or the hardware has no negative
    cost and the window drew no active energy or the hourly cost covers an hour at the mean active draw.  The
    period starts at `start`, its samples at `from`.
   */
  lemma PricesInOrderIff(xs: seq<Sample>, power: Electricity, hourlyCost: real, totalTokens: int, start: int,
                         from: int, end: int)
    requires start <= from
    ensures InOrder(Summary(xs, from, end), power, hourlyCost, HoursInPeriod(start, end), totalTokens)
       <==> totalTokens <= 0 ||
            (hourlyCost >= 0.0 && (Summary(xs, from, end).activeEnergyKWh <= 0.0 ||
                                   ElectricityPerHour(power, MeanActiveWatts(Summary(xs, from, end))) <= hourlyCost))
  {
    SummaryIsPlausible(xs, start, from, end);
    InOrderIff(Summary(xs, from, end), power, hourlyCost, HoursInPeriod(start, end), totalTokens);
  }

  /**
    Marginal is at most active-hours in every window, down to one nanosecond, exactly when there are no tokens
    or the hourly cost, if it is not negative, covers every active draw.
   */
  lemma MarginalOrderingEverywhereIff(xs: seq<Sample>, power: Electricity, hourlyCost: real, totalTokens: int)
    ensures (forall a, b :: MarginalAtMostActiveHours(xs, power, hourlyCost, totalTokens, a, b))
       <==> totalTokens <= 0 || (forall t :: Affordable(power, hourlyCost, StateAt(xs, t)))
  {
    if t :| totalTokens > 0 && !Affordable(power, hourlyCost, StateAt(xs, t)) {
      UnaffordableNanosecond(xs, power, hourlyCost, totalTokens, t);
    } else if totalTokens > 0 {
      forall a, b ensures MarginalAtMostActiveHours(xs, power, hourlyCost, totalTokens, a, b) {
        MarginalOrdering(xs, power, hourlyCost, totalTokens, a, b);
      }
    }
  }

  // ----- the latest draw -----

  /** The hourly cost the profile publishes uses the latest draw only; it covers every draw up to that one. */
  lemma LatestDrawCovers(hw: HardwareCosts, latestWatts: real, watts: real)
    requires hw.amortizationYears > 0 && hw.purchasePriceUSD >= 0.0 && hw.maintenancePercentPerYear >= 0.0
    requires hw.ratePerKWh >= 0.0 && hw.pueFactor >= 0.0 && watts <= latestWatts
    ensures ElectricityPerHour(Electricity(hw.ratePerKWh, hw.pueFactor), watts) <=
        ComputeHourlyCost(hw, latestWatts).total
  {
  }

  /** An active sample until `active` gives way to an idle one. */
  lemma ActiveThenIdle(active: Sample, idle: Sample, b: int)
    requires active.Active() && !idle.Active() && active.at <= idle.at <= b
    ensures var w, ns := Summary([active, idle], active.at, b), idle.at - active.at;
            w.activeHours == Hours(ns as real) && w.activeEnergyKWh == KWh(active.powerW.Value() * ns as real)
  {
    IdleAddsNothing(active, idle, ActiveTime, 1.0, b);
    IdleAddsNothing(active, idle, ActivePower, active.powerW.Value(), b);
    assert Integral([active, idle], ActiveTime, active.at, b) == (idle.at - active.at) as real;
  }

  lemma IdleAddsNothing(active: Sample, idle: Sample, rate: Rate, worth: real, b: int)
    requires active.at <= idle.at <= b && rate(Some(active)) == worth && rate(Some(idle)) == 0.0
    ensures Integral([active, idle], rate, active.at, b) == worth * (idle.at - active.at) as real
  {
    Stretches(active, idle, rate, b);
  }

  lemma Stretches(active: Sample, idle: Sample, rate: Rate, b: int)
    requires active.at <= idle.at <= b
    ensures Integral([active, idle], rate, active.at, b)
         == rate(Some(active)) * (idle.at - active.at) as real + rate(Some(idle)) * (b - idle.at) as real
  {
    var xs := [active, idle];
    assert xs[..1] == [active] && [active][..0] == [];
    Stretch(xs, rate, Some(active), rate(Some(active)), active.at, idle.at, idle.at - active.at);
    Stretch(xs, rate, Some(idle), rate(Some(idle)), idle.at, b, b - idle.at);
    IntegralAdditive(xs, rate, active.at, idle.at, b);
  }

  /**
    A report over an active stretch followed by an idle reading, which sets the published hourly cost: its
    prices are in order exactly when amortization and idle electricity are not negative together and cover
    the electricity of the active draw.
   */
  lemma LatestDrawDecides(hw: HardwareCosts, active: Sample, idle: Sample, b: int, totalTokens: int)
    requires hw.amortizationYears > 0
    requires active.Active() && !idle.Active() && active.at < idle.at <= b
    ensures var power := Electricity(hw.ratePerKWh, hw.pueFactor);
            var hourlyCost, watts := ComputeHourlyCost(hw, idle.powerW.Value()).total, active.powerW.Value();
            InOrder(Summary([active, idle], active.at, b), power, hourlyCost, HoursInPeriod(active.at, b), totalTokens)
            <==> totalTokens <= 0 || (hourlyCost >= 0.0 &&
                                      (watts <= 0.0 || ElectricityPerHour(power, watts) <= hourlyCost))
  {
    var xs, ns := [active, idle], (idle.at - active.at) as real;
    var watts := active.powerW.Value();
    ActiveThenIdle(active, idle, b);
    MeanOfOneDraw(Summary(xs, active.at, b), watts, ns);
    PricesInOrderIff(xs, Electricity(hw.ratePerKWh, hw.pueFactor),
                     ComputeHourlyCost(hw, idle.powerW.Value()).total, totalTokens, active.at, active.at, b);
  }

  lemma MeanOfOneDraw(w: WindowSummary, watts: real, ns: real)
    requires ns > 0.0 && w.activeHours == Hours(ns) && w.activeEnergyKWh == KWh(watts * ns)
    ensures MeanActiveWatts(w) == watts && (w.activeEnergyKWh > 0.0 <==> watts > 0.0)
  {
  }

  // ----- a concrete report -----

  const HOUR := 3_600_000_000_000

  function Watts(n: nat): Float64
    requires n <= 10
  {
    Float64(ONE + n * OCTAVE)
  }

  /**
    An hour at 1024 W, then a reading of 32 W, for hardware amortized at ten cents an hour and electricity at
    thirty cents a kilowatt-hour: the marginal price exceeds the active-hours price.
   */
  lemma IdleReadingBreaksTheOrder(totalTokens: int)
    requires totalTokens > 0
    ensures var hw := HardwareCosts(876.0, 1, 0.0, 0.3, 1.0);
            var xs := [Sample(0, Watts(10), Watts(6)), Sample(HOUR, Watts(5), Watts(6))];
            var hourlyCost := ComputeHourlyCost(hw, Watts(5).Value()).total;
            var w, power := Summary(xs, 0, 2 * HOUR), Electricity(0.3, 1.0);
            !InOrder(w, power, hourlyCost, HoursInPeriod(0, 2 * HOUR), totalTokens)
  {
    NormalNumber(Watts(10), false, 1033, 0);
    NormalNumber(Watts(6), false, 1029, 0);
    NormalNumber(Watts(5), false, 1028, 0);
    assert Pow2(5) == 32.0 && Pow2(6) == 64.0 && Pow2(10) == 1024.0;
    LatestDrawDecides(HardwareCosts(876.0, 1, 0.0, 0.3, 1.0), Sample(0, Watts(10), Watts(6)),
                      Sample(HOUR, Watts(5), Watts(6)), 2 * HOUR, totalTokens);
  }
}
