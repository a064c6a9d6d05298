/**
  One usage report from end to end: scrape, share out, price, judge; and what holds of the result across
  those steps.
 */
module UsageReports {
  import opened Common
  import Windows
  import Calculator
  import opened Attribution
  import opened ReportCosts
  import StatusWrites
  import StatusRuns
  import opened Archives
  import BreakEven
  import PowerSampler
  import Pricing
  import Protocol
  import SampleStore
  import SamplerSystem

  /** What a report reads from its CostProfile. */
  datatype Profile = Profile(hourlyCostUSD: real, amortizationPerHour: real, idleWatts: real, electricity: Electricity,
                             targets: Option<seq<BreakEven.CloudTarget>>)

  /** The token maps are those of the pods. */
  ghost predicate ComesFrom(usage: Usage, nsTokens: map<string, Tokens>, pods: seq<Pod>, filter: set<string>) {
    Tallies(usage, pods, filter) && Agree(usage, nsTokens)
  }

  /** The usage that a report's break-even entries are judged by. */
  function LoadOf(c: StatusWrites.Computed, profile: Profile, hours: real): BreakEven.Load {
    BreakEven.Load(c.tokens.input, c.tokens.output, hours,
      Calculator.DailyHardwareCost(profile.amortizationPerHour, profile.idleWatts,
                        profile.electricity.ratePerKWh, profile.electricity.pueFactor))
  }

  /** The figures a report draws from its power window; all zero without a sampler. */
  ghost predicate PowerFigures(f: Figures, power: Option<Windows.WindowSummary>, profile: Profile, hours: real,
        totalTokens: int) {
    var w := if power.Some? then power.value else Windows.NO_DATA;
    && f.activeHours == w.activeHours && f.activeEnergyKWh == w.activeEnergyKWh
    && f.utilizationPercent == f.gpuEfficiency * 100.0 && f.gpuEfficiency * hours == w.activeHours
    && f.marginalCostPerMillion == Marginal(profile.electricity, w.activeEnergyKWh, totalTokens)
    && f.activeHoursCostPerMillion
       == Calculator.ActiveHoursCostPerMillion(profile.hourlyCostUSD, w.activeHours, hours, totalTokens)
  }

  method FiguresOf(profile: Profile, power: Option<Windows.WindowSummary>, hours: real, totalTokens: int)
    returns (f: Figures)
    requires hours > 0.0
    ensures f.totalCost == profile.hourlyCostUSD * hours
    ensures f.costPerMillion == FullyLoaded(profile.hourlyCostUSD, hours, totalTokens)
    ensures PowerFigures(f, power, profile, hours, totalTokens)
  {
    f := ComputeFigures(profile.hourlyCostUSD, profile.electricity, power, hours, totalTokens);
  }

  /** The report of what the pods served in a period: rows, cost, prices and power figures. */
  ghost predicate IsReport(c: StatusWrites.Computed, usage: Usage, nsTokens: map<string, Tokens>, pods: seq<Pod>,
        namespaces: seq<string>, profile: Profile, power: Option<Windows.WindowSummary>, period: string,
        start: int, now: int) {
    var hours, totalTokens := HoursInPeriod(start, now), SumTotal(usage, usage.Keys);
    && ComesFrom(usage, nsTokens, pods, FilterOf(namespaces))
    && StatusRuns.BreaksDown(c, usage, nsTokens, c.figures.totalCost)
    && c.period == period && c.start == start && c.end == now
    && c.figures.totalCost == profile.hourlyCostUSD * hours
    && c.figures.costPerMillion == FullyLoaded(profile.hourlyCostUSD, hours, totalTokens)
    && PowerFigures(c.figures, power, profile, hours, totalTokens)
  }

  /** Its break-even entries, and the targets that the catalogue does not know. */
  ghost predicate Judges(lower: Pricing.CaseMap, c: StatusWrites.Computed, unknown: seq<string>, profile: Profile,
        catalog: seq<Pricing.ProviderPricing>, hours: real) {
    var targets, byKey := BreakEven.Targets(profile.targets), Pricing.IndexOf(lower, Pricing.Rows(catalog));
    BreakEven.EntriesFor(lower, c.breakEven, targets, byKey, LoadOf(c, profile, hours)) &&
    BreakEven.NamesFor(lower, unknown, targets, byKey)
  }

  /** Computes the status of a report whose period runs from `start` to `now`. */
  method ComputeReport(lower: Pricing.CaseMap, pods: seq<Pod>, namespaces: seq<string>, profile: Profile,
                       catalog: seq<Pricing.ProviderPricing>, power: Option<Windows.WindowSummary>, period: string,
                       start: int, now: int)
    returns (c: StatusWrites.Computed, usage: Usage, nsTokens: map<string, Tokens>, unknown: seq<string>)
    ensures IsReport(c, usage, nsTokens, pods, namespaces, profile, power, period, start, now)
    ensures Judges(lower, c, unknown, profile, catalog, HoursInPeriod(start, now))
  {
    var hours := HoursInPeriod(start, now);
    var totalCost := profile.hourlyCostUSD * hours;
    var byModel, byNamespace, totalIn, totalOut;
    byModel, byNamespace, totalIn, totalOut, usage, nsTokens := ShareOut(pods, namespaces, totalCost);
    var figures := FiguresOf(profile, power, hours, totalIn + totalOut);
    var entries;
    entries, unknown := BreakEven.ComputeBreakEven(lower, profile.targets, catalog, profile.amortizationPerHour,
      profile.idleWatts, profile.electricity.ratePerKWh, profile.electricity.pueFactor, totalIn, totalOut, hours);
    c := StatusWrites.Computed(period, start, now, Tokens(totalIn, totalOut), figures, entries, byModel, byNamespace);
  }

  /**
    A report over the running sampler: the report of those pods over what the committed samples say of its
    period, and its utilization is a percentage.
   */
  method ReportOnSampler(lower: Pricing.CaseMap, sampler: PowerSampler.Sampler, store: SampleStore.Store,
                         ghost s: Protocol.State, key: string, pods: seq<Pod>, namespaces: seq<string>,
                         profile: Profile, catalog: seq<Pricing.ProviderPricing>, period: string, start: int, now: int)
    returns (c: StatusWrites.Computed, usage: Usage, nsTokens: map<string, Tokens>, unknown: seq<string>)
    requires Protocol.Inv(s) && SamplerSystem.InStep(sampler, store, s)
    ensures IsReport(c, usage, nsTokens, pods, namespaces, profile,
                     Some(Recorded(sampler.samples, s.log, key, start, now)), period, start, now)
    ensures Judges(lower, c, unknown, profile, catalog, HoursInPeriod(start, now))
    ensures 0.0 <= c.figures.utilizationPercent <= 100.0
  {
    var power := PowerOf(sampler, store, s, key, start, now);
    c, usage, nsTokens, unknown :=
      ComputeReport(lower, pods, namespaces, profile, catalog, Some(power), period, start, now);
    UtilizationFollows(c.figures, power, profile, HoursInPeriod(start, now), SumTotal(usage, usage.Keys));
  }

  method PowerOf(sampler: PowerSampler.Sampler, store: SampleStore.Store, ghost s: Protocol.State, key: string,
        start: int, now: int)
    returns (power: Windows.WindowSummary)
    requires Protocol.Inv(s) && SamplerSystem.InStep(sampler, store, s)
    ensures power == Recorded(sampler.samples, s.log, key, start, now)
    ensures 0.0 <= power.activeHours / HoursInPeriod(start, now) * 100.0 <= 100.0
  {
    power := SamplerSystem.Report(sampler, store, s, key, start, now);
    RecordedUtilization(sampler.samples, s.log, key, start, now);
  }

  /** What the committed samples of a key say of a window, from the first sample in memory on. */
  function Recorded(samples: Archive, log: Archive, key: string, a: int, b: int): Windows.WindowSummary {
    var window := ListOf(samples, key);
    if window == [] then Windows.NO_DATA else Windows.Summary(ListOf(log, key), Max(a, window[0].at), b)
  }

  /**
    The three prices of a report over the running sampler are in order exactly when it has no tokens, or the
    hardware has no negative cost and its window drew no active energy or the hourly cost covers an hour at
    the mean active draw.
   */
  lemma ReportPricesInOrderIff(c: StatusWrites.Computed, usage: Usage, nsTokens: map<string, Tokens>, pods: seq<Pod>,
        namespaces: seq<string>, profile: Profile, samples: Archive, log: Archive, key: string, period: string,
        start: int, now: int)
    requires IsReport(c, usage, nsTokens, pods, namespaces, profile, Some(Recorded(samples, log, key, start, now)),
                      period, start, now)
    ensures c.figures.marginalCostPerMillion <= c.figures.activeHoursCostPerMillion <= c.figures.costPerMillion
       <==> Covered(Recorded(samples, log, key, start, now), profile.electricity, profile.hourlyCostUSD,
                    SumTotal(usage, usage.Keys))
  {
    var window, w := ListOf(samples, key), Recorded(samples, log, key, start, now);
    if window != [] {
      SummaryIsPlausible(ListOf(log, key), start, Max(start, window[0].at), now);
    }
    InOrderIff(w, profile.electricity, profile.hourlyCostUSD, HoursInPeriod(start, now), SumTotal(usage, usage.Keys));
  }

  /**
    A report counts the prompt and the predicted counters of the pods that serve its namespaces, in all and for
    each model.
   */
  lemma ReportCountsItsPods(c: StatusWrites.Computed, usage: Usage, nsTokens: map<string, Tokens>, pods: seq<Pod>,
        namespaces: seq<string>, profile: Profile, power: Option<Windows.WindowSummary>, period: string, start: int,
        now: int, i: nat)
    requires IsReport(c, usage, nsTokens, pods, namespaces, profile, power, period, start, now)
    requires CountersNonNegative(pods) && i < |c.byModel|
    ensures CountsOf(c.tokens, Serving(pods, namespaces))
    ensures var row := c.byModel[i];
            && CountsOf(row.tokens, Carrying(Serving(pods, namespaces), row.model, row.namespace))
            && Carrying(Serving(pods, namespaces), row.model, row.namespace) != []
  {
    var row := c.byModel[i];
    TotalsAreTheCounters(usage, pods, namespaces);
    RowHasUsage(c.byModel, usage, c.figures.totalCost, SumTotal(usage, usage.Keys), i);
    UsageIsTheCounters(usage, pods, namespaces, row.model, row.namespace);
  }

  /** A report costs what the profile costs per hour, for as long as the period has run. */
  lemma ReportCostsItsHours(c: StatusWrites.Computed, usage: Usage, nsTokens: map<string, Tokens>, pods: seq<Pod>,
        namespaces: seq<string>, profile: Profile, power: Option<Windows.WindowSummary>, period: string, start: int,
        now: int)
    requires IsReport(c, usage, nsTokens, pods, namespaces, profile, power, period, start, now)
    requires now - start >= 3_600_000_000
    ensures c.figures.totalCost * 3_600_000_000_000.0 == profile.hourlyCostUSD * (now - start) as real
  {
    HoursCost(profile.hourlyCostUSD, c.figures.totalCost, start, now);
  }

  lemma HoursCost(hourlyCost: real, totalCost: real, start: int, now: int)
    requires totalCost == hourlyCost * HoursInPeriod(start, now) && now - start >= 3_600_000_000
    ensures totalCost * 3_600_000_000_000.0 == hourlyCost * (now - start) as real
  {
    var hours := HoursInPeriod(start, now);
    PeriodHours(start, now);
    assert hourlyCost * hours * 3_600_000_000_000.0 == hourlyCost * (hours * 3_600_000_000_000.0);
  }

  lemma {:induction false} RowHasUsage(rows: seq<ModelCost>, usage: Usage, cost: real, total: int, i: nat)
    requires Lists(rows, usage, cost, total) && i < |rows|
    ensures rows[i].Key() in usage && rows[i].tokens == usage[rows[i].Key()]
    decreases |rows|
  {
    if i < |rows| - 1 {
      RowHasUsage(rows[..|rows| - 1], usage, cost, total, i);
    }
  }

  /** A day of the profile's amortization, and of its idle electricity with overhead. */
  function DailyCost(profile: Profile): real {
    var pue := if profile.electricity.pueFactor <= 0.0 then 1.0 else profile.electricity.pueFactor;
    profile.amortizationPerHour * 24.0 + profile.idleWatts * 24.0 / 1000.0 * profile.electricity.ratePerKWh * pue
  }

  lemma LoadHasTheDailyCost(c: StatusWrites.Computed, profile: Profile, hours: real)
    ensures LoadOf(c, profile, hours)
         == BreakEven.Load(c.tokens.input, c.tokens.output, hours, DailyCost(profile))
  {
  }

  /**
    A report's break-even entry says on-prem exactly when the cloud's bill for its tokens, scaled to a day, reaches
    the daily cost of its profile.
   */
  lemma ReportVerdictIsTheBill(lower: Pricing.CaseMap, c: StatusWrites.Computed, unknown: seq<string>,
        profile: Profile, catalog: seq<Pricing.ProviderPricing>, hours: real, e: BreakEven.Entry)
    returns (p: Calculator.CloudPricing)
    requires Judges(lower, c, unknown, profile, catalog, hours) && Pricing.WellFormed(lower, catalog)
    requires e in c.breakEven && hours > 0.0 && c.tokens.input >= 0 && c.tokens.output >= 0
    ensures p in Pricing.Rows(catalog) && e.provider == p.provider && e.model == p.model
    ensures DailyCost(profile) > 0.0 ==>
              (e.verdict == "on-prem-cheaper-at-current-utilization"
               <==> Calculator.CloudCost(p, c.tokens.input, c.tokens.output) / hours * 24.0 >= DailyCost(profile))
  {
    LoadHasTheDailyCost(c, profile, hours);
    var load := BreakEven.Load(c.tokens.input, c.tokens.output, hours, DailyCost(profile));
    p := BreakEven.EntryHasItsRow(lower, c.breakEven, BreakEven.Targets(profile.targets), catalog, load, e);
    if load.dailyHardwareCost > 0.0 {
      BreakEven.EntryVerdictIsTheBill(lower, catalog, e, p, load);
    }
  }

  lemma RecordedUtilization(samples: Archive, log: Archive, key: string, start: int, now: int)
    ensures 0.0 <= Recorded(samples, log, key, start, now).activeHours / HoursInPeriod(start, now) * 100.0 <= 100.0
  {
    var window := ListOf(samples, key);
    if window != [] {
      UtilizationIsAPercentage(ListOf(log, key), start, Max(start, window[0].at), now);
    }
  }

  lemma UtilizationFollows(f: Figures, power: Windows.WindowSummary, profile: Profile, hours: real, totalTokens: int)
    requires hours > 0.0 && PowerFigures(f, Some(power), profile, hours, totalTokens)
    requires 0.0 <= power.activeHours / hours * 100.0 <= 100.0
    ensures 0.0 <= f.utilizationPercent <= 100.0
  {
    assert f.activeHours / hours == f.gpuEfficiency;
  }

  method ShareOut(pods: seq<Pod>, namespaces: seq<string>, totalCost: real)
    returns (byModel: seq<ModelCost>, byNamespace: seq<NamespaceCost>, totalIn: int, totalOut: int,
             usage: Usage, nsTokens: map<string, Tokens>)
    ensures ComesFrom(usage, nsTokens, pods, FilterOf(namespaces))
    ensures Tokens(totalIn, totalOut) == Sum(usage, usage.Keys)
    ensures Lists(byModel, usage, totalCost, totalIn + totalOut) && RowKeys(byModel) == usage.Keys
    ensures ListsNamespaces(byNamespace, usage, nsTokens, totalCost, totalIn + totalOut)
    ensures NamespacesOf(byNamespace) == nsTokens.Keys
  {
    usage, nsTokens := ScrapeTokens(pods, namespaces);
    byModel, byNamespace, totalIn, totalOut := BuildBreakdowns(usage, nsTokens, totalCost);
  }

  /** Models and namespaces share out the report's cost, all of it if any token was served. */
  lemma ReportSharesItsCost(c: StatusWrites.Computed, usage: Usage, nsTokens: map<string, Tokens>)
    requires StatusRuns.BreaksDown(c, usage, nsTokens, c.figures.totalCost) && Agree(usage, nsTokens)
    ensures TotalCost(c.byModel) == if SumTotal(usage, usage.Keys) > 0 then c.figures.totalCost else 0.0
    ensures NamespaceTotal(c.byNamespace) == TotalCost(c.byModel)
  {
    var cost, total := c.figures.totalCost, SumTotal(usage, usage.Keys);
    ModelCostsConserve(c.byModel, usage, cost, total);
    NamespaceCostsConserve(c.byModel, c.byNamespace, usage, nsTokens, cost, total);
  }

  /** Every model that served tokens is listed at the report's own price. */
  lemma ReportHasOnePrice(c: StatusWrites.Computed, usage: Usage, nsTokens: map<string, Tokens>, hourlyCost: real,
                          hours: real, i: nat)
    requires StatusRuns.BreaksDown(c, usage, nsTokens, c.figures.totalCost) && SumTotal(usage, usage.Keys) > 0
    requires c.figures.totalCost == hourlyCost * hours
    requires c.figures.costPerMillion == FullyLoaded(hourlyCost, hours, SumTotal(usage, usage.Keys))
    requires i < |c.byModel| && c.byModel[i].tokens.Total() > 0
    ensures c.byModel[i].costPerMillion == c.figures.costPerMillion
  {
    ModelPricesAreTheBlend(c.byModel, usage, c.figures.totalCost, SumTotal(usage, usage.Keys), i);
  }
}
