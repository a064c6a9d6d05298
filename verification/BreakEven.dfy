/**
  The break-even section of a usage report: each configured cloud target is looked up in the price
  catalogue and judged, and the targets the catalogue does not know are handed back.
 */
module BreakEven {
  import opened Common
  import Calculator
  import opened Pricing

  datatype CloudTarget = CloudTarget(provider: string, model: string) {
    function Name(): string {
      provider + "/" + model
    }
  }

  datatype Entry = Entry(provider: string, model: string, breakEvenTokensPerDay: int,
                         currentTokensPerDay: int, percentOfBreakEven: real, verdict: string)

  const ON_PREM := "on-prem-cheaper-at-current-utilization"
  const CLOUD := "cloud-cheaper-at-current-utilization"

  const DEFAULT_TARGETS := [CloudTarget("OpenAI", "gpt-5.4-mini"), CloudTarget("Anthropic", "claude-sonnet-4-6"),
                            CloudTarget("Google", "gemini-2.5-flash")]

  /** Rounds half away from zero. */
  function Round(x: real): int {
    if x < 0.0 then -((-x + 0.5).Floor) else (x + 0.5).Floor
  }

  predicate Known(lower: CaseMap, t: CloudTarget, byKey: Index) {
    Fold(lower, t.provider, t.model) in byKey
  }

  function Lookup(lower: CaseMap, t: CloudTarget, byKey: Index): Calculator.CloudPricing
    requires Known(lower, t, byKey)
  {
    byKey[Fold(lower, t.provider, t.model)]
  }

  /** The usage a report judges its targets by. */
  datatype Load = Load(inputTokens: int, outputTokens: int, hours: real, dailyHardwareCost: real)

  /** What an entry says about a price under a load. */
  ghost predicate Judges(e: Entry, p: Calculator.CloudPricing, load: Load) {
    var perDay := Calculator.TokensPerDay(load.inputTokens, load.outputTokens, load.hours);
    var breakEven := Calculator.BreakEvenTokensPerDay(load.dailyHardwareCost,
        Calculator.CloudCostPerToken(p, load.inputTokens, load.outputTokens));
    && e.provider == p.provider && e.model == p.model
    && e.breakEvenTokensPerDay == Round(breakEven) && e.currentTokensPerDay == Round(perDay)
    && e.percentOfBreakEven == Calculator.PercentOfBreakEven(perDay, breakEven)
    && e.verdict == if Calculator.OnPremCheaper(perDay, breakEven) then ON_PREM else CLOUD
  }

  /** The positions of the targets that the index knows, or does not know, in ascending order. */
  function Places(lower: CaseMap, targets: seq<CloudTarget>, byKey: Index, known: bool): (places: seq<nat>)
    ensures |places| <= |targets| && forall i :: 0 <= i < |places| ==> places[i] < |targets|
  {
    if targets == [] then []
    else
      var n, before := |targets| - 1, Places(lower, targets[..|targets| - 1], byKey, known);
      if Known(lower, targets[n], byKey) == known then before + [n] else before
  }

  lemma {:induction false} PlacesAreExact(lower: CaseMap, targets: seq<CloudTarget>, byKey: Index, known: bool, n: nat)
    requires n < |targets|
    ensures n in Places(lower, targets, byKey, known) <==> Known(lower, targets[n], byKey) == known
  {
    if n < |targets| - 1 {
      PlacesAreExact(lower, targets[..|targets| - 1], byKey, known, n);
    }
  }

  lemma {:induction false} PlacesAscend(lower: CaseMap, targets: seq<CloudTarget>, byKey: Index, known: bool,
                                           i: nat, j: nat)
    requires i < j < |Places(lower, targets, byKey, known)|
    ensures Places(lower, targets, byKey, known)[i] < Places(lower, targets, byKey, known)[j]
    decreases |targets|
  {
    var n, before := |targets| - 1, Places(lower, targets[..|targets| - 1], byKey, known);
    if j < |before| {
      PlacesAscend(lower, targets[..n], byKey, known, i, j);
    }
  }

  lemma {:induction false} PlacesAddUp(lower: CaseMap, targets: seq<CloudTarget>, byKey: Index)
    ensures |Places(lower, targets, byKey, true)| + |Places(lower, targets, byKey, false)| == |targets|
  {
    if targets != [] {
      PlacesAddUp(lower, targets[..|targets| - 1], byKey);
    }
  }

  ghost predicate EntriesFor(lower: CaseMap, entries: seq<Entry>, targets: seq<CloudTarget>, byKey: Index, load: Load) {
    var places := Places(lower, targets, byKey, true);
    && |entries| == |places|
    && forall i :: 0 <= i < |entries| ==> EntryAt(lower, entries[i], targets, places[i], byKey, load)
  }

  ghost predicate EntryAt(lower: CaseMap, e: Entry, targets: seq<CloudTarget>, n: nat, byKey: Index, load: Load) {
    n < |targets| && Known(lower, targets[n], byKey) && Judges(e, Lookup(lower, targets[n], byKey), load)
  }

  predicate NamesFor(lower: CaseMap, names: seq<string>, targets: seq<CloudTarget>, byKey: Index) {
    var places := Places(lower, targets, byKey, false);
    && |names| == |places|
    && forall i :: 0 <= i < |names| ==> names[i] == targets[places[i]].Name()
  }

  function Targets(configured: Option<seq<CloudTarget>>): seq<CloudTarget> {
    if configured.Some? && configured.value != [] then configured.value else DEFAULT_TARGETS
  }

  /** One entry for each known target and one name for each unknown one, both in the order of the targets. */
  method ComputeBreakEven(lower: CaseMap, configured: Option<seq<CloudTarget>>, catalog: seq<ProviderPricing>,
      amortizationPerHour: real, idleWatts: real, ratePerKWh: real, pueFactor: real,
      totalIn: int, totalOut: int, hoursInPeriod: real)
    returns (entries: seq<Entry>, unknown: seq<string>)
    ensures EntriesFor(lower, entries, Targets(configured), IndexOf(lower, Rows(catalog)),
                       Load(totalIn, totalOut, hoursInPeriod,
                            Calculator.DailyHardwareCost(amortizationPerHour, idleWatts, ratePerKWh, pueFactor)))
    ensures NamesFor(lower, unknown, Targets(configured), IndexOf(lower, Rows(catalog)))
  {
    var targets := DEFAULT_TARGETS;
    if configured.Some? && |configured.value| > 0 {
      targets := configured.value;
    }
    var rows := Flatten(catalog);
    var pricingByKey := BuildIndex(lower, rows);
    var daily := Calculator.DailyHardwareCost(amortizationPerHour, idleWatts, ratePerKWh, pueFactor);
    entries, unknown := JudgeTargets(lower, targets, pricingByKey, Load(totalIn, totalOut, hoursInPeriod, daily));
  }

  method JudgeTargets(lower: CaseMap, targets: seq<CloudTarget>, byKey: Index, load: Load)
    returns (entries: seq<Entry>, unknown: seq<string>)
    ensures EntriesFor(lower, entries, targets, byKey, load) && NamesFor(lower, unknown, targets, byKey)
  {
    var currentTokensPerDay := 0.0;
    if load.hours > 0.0 {
      currentTokensPerDay := (load.inputTokens + load.outputTokens) as real / load.hours * 24.0;
    }
    entries, unknown := [], [];
    assert targets[..0] == [];
    for n := 0 to |targets|
      invariant EntriesFor(lower, entries, targets[..n], byKey, load) && NamesFor(lower, unknown, targets[..n], byKey)
    {
      var t := targets[n];
      var key := ToLower(lower, t.provider) + "/" + ToLower(lower, t.model);
      if key !in byKey {
        AddUnknown(lower, entries, unknown, targets, byKey, load, n);
        unknown := unknown + [t.provider + "/" + t.model];
        continue;
      }
      var p := byKey[key];
      var cpt := Calculator.CloudCostPerToken(p, load.inputTokens, load.outputTokens);
      var breakEven := Calculator.BreakEvenTokensPerDay(load.dailyHardwareCost, cpt);
      var percent := Calculator.PercentOfBreakEven(currentTokensPerDay, breakEven);
      var verdict := CLOUD;
      if breakEven > 0.0 && currentTokensPerDay >= breakEven {
        verdict := ON_PREM;
      }
      var entry := Entry(p.provider, p.model, Round(breakEven), Round(currentTokensPerDay), percent, verdict);
      AddKnown(lower, entries, entry, unknown, targets, byKey, load, n);
      entries := entries + [entry];
    }
    assert targets[..|targets|] == targets;
  }

  lemma AddUnknown(lower: CaseMap, entries: seq<Entry>, unknown: seq<string>, targets: seq<CloudTarget>,
                   byKey: Index, load: Load, n: nat)
    requires n < |targets| && !Known(lower, targets[n], byKey)
    requires EntriesFor(lower, entries, targets[..n], byKey, load) && NamesFor(lower, unknown, targets[..n], byKey)
    ensures EntriesFor(lower, entries, targets[..n + 1], byKey, load)
    ensures NamesFor(lower, unknown + [targets[n].Name()], targets[..n + 1], byKey)
  {
    assert targets[..n + 1][..n] == targets[..n];
    var places := Places(lower, targets[..n], byKey, true);
    forall i | 0 <= i < |entries| ensures EntryAt(lower, entries[i], targets[..n + 1], places[i], byKey, load) {
      assert EntryAt(lower, entries[i], targets[..n], places[i], byKey, load);
    }
  }

  lemma AddKnown(lower: CaseMap, entries: seq<Entry>, entry: Entry, unknown: seq<string>,
      targets: seq<CloudTarget>, byKey: Index, load: Load, n: nat)
    requires n < |targets| && Known(lower, targets[n], byKey) && Judges(entry, Lookup(lower, targets[n], byKey), load)
    requires EntriesFor(lower, entries, targets[..n], byKey, load) && NamesFor(lower, unknown, targets[..n], byKey)
    ensures EntriesFor(lower, entries + [entry], targets[..n + 1], byKey, load)
    ensures NamesFor(lower, unknown, targets[..n + 1], byKey)
  {
    assert targets[..n + 1][..n] == targets[..n];
    AddEntry(lower, entries, entry, targets, byKey, load, n, Places(lower, targets[..n], byKey, true));
  }

  lemma AddEntry(lower: CaseMap, entries: seq<Entry>, entry: Entry,
      targets: seq<CloudTarget>, byKey: Index, load: Load, n: nat, places: seq<nat>)
    requires n < |targets| && Known(lower, targets[n], byKey) && Judges(entry, Lookup(lower, targets[n], byKey), load)
    requires |entries| == |places| && forall i :: 0 <= i < |entries| ==>
        EntryAt(lower, entries[i], targets[..n], places[i], byKey, load)
    ensures var more, there := entries + [entry], places + [n];
            forall i :: 0 <= i < |more| ==> EntryAt(lower, more[i], targets[..n + 1], there[i], byKey, load)
  {
    forall i | 0 <= i < |entries| ensures EntryAt(lower, entries[i], targets[..n + 1], places[i], byKey, load) {
      assert EntryAt(lower, entries[i], targets[..n], places[i], byKey, load);
    }
    assert EntryAt(lower, entry, targets[..n + 1], n, byKey, load);
  }

  /** Every target has its place in one of the two lists, and in one only; both lists keep the targets' order. */
  lemma EntriesAndUnknownPartition(lower: CaseMap, targets: seq<CloudTarget>, byKey: Index, n: nat, i: nat, j: nat,
                                   known: bool)
    requires n < |targets|
    ensures n in Places(lower, targets, byKey, true) <==> n !in Places(lower, targets, byKey, false)
    ensures |Places(lower, targets, byKey, true)| + |Places(lower, targets, byKey, false)| == |targets|
    ensures i < j < |Places(lower, targets, byKey, known)| ==>
        Places(lower, targets, byKey, known)[i] < Places(lower, targets, byKey, known)[j]
  {
    PlacesAreExact(lower, targets, byKey, true, n);
    PlacesAreExact(lower, targets, byKey, false, n);
    PlacesAddUp(lower, targets, byKey);
    if i < j < |Places(lower, targets, byKey, known)| {
      PlacesAscend(lower, targets, byKey, known, i, j);
    }
  }

  /**
    Over an accepted catalogue, an entry says on-prem exactly when the cloud's bill for the period's
    tokens, scaled to a day, reaches the daily hardware cost; which is exactly when it reports a hundred percent.
   */
  lemma EntryVerdictIsTheBill(lower: CaseMap, catalog: seq<ProviderPricing>, e: Entry, p: Calculator.CloudPricing,
                              load: Load)
    requires WellFormed(lower, catalog) && p in Rows(catalog) && Judges(e, p, load)
    requires load.inputTokens >= 0 && load.outputTokens >= 0 && load.hours > 0.0 && load.dailyHardwareCost > 0.0
    ensures e.verdict == "on-prem-cheaper-at-current-utilization"
       <==> Calculator.CloudCost(p, load.inputTokens, load.outputTokens) / load.hours * 24.0 >= load.dailyHardwareCost
    ensures e.verdict == "on-prem-cheaper-at-current-utilization" <==> e.percentOfBreakEven >= 100.0
    ensures e.verdict == "cloud-cheaper-at-current-utilization" <==> e.percentOfBreakEven < 100.0
  {
    var i :| 0 <= i < |Rows(catalog)| && Rows(catalog)[i] == p;
    CleanRow(lower, Rows(catalog), i);
    Calculator.VerdictFollowsTheBill(p, load.inputTokens, load.outputTokens, load.hours, load.dailyHardwareCost);
    Calculator.VerdictIsAHundredPercent(Calculator.TokensPerDay(load.inputTokens, load.outputTokens, load.hours),
      Calculator.BreakEvenTokensPerDay(
        load.dailyHardwareCost, Calculator.CloudCostPerToken(p, load.inputTokens, load.outputTokens)));
    assert ON_PREM[0] != CLOUD[0];
  }

  lemma EntryHasItsRow(lower: CaseMap, entries: seq<Entry>, targets: seq<CloudTarget>, catalog: seq<ProviderPricing>,
                       load: Load, e: Entry)
    returns (p: Calculator.CloudPricing)
    requires EntriesFor(lower, entries, targets, IndexOf(lower, Rows(catalog)), load) && e in entries
    ensures p in Rows(catalog) && Judges(e, p, load)
  {
    var byKey := IndexOf(lower, Rows(catalog));
    var i :| 0 <= i < |entries| && entries[i] == e;
    var n := Places(lower, targets, byKey, true)[i];
    assert EntryAt(lower, e, targets, n, byKey, load);
    p := Lookup(lower, targets[n], byKey);
    IndexedRow(lower, Rows(catalog), Fold(lower, targets[n].provider, targets[n].model));
  }

  /** What the index holds under a name is a row of that name. */
  lemma {:induction false} IndexedRow(lower: CaseMap, rows: seq<Calculator.CloudPricing>, key: string)
    requires key in IndexOf(lower, rows)
    ensures IndexOf(lower, rows)[key] in rows && Key(lower, IndexOf(lower, rows)[key]) == key
  {
    if rows != [] && Key(lower, rows[|rows| - 1]) != key {
      IndexedRow(lower, rows[..|rows| - 1], key);
    }
  }

  /** The name of a target and of a row are the same once case is folded. */
  predicate Names(lower: CaseMap, t: CloudTarget, provider: string, model: string) {
    ToLower(lower, t.provider) + "/" + ToLower(lower, t.model) == ToLower(lower, provider) + "/" + ToLower(lower, model)
  }

  /**
    Every target is answered: the configured ones, or the three default ones if none are.  A target that the
    catalogue has by name gets an entry of that name, any other target is handed back by its own name; and
    there are as many answers as targets.
   */
  lemma EveryTargetIsAnswered(lower: CaseMap, configured: Option<seq<CloudTarget>>, catalog: seq<ProviderPricing>,
                              entries: seq<Entry>, unknown: seq<string>, load: Load, t: CloudTarget)
    requires EntriesFor(lower, entries, Targets(configured), IndexOf(lower, Rows(catalog)), load)
    requires NamesFor(lower, unknown, Targets(configured), IndexOf(lower, Rows(catalog)))
    requires if configured.Some? && configured.value != [] then t in configured.value
             else t == CloudTarget("OpenAI", "gpt-5.4-mini") || t == CloudTarget("Anthropic", "claude-sonnet-4-6")
                  || t == CloudTarget("Google", "gemini-2.5-flash")
    ensures |entries| + |unknown| == if configured.Some? && configured.value != [] then |configured.value| else 3
    ensures if exists row :: row in Rows(catalog) && Names(lower, t, row.provider, row.model)
            then exists e :: e in entries && Names(lower, t, e.provider, e.model)
            else t.provider + "/" + t.model in unknown
  {
    var targets, byKey := Targets(configured), IndexOf(lower, Rows(catalog));
    assert t in targets;
    var n :| 0 <= n < |targets| && targets[n] == t;
    PlacesAddUp(lower, targets, byKey);
    KnownIff(lower, Rows(catalog), t);
    PlacesAreExact(lower, targets, byKey, Known(lower, t, byKey), n);
    var places := Places(lower, targets, byKey, Known(lower, t, byKey));
    var i :| 0 <= i < |places| && places[i] == n;
    if Known(lower, t, byKey) {
      assert EntryAt(lower, entries[i], targets, n, byKey, load);
      IndexedRow(lower, Rows(catalog), Fold(lower, t.provider, t.model));
      assert entries[i] in entries && Names(lower, t, entries[i].provider, entries[i].model);
    } else {
      assert unknown[i] in unknown;
    }
  }

  lemma KnownIff(lower: CaseMap, rows: seq<Calculator.CloudPricing>, t: CloudTarget)
    ensures Known(lower, t, IndexOf(lower, rows))
       <==> exists row :: row in rows && Names(lower, t, row.provider, row.model)
  {
    var key := Fold(lower, t.provider, t.model);
    if key in IndexOf(lower, rows) {
      IndexedRow(lower, rows, key);
      var row := IndexOf(lower, rows)[key];
      assert row in rows && Names(lower, t, row.provider, row.model);
    }
    if row :| row in rows && Names(lower, t, row.provider, row.model) {
      var i :| 0 <= i < |rows| && rows[i] == row;
      KeyAt(lower, rows, i);
    }
  }

  /** Rounded to the nearest whole number, halves away from zero. */
  lemma RoundIsNearest(x: real)
    ensures -0.5 <= Round(x) as real - x <= 0.5
    ensures x - Round(x) as real == 0.5 ==> x < 0.0
    ensures x - Round(x) as real == -0.5 ==> x > 0.0
  {
  }

  /**
    An entry's figures: the day's tokens are those of the period scaled to a day; the break-even tokens cost in the
    cloud, at the blend of the period, what the hardware costs in a day; both to the nearest token.
   */
  lemma EntryFiguresAreTheLoad(e: Entry, p: Calculator.CloudPricing, load: Load)
    requires Judges(e, p, load) && load.hours > 0.0 && load.inputTokens + load.outputTokens > 0
    ensures var tokens := (load.inputTokens + load.outputTokens) as real;
            var perDay, perToken := tokens / load.hours * 24.0,
                                    Calculator.CloudCost(p, load.inputTokens, load.outputTokens) / tokens;
            && -0.5 <= e.currentTokensPerDay as real - perDay <= 0.5
            && (perToken > 0.0 ==> -0.5 <= e.breakEvenTokensPerDay as real - load.dailyHardwareCost / perToken <= 0.5)
            && (perToken > 0.0 && load.dailyHardwareCost > 0.0 ==>
                  e.percentOfBreakEven * (load.dailyHardwareCost / perToken) == 100.0 * perDay)
  {
    var tokens := (load.inputTokens + load.outputTokens) as real;
    var perToken := Calculator.CloudCostPerToken(p, load.inputTokens, load.outputTokens);
    Calculator.BlendIsTheBill(p, load.inputTokens, load.outputTokens);
    assert Calculator.CloudCost(p, load.inputTokens, load.outputTokens) / tokens == perToken by {
      assert perToken * tokens / tokens == perToken;
    }
    var perDay := Calculator.TokensPerDay(load.inputTokens, load.outputTokens, load.hours);
    RoundIsNearest(perDay);
    RoundIsNearest(Calculator.BreakEvenTokensPerDay(load.dailyHardwareCost, perToken));
    Calculator.BreakEvenPaysTheDay(load.dailyHardwareCost, perToken, perDay);
    if perToken > 0.0 {
      Calculator.PositiveQuotient(load.dailyHardwareCost, perToken);
    }
  }
}
