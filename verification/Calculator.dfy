/**
  The cost formulas of the calculator, over exact reals, and the facts that tie them to one another:
  which of two answers to "is on-prem cheaper" agree, and when.
 */
module Calculator {

  /** What a CostProfile says about hardware and electricity; its schema demands at least one year. */
  datatype HardwareCosts = HardwareCosts(purchasePriceUSD: real, amortizationYears: int,
                                         maintenancePercentPerYear: real, ratePerKWh: real, pueFactor: real)

  datatype HourlyCost = HourlyCost(amortization: real, electricity: real, total: real)

  const HOURS_PER_YEAR := 8760.0
  const MILLION := 1_000_000.0

  function ComputeHourlyCost(hw: HardwareCosts, powerDrawWatts: real): (cost: HourlyCost)
    requires hw.amortizationYears > 0
  {
    var amortization := hw.purchasePriceUSD * (1.0 + hw.maintenancePercentPerYear)
                        / (hw.amortizationYears as real * HOURS_PER_YEAR);
    var pue := if hw.pueFactor == 0.0 then 1.0 else hw.pueFactor;
    var electricity := powerDrawWatts / 1000.0 * hw.ratePerKWh * pue;
    HourlyCost(amortization, electricity, amortization + electricity)
  }

  /** The overhead factor as the report and the break-even analysis read it. */
  function EffectivePue(pueFactor: real): real {
    if pueFactor <= 0.0 then 1.0 else pueFactor
  }

  function ActiveHoursCostPerMillion(hourlyCost: real, activeHours: real, wallClockHours: real,
        totalTokens: int): real {
    if totalTokens <= 0 || activeHours <= 0.0 || hourlyCost <= 0.0 then 0.0
    else
      var effective := if wallClockHours > 0.0 && activeHours > wallClockHours then wallClockHours else activeHours;
      hourlyCost * effective / (totalTokens as real / MILLION)
  }

  // ----- comparing with the cloud -----

  datatype CloudPricing = CloudPricing(provider: string, model: string, inputPerMillion: real, outputPerMillion: real) {
    predicate NonNegative() {
      inputPerMillion >= 0.0 && outputPerMillion >= 0.0
    }
  }

  datatype CloudComparison = CloudComparison(provider: string, model: string, cloudCostUSD: real,
                                             onPremCostUSD: real, savingsUSD: real, savingsPercent: real)

  /** What the tokens would have cost at a provider's price. */
  function CloudCost(p: CloudPricing, inputTokens: int, outputTokens: int): real {
    inputTokens as real / MILLION * p.inputPerMillion + outputTokens as real / MILLION * p.outputPerMillion
  }

  function CompareOne(p: CloudPricing, inputTokens: int, outputTokens: int, onPremCostUSD: real): CloudComparison {
    var cost := CloudCost(p, inputTokens, outputTokens);
    var savings := cost - onPremCostUSD;
    CloudComparison(p.provider, p.model, cost, onPremCostUSD, savings,
                    if cost > 0.0 then savings / cost * 100.0 else 0.0)
  }

  /** One comparison for each price, in the order of the price list. */
  method CompareToCloud(inputTokens: int, outputTokens: int, onPremCostUSD: real, pricing: seq<CloudPricing>)
    returns (results: seq<CloudComparison>)
    ensures |results| == |pricing|
    ensures forall i :: 0 <= i < |pricing| ==>
        results[i] == CompareOne(pricing[i], inputTokens, outputTokens, onPremCostUSD)
    ensures forall i :: 0 <= i < |pricing| ==>
              && results[i].provider == pricing[i].provider && results[i].model == pricing[i].model
              && results[i].onPremCostUSD == onPremCostUSD
              && results[i].cloudCostUSD == CloudCost(pricing[i], inputTokens, outputTokens)
              && results[i].savingsUSD + onPremCostUSD == results[i].cloudCostUSD
              && (if results[i].cloudCostUSD > 0.0
                  then results[i].savingsPercent * results[i].cloudCostUSD == 100.0 * results[i].savingsUSD
                  else results[i].savingsPercent == 0.0)
  {
    results := [];
    for i := 0 to |pricing|
      invariant |results| == i
      invariant forall j :: 0 <= j < i ==>
          results[j] == CompareOne(pricing[j], inputTokens, outputTokens, onPremCostUSD)
    {
      var p := pricing[i];
      var cloudCost := inputTokens as real / MILLION * p.inputPerMillion
                       + outputTokens as real / MILLION * p.outputPerMillion;
      var savings := cloudCost - onPremCostUSD;
      var savingsPct := 0.0;
      if cloudCost > 0.0 {
        savingsPct := savings / cloudCost * 100.0;
      }
      results := results + [CloudComparison(p.provider, p.model, cloudCost, onPremCostUSD, savings, savingsPct)];
    }
  }

  // ----- break-even -----

  function DailyHardwareCost(amortizationPerHour: real, idleWatts: real, ratePerKWh: real, pueFactor: real): real {
    amortizationPerHour * 24.0 + idleWatts / 1000.0 * 24.0 * ratePerKWh * EffectivePue(pueFactor)
  }

  function CloudCostPerToken(p: CloudPricing, inputTokens: int, outputTokens: int): real {
    var total := inputTokens + outputTokens;
    var inFrac := if total <= 0 then 0.5 else inputTokens as real / total as real;
    var outFrac := if total <= 0 then 0.5 else outputTokens as real / total as real;
    (inFrac * p.inputPerMillion + outFrac * p.outputPerMillion) / MILLION
  }

  function BreakEvenTokensPerDay(dailyHardwareCost: real, cloudCostPerToken: real): real {
    if cloudCostPerToken <= 0.0 then 0.0 else dailyHardwareCost / cloudCostPerToken
  }

  function PercentOfBreakEven(currentTokensPerDay: real, breakEvenTokensPerDay: real): real {
    if breakEvenTokensPerDay <= 0.0 then 0.0 else currentTokensPerDay / breakEvenTokensPerDay * 100.0
  }

  function TokensPerDay(inputTokens: int, outputTokens: int, hours: real): real {
    if hours > 0.0 then (inputTokens + outputTokens) as real / hours * 24.0 else 0.0
  }

  /** The report's verdict for one price. */
  predicate OnPremCheaper(currentTokensPerDay: real, breakEvenTokensPerDay: real) {
    breakEvenTokensPerDay > 0.0 && currentTokensPerDay >= breakEvenTokensPerDay
  }

  predicate Verdict(p: CloudPricing, inputTokens: int, outputTokens: int, hours: real, dailyHardwareCost: real) {
    OnPremCheaper(TokensPerDay(inputTokens, outputTokens, hours),
                  BreakEvenTokensPerDay(dailyHardwareCost, CloudCostPerToken(p, inputTokens, outputTokens)))
  }

  /** What serving the period's tokens from the cloud would cost per day, at the rate of the period. */
  function CloudCostPerDay(p: CloudPricing, inputTokens: int, outputTokens: int, hours: real): real
    requires hours > 0.0
  {
    CloudCost(p, inputTokens, outputTokens) / hours * 24.0
  }

  // ----- arithmetic -----

  lemma DivideOut(x: real, y: real, z: real)
    requires y > 0.0
    ensures x >= z / y <==> x * y >= z
  {
  }

  lemma PositiveQuotient(x: real, y: real)
    requires y > 0.0
    ensures x / y > 0.0 <==> x > 0.0
    ensures x / y >= 0.0 <==> x >= 0.0
  {
  }

  /** A million input tokens cost the input price, a million output tokens the output price, and costs add up. */
  lemma MillionTokensCost(p: CloudPricing, input: int, output: int, moreInput: int, moreOutput: int)
    ensures CloudCost(p, 1_000_000, 0) == p.inputPerMillion && CloudCost(p, 0, 1_000_000) == p.outputPerMillion
    ensures CloudCost(p, input + moreInput, output + moreOutput)
         == CloudCost(p, input, output) + CloudCost(p, moreInput, moreOutput)
  {
  }

  /** The blended price per token, times the tokens, is the cloud's bill. */
  lemma BlendIsTheBill(p: CloudPricing, inputTokens: int, outputTokens: int)
    requires inputTokens + outputTokens > 0
    ensures CloudCostPerToken(p, inputTokens, outputTokens) * (inputTokens + outputTokens) as real
         == CloudCost(p, inputTokens, outputTokens)
  {
  }

  /** Before anything is served, the blended price is that of any even mix. */
  lemma NothingServedIsAnEvenMix(p: CloudPricing, tokens: nat)
    requires tokens > 0
    ensures CloudCostPerToken(p, 0, 0) == CloudCostPerToken(p, tokens, tokens)
  {
    assert tokens as real / (tokens + tokens) as real == 0.5;
  }

  lemma BillIsNonNegative(p: CloudPricing, inputTokens: int, outputTokens: int)
    requires inputTokens >= 0 && outputTokens >= 0 && p.NonNegative()
    ensures CloudCost(p, inputTokens, outputTokens) >= 0.0
    ensures CloudCostPerToken(p, inputTokens, outputTokens) >= 0.0
  {
  }

  /** The daily bill is the blended price times the tokens per day. */
  lemma DailyBill(p: CloudPricing, inputTokens: int, outputTokens: int, hours: real)
    requires hours > 0.0 && inputTokens >= 0 && outputTokens >= 0
    ensures CloudCostPerDay(p, inputTokens, outputTokens, hours)
         == TokensPerDay(inputTokens, outputTokens, hours) * CloudCostPerToken(p, inputTokens, outputTokens)
  {
  }

  // ----- the two verdicts -----

  /** With a positive daily hardware cost, the verdict says exactly whether the cloud's daily bill reaches it. */
  lemma VerdictFollowsTheBill(p: CloudPricing, inputTokens: int, outputTokens: int, hours: real, daily: real)
    requires hours > 0.0 && inputTokens >= 0 && outputTokens >= 0 && p.NonNegative() && daily > 0.0
    ensures Verdict(p, inputTokens, outputTokens, hours, daily)
       <==> CloudCostPerDay(p, inputTokens, outputTokens, hours) >= daily
  {
    DailyBill(p, inputTokens, outputTokens, hours);
    BillIsNonNegative(p, inputTokens, outputTokens);
    var price := CloudCostPerToken(p, inputTokens, outputTokens);
    if price > 0.0 {
      PositiveQuotient(daily, price);
      DivideOut(TokensPerDay(inputTokens, outputTokens, hours), price, daily);
    }
  }

  /** The verdict and the bill agree exactly when the hardware costs something. */
  lemma VerdictAgreesIff(p: CloudPricing, inputTokens: int, outputTokens: int, hours: real, daily: real)
    requires hours > 0.0 && inputTokens >= 0 && outputTokens >= 0 && p.NonNegative()
    ensures (Verdict(p, inputTokens, outputTokens, hours, daily)
             <==> CloudCostPerDay(p, inputTokens, outputTokens, hours) >= daily) <==> daily > 0.0
  {
    if daily > 0.0 {
      VerdictFollowsTheBill(p, inputTokens, outputTokens, hours, daily);
    } else {
      BillIsNonNegative(p, inputTokens, outputTokens);
      var bill := CloudCost(p, inputTokens, outputTokens);
      PositiveQuotient(bill, hours);
      var price := CloudCostPerToken(p, inputTokens, outputTokens);
      if price > 0.0 {
        PositiveQuotient(daily, price);
      }
    }
  }

  /** The verdict is also "a hundred percent of break-even", without any condition. */
  lemma VerdictIsAHundredPercent(currentTokensPerDay: real, breakEvenTokensPerDay: real)
    ensures OnPremCheaper(currentTokensPerDay, breakEvenTokensPerDay)
       <==> PercentOfBreakEven(currentTokensPerDay, breakEvenTokensPerDay) >= 100.0
  {
  }

  // ----- hourly and daily cost -----

  /** Over its whole life the amortization pays the purchase and its maintenance, to the cent. */
  lemma AmortizationPaysThePurchase(hw: HardwareCosts, watts: real)
    requires hw.amortizationYears > 0
    ensures ComputeHourlyCost(hw, watts).amortization * (hw.amortizationYears as real * 8760.0)
         == hw.purchasePriceUSD * (1.0 + hw.maintenancePercentPerYear)
    ensures ComputeHourlyCost(hw, watts).total - ComputeHourlyCost(hw, watts).electricity ==
        ComputeHourlyCost(hw, 0.0).total
  {
  }

  /** A kilowatt for an hour costs the rate times the overhead factor, and the cost is in proportion to the draw. */
  lemma KilowattHourCosts(hw: HardwareCosts, watts: real)
    requires hw.amortizationYears > 0
    ensures ComputeHourlyCost(hw, 1000.0).electricity
         == hw.ratePerKWh * (if hw.pueFactor == 0.0 then 1.0 else hw.pueFactor)
    ensures ComputeHourlyCost(hw, watts).electricity * 1000.0 == ComputeHourlyCost(hw, 1000.0).electricity * watts
    ensures ComputeHourlyCost(hw, watts).total
         == ComputeHourlyCost(hw, watts).amortization + ComputeHourlyCost(hw, watts).electricity
  {
  }

  /** Serving at break-even costs in the cloud what the hardware costs per day; a percentage of it is a percentage. */
  lemma BreakEvenPaysTheDay(daily: real, perToken: real, tokensPerDay: real)
    ensures perToken > 0.0 ==> BreakEvenTokensPerDay(daily, perToken) * perToken == daily
    ensures perToken <= 0.0 ==> BreakEvenTokensPerDay(daily, perToken) == 0.0
    ensures var breakEven := BreakEvenTokensPerDay(daily, perToken);
            if breakEven > 0.0 then PercentOfBreakEven(tokensPerDay, breakEven) * breakEven == 100.0 * tokensPerDay
            else PercentOfBreakEven(tokensPerDay, breakEven) == 0.0
  {
    var breakEven := BreakEvenTokensPerDay(daily, perToken);
    if breakEven > 0.0 {
      assert tokensPerDay / breakEven * breakEven == tokensPerDay;
    }
  }

  /**
    The break-even analysis charges a day of idling at the profile's own hourly cost, exactly unless the
    overhead factor is negative: the two functions then read it differently.
   */
  lemma DailyCostIsADayOfIdling(hw: HardwareCosts, idleWatts: real)
    requires hw.amortizationYears > 0
    ensures DailyHardwareCost(ComputeHourlyCost(hw, idleWatts).amortization, idleWatts, hw.ratePerKWh, hw.pueFactor)
         == 24.0 * ComputeHourlyCost(hw, idleWatts).total
       <==> hw.pueFactor >= 0.0 || idleWatts * hw.ratePerKWh == 0.0
  {
  }

  /** Free hardware is never reported as the cheaper choice, though every bill reaches its cost. */
  lemma FreeHardwareIsMisjudged(p: CloudPricing, inputTokens: int, outputTokens: int, hours: real)
    requires hours > 0.0 && inputTokens >= 0 && outputTokens >= 0 && p.NonNegative()
    ensures !Verdict(p, inputTokens, outputTokens, hours, DailyHardwareCost(0.0, 0.0, 0.15, 1.0))
    ensures CloudCostPerDay(p, inputTokens, outputTokens, hours) >= DailyHardwareCost(0.0, 0.0, 0.15, 1.0)
  {
    VerdictAgreesIff(p, inputTokens, outputTokens, hours, 0.0);
    BillIsNonNegative(p, inputTokens, outputTokens);
    PositiveQuotient(CloudCost(p, inputTokens, outputTokens), hours);
  }
}
