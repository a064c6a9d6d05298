/**
  Token budgets: the controller folds the crossed alert thresholds into one severity and writes it into
  three conditions; the command line reads a verdict back from whatever conditions it finds.
 */
module Budgets {
  import opened Common
  import opened Conditions

  datatype AlertThreshold = AlertThreshold(percent: int, severity: string)

  const CRITICAL := "critical"
  const WARNING := "warning"

  const BUDGET_OK := "BudgetOK"
  const BUDGET_WARNING := "BudgetWarning"
  const BUDGET_EXCEEDED := "BudgetExceeded"

  predicate Crossed(t: AlertThreshold, utilization: real) {
    utilization >= t.percent as real
  }

  predicate CriticalCrossed(thresholds: seq<AlertThreshold>, utilization: real) {
    exists t :: t in thresholds && Crossed(t, utilization) && t.severity == CRITICAL
  }

  predicate AnyCrossed(thresholds: seq<AlertThreshold>, utilization: real) {
    exists t :: t in thresholds && Crossed(t, utilization)
  }

  /** What a budget at this utilization should be called. */
  datatype Level = Ok | Warning | Exceeded {
    function Rank(): nat {
      match this
      case Ok => 0
      case Warning => 1
      case Exceeded => 2
    }

    /** The controller's word for it. */
    function Word(): string {
      match this
      case Ok => "ok"
      case Warning => "warning"
      case Exceeded => "exceeded"
    }

    /** The command line's word for it. */
    function Label(): string {
      match this
      case Ok => "OK"
      case Warning => "Warning"
      case Exceeded => "Exceeded"
    }
  }

  function LevelOf(thresholds: seq<AlertThreshold>, utilization: real): Level {
    if CriticalCrossed(thresholds, utilization) then Exceeded
    else if AnyCrossed(thresholds, utilization) then Warning
    else Ok
  }

  function TruthOf(b: bool): Truth {
    if b then IsTrue else IsFalse
  }

  /**
    The conditions show a level: BudgetOK only when ok, BudgetWarning from warning on, BudgetExceeded when
    exceeded.
   */
  predicate Shows(cs: seq<Condition>, level: Level) {
    && HasStatus(cs, BUDGET_OK, TruthOf(level == Ok))
    && HasStatus(cs, BUDGET_WARNING, TruthOf(level != Ok))
    && HasStatus(cs, BUDGET_EXCEEDED, TruthOf(level == Exceeded))
  }

  predicate HasStatus(cs: seq<Condition>, kind: string, status: Truth) {
    Find(cs, kind).Some? && Find(cs, kind).value.status == status
  }

  function OkCondition(level: Level, now: int): Condition {
    var reason := match level
      case Ok => "WithinBudget"
      case Warning => "BudgetWarning"
      case Exceeded => "BudgetExceeded";
    Condition(BUDGET_OK, TruthOf(level == Ok), reason, now)
  }

  function WarningCondition(level: Level, now: int): Condition {
    Condition(BUDGET_WARNING, TruthOf(level != Ok), if level == Ok then "WithinBudget" else "ThresholdCrossed", now)
  }

  function ExceededCondition(level: Level, now: int): Condition {
    Condition(BUDGET_EXCEEDED, TruthOf(level == Exceeded),
              if level == Exceeded then "CriticalThresholdCrossed" else "WithinBudget", now)
  }

  /** The three updates of an evaluation, in the order they are made. */
  function Evaluated(cs: seq<Condition>, level: Level, now: int): seq<Condition> {
    Set(Set(Set(cs, OkCondition(level, now)), WarningCondition(level, now)), ExceededCondition(level, now))
  }

  lemma KindsDiffer()
    ensures BUDGET_OK != BUDGET_WARNING && BUDGET_OK != BUDGET_EXCEEDED && BUDGET_WARNING != BUDGET_EXCEEDED
  {
  }

  /** Whatever the conditions were, after an evaluation they show its level, and hide what they hid before. */
  lemma EvaluatedShows(cs: seq<Condition>, level: Level, now: int, kind: string)
    ensures Shows(Evaluated(cs, level, now), level)
    ensures HiddenTrue(Evaluated(cs, level, now), kind) <==> HiddenTrue(cs, kind)
    ensures kind != BUDGET_OK && kind != BUDGET_WARNING && kind != BUDGET_EXCEEDED ==>
              Find(Evaluated(cs, level, now), kind) == Find(cs, kind)
  {
    KindsDiffer();
    var ok, warning, exceeded := OkCondition(level, now), WarningCondition(level, now), ExceededCondition(level, now);
    var cs1 := Set(cs, ok);
    var cs2 := Set(cs1, warning);
    FindAfterSet(cs, ok, BUDGET_OK);
    FindAfterSet(cs1, warning, BUDGET_OK);
    FindAfterSet(cs1, warning, BUDGET_WARNING);
    FindAfterSet(cs2, exceeded, BUDGET_OK);
    FindAfterSet(cs2, exceeded, BUDGET_WARNING);
    FindAfterSet(cs2, exceeded, BUDGET_EXCEEDED);
    FindAfterSet(cs, ok, kind);
    FindAfterSet(cs1, warning, kind);
    FindAfterSet(cs2, exceeded, kind);
    HiddenAfterSet(cs, ok, kind);
    HiddenAfterSet(cs1, warning, kind);
    HiddenAfterSet(cs2, exceeded, kind);
  }

  // ----- utilization -----

  datatype NamespaceSpend = NamespaceSpend(namespace: string, costUSD: real)

  /** What the first entry for the namespace says, nothing if there is none. */
  function SpendIn(costs: seq<NamespaceSpend>, namespace: string): real {
    if costs == [] then 0.0
    else if exists i :: 0 <= i < |costs| - 1 && costs[i].namespace == namespace
        then SpendIn(costs[..|costs| - 1], namespace)
    else if costs[|costs| - 1].namespace == namespace then costs[|costs| - 1].costUSD else 0.0
  }

  method FirstSpend(costs: seq<NamespaceSpend>, namespace: string) returns (spend: real)
    ensures spend == SpendIn(costs, namespace)
  {
    for i := 0 to |costs|
      invariant forall j :: 0 <= j < i ==> costs[j].namespace != namespace
    {
      if costs[i].namespace == namespace {
        FirstDecides(costs, i, namespace);
        return costs[i].costUSD;
      }
    }
    return 0.0;
  }

  /** The spend is that of the first entry for the namespace, or nothing. */
  lemma {:induction false} SpendIsTheFirst(costs: seq<NamespaceSpend>, namespace: string, i: nat)
    requires i <= |costs| && forall j :: 0 <= j < i ==> costs[j].namespace != namespace
    requires i < |costs| ==> costs[i].namespace == namespace
    ensures SpendIn(costs, namespace) == if i < |costs| then costs[i].costUSD else 0.0
  {
    if i < |costs| {
      FirstDecides(costs, i, namespace);
    }
  }

  lemma {:induction false} FirstDecides(costs: seq<NamespaceSpend>, i: nat, namespace: string)
    requires i < |costs| && costs[i].namespace == namespace
    requires forall j :: 0 <= j < i ==> costs[j].namespace != namespace
    ensures SpendIn(costs, namespace) == costs[i].costUSD
    decreases |costs|
  {
    if i < |costs| - 1 {
      FirstDecides(costs[..|costs| - 1], i, namespace);
    }
  }

  function Utilization(spend: real, limit: real): real {
    if limit > 0.0 then spend / limit * 100.0 else 0.0
  }

  /** Utilization is spend in percent of the limit; without a limit it is zero. */
  lemma PartOfTheLimit(spend: real, limit: real)
    ensures Utilization(spend, limit) * limit == if limit > 0.0 then 100.0 * spend else 0.0
  {
    if limit > 0.0 {
      assert spend / limit * limit == spend;
    }
  }

  class TokenBudget {
    const namespace: string
    const thresholds: seq<AlertThreshold>
    const monthlyLimitUSD: real
    var conditions: seq<Condition>
    var currentSpendUSD: real
    var utilizationPercent: real

    constructor (namespace: string, thresholds: seq<AlertThreshold>, monthlyLimitUSD: real, conditions: seq<Condition>)
      ensures this.namespace == namespace && this.thresholds == thresholds
      ensures this.monthlyLimitUSD == monthlyLimitUSD && this.conditions == conditions
    {
      this.namespace, this.thresholds := namespace, thresholds;
      this.monthlyLimitUSD, this.conditions := monthlyLimitUSD, conditions;
      currentSpendUSD, utilizationPercent := 0.0, 0.0;
    }

    /** Evaluates the budget against the first cost listed for its namespace. */
    method Reconcile(costs: seq<NamespaceSpend>, now: int) returns (status: string)
      modifies this
      ensures currentSpendUSD == SpendIn(costs, namespace)
      ensures utilizationPercent == Utilization(currentSpendUSD, monthlyLimitUSD)
      ensures var level := LevelOf(thresholds, Utilization(SpendIn(costs, namespace), monthlyLimitUSD));
              && status == level.Word() && Shows(conditions, level)
              && conditions == Evaluated(old(conditions), level, now)
    {
      var currentSpend := FirstSpend(costs, namespace);
      currentSpendUSD, utilizationPercent := currentSpend, Utilization(currentSpend, monthlyLimitUSD);
      status := EvaluateConditions(utilizationPercent, now);
    }

    /** Folds the thresholds into a severity and writes the conditions for it. */
    method EvaluateConditions(utilization: real, now: int) returns (status: string)
      modifies this`conditions
      ensures status == LevelOf(thresholds, utilization).Word()
      ensures status == if CriticalCrossed(thresholds, utilization) then "exceeded"
                        else if AnyCrossed(thresholds, utilization) then "warning" else "ok"
      ensures conditions == Evaluated(old(conditions), LevelOf(thresholds, utilization), now)
      ensures Shows(conditions, LevelOf(thresholds, utilization))
    {
      var highestSeverity := HighestSeverity(thresholds, utilization);
      EvaluatedShows(conditions, LevelOf(thresholds, utilization), now, "");
      if highestSeverity == CRITICAL {
        conditions := Set(conditions, Condition(BUDGET_OK, IsFalse, "BudgetExceeded", now));
        conditions := Set(conditions, Condition(BUDGET_WARNING, IsTrue, "ThresholdCrossed", now));
        conditions := Set(conditions, Condition(BUDGET_EXCEEDED, IsTrue, "CriticalThresholdCrossed", now));
        return "exceeded";
      } else if highestSeverity == WARNING {
        conditions := Set(conditions, Condition(BUDGET_OK, IsFalse, "BudgetWarning", now));
        conditions := Set(conditions, Condition(BUDGET_WARNING, IsTrue, "ThresholdCrossed", now));
        conditions := Set(conditions, Condition(BUDGET_EXCEEDED, IsFalse, "WithinBudget", now));
        return "warning";
      } else {
        conditions := Set(conditions, Condition(BUDGET_OK, IsTrue, "WithinBudget", now));
        conditions := Set(conditions, Condition(BUDGET_WARNING, IsFalse, "WithinBudget", now));
        conditions := Set(conditions, Condition(BUDGET_EXCEEDED, IsFalse, "WithinBudget", now));
        return "ok";
      }
    }
  }

  /** The fold over the thresholds: in whatever order they come, a critical one wins and any other one warns. */
  method HighestSeverity(thresholds: seq<AlertThreshold>, utilization: real) returns (highest: string)
    ensures highest == CRITICAL <==> CriticalCrossed(thresholds, utilization)
    ensures highest == WARNING <==> AnyCrossed(thresholds, utilization) && !CriticalCrossed(thresholds, utilization)
    ensures highest == "" <==> !AnyCrossed(thresholds, utilization)
  {
    assert CRITICAL[0] == 'c' && WARNING[0] == 'w';
    highest := "";
    for i := 0 to |thresholds|
      invariant highest == CRITICAL <==> CriticalCrossed(thresholds[..i], utilization)
      invariant highest == WARNING
           <==> AnyCrossed(thresholds[..i], utilization) && !CriticalCrossed(thresholds[..i], utilization)
      invariant highest == "" <==> !AnyCrossed(thresholds[..i], utilization)
    {
      var t := thresholds[i];
      OneThreshold(thresholds, utilization, i);
      if utilization >= t.percent as real {
        if t.severity == CRITICAL {
          highest := CRITICAL;
        } else if highest != CRITICAL {
          highest := WARNING;
        }
      }
    }
    assert thresholds[..|thresholds|] == thresholds;
  }

  lemma OneThreshold(thresholds: seq<AlertThreshold>, utilization: real, i: nat)
    requires i < |thresholds|
    ensures AnyCrossed(thresholds[..i + 1], utilization)
       <==> AnyCrossed(thresholds[..i], utilization) || Crossed(thresholds[i], utilization)
    ensures CriticalCrossed(thresholds[..i + 1], utilization)
       <==> CriticalCrossed(thresholds[..i], utilization)
            || (Crossed(thresholds[i], utilization) && thresholds[i].severity == CRITICAL)
  {
  }

  /** What the command line makes of a list of conditions. */
  function ReadBack(cs: seq<Condition>): string {
    if AnyTrue(cs, BUDGET_EXCEEDED) then "Exceeded" else if AnyTrue(cs, BUDGET_WARNING) then "Warning" else "OK"
  }

  /** The command line's verdict: the first true BudgetExceeded decides, then any true BudgetWarning. */
  method BudgetStatus(conditions: seq<Condition>) returns (verdict: string)
    ensures verdict == ReadBack(conditions)
    ensures verdict == if exists c :: c in conditions && c.kind == "BudgetExceeded" && c.status == IsTrue
                       then "Exceeded"
                       else if exists c :: c in conditions && c.kind == "BudgetWarning" && c.status == IsTrue
                       then "Warning" else "OK"
  {
    AnyTrueIsMembership(conditions, BUDGET_EXCEEDED);
    AnyTrueIsMembership(conditions, BUDGET_WARNING);
    if |conditions| == 0 {
      return "OK";
    }
    KindsDiffer();
    var hasWarning := false;
    for i := 0 to |conditions|
      invariant !AnyTrue(conditions[..i], BUDGET_EXCEEDED)
      invariant hasWarning <==> AnyTrue(conditions[..i], BUDGET_WARNING)
    {
      var c := conditions[i];
      assert conditions[..i + 1][..i] == conditions[..i];
      if c.status != IsTrue {
        continue;
      }
      if c.kind == BUDGET_EXCEEDED {
        StaysTrue(conditions, BUDGET_EXCEEDED, i + 1);
        return "Exceeded";
      }
      if c.kind == BUDGET_WARNING {
        hasWarning := true;
      }
    }
    assert conditions[..|conditions|] == conditions;
    return if hasWarning then "Warning" else "OK";
  }

  lemma {:induction false} AnyTrueIsMembership(cs: seq<Condition>, kind: string)
    ensures AnyTrue(cs, kind) <==> exists c :: c in cs && c.kind == kind && c.status == IsTrue
  {
    if cs != [] {
      var n := |cs| - 1;
      assert cs == cs[..n] + [cs[n]];
      AnyTrueIsMembership(cs[..n], kind);
    }
  }

  lemma {:induction false} StaysTrue(cs: seq<Condition>, kind: string, n: nat)
    requires n <= |cs| && AnyTrue(cs[..n], kind)
    ensures AnyTrue(cs, kind)
    decreases |cs| - n
  {
    if n < |cs| {
      assert cs[..n + 1][..n] == cs[..n];
      StaysTrue(cs, kind, n + 1);
    } else {
      assert cs[..n] == cs;
    }
  }

  /**
    For any earlier conditions, the command line reads back the level the controller wrote, exactly
    unless a true condition of a type the level leaves false stands behind another one of its type.
   */
  lemma RoundTripIff(cs: seq<Condition>, level: Level, now: int)
    ensures ReadBack(Evaluated(cs, level, now)) == level.Label()
       <==> (level == Exceeded || !HiddenTrue(cs, BUDGET_EXCEEDED)) && (level != Ok || !HiddenTrue(cs, BUDGET_WARNING))
  {
    var after := Evaluated(cs, level, now);
    EvaluatedShows(cs, level, now, BUDGET_EXCEEDED);
    EvaluatedShows(cs, level, now, BUDGET_WARNING);
    AnyTrueIsFoundOrHidden(after, BUDGET_EXCEEDED);
    AnyTrueIsFoundOrHidden(after, BUDGET_WARNING);
    assert Ok.Label()[0] == 'O' && Warning.Label()[0] == 'W' && Exceeded.Label()[0] == 'E';
  }

  /** With one condition of each type, which is how the list is stored, the round trip always holds. */
  lemma RoundTrip(cs: seq<Condition>, level: Level, now: int)
    requires OneOfEach(cs)
    ensures ReadBack(Evaluated(cs, level, now)) == level.Label()
  {
    NothingHidden(cs, BUDGET_EXCEEDED);
    NothingHidden(cs, BUDGET_WARNING);
    RoundTripIff(cs, level, now);
  }

  /** The conditions after a run of evaluations. */
  function AfterRun(cs: seq<Condition>, run: seq<(Level, int)>): seq<Condition> {
    if run == [] then cs
    else Evaluated(AfterRun(cs, run[..|run| - 1]), run[|run| - 1].0, run[|run| - 1].1)
  }

  lemma {:induction false} RunKeepsOneOfEach(cs: seq<Condition>, run: seq<(Level, int)>)
    requires OneOfEach(cs)
    ensures OneOfEach(AfterRun(cs, run))
  {
    if run != [] {
      var before, e := AfterRun(cs, run[..|run| - 1]), run[|run| - 1];
      RunKeepsOneOfEach(cs, run[..|run| - 1]);
      EvaluationKeepsOneOfEach(before, e.0, e.1);
    }
  }

  lemma EvaluationKeepsOneOfEach(cs: seq<Condition>, level: Level, now: int)
    requires OneOfEach(cs)
    ensures OneOfEach(Evaluated(cs, level, now))
  {
    var ok, warning, exceeded := OkCondition(level, now), WarningCondition(level, now), ExceededCondition(level, now);
    SetKeepsOneOfEach(cs, ok);
    SetKeepsOneOfEach(Set(cs, ok), warning);
    SetKeepsOneOfEach(Set(Set(cs, ok), warning), exceeded);
  }

  /** After any run of evaluations of a stored budget, the command line shows the last level. */
  lemma LastLevelIsShown(cs: seq<Condition>, run: seq<(Level, int)>)
    requires OneOfEach(cs) && run != []
    ensures ReadBack(AfterRun(cs, run)) == run[|run| - 1].0.Label()
  {
    RunKeepsOneOfEach(cs, run[..|run| - 1]);
    RoundTrip(AfterRun(cs, run[..|run| - 1]), run[|run| - 1].0, run[|run| - 1].1);
  }

  /** A stale duplicate is read back for ever: the budget is fine, the command line says it is exceeded. */
  lemma StaleDuplicate(now: int)
    ensures var stale := Condition(BUDGET_EXCEEDED, IsTrue, "CriticalThresholdCrossed", 0);
            ReadBack(Evaluated([stale, stale], Ok, now)) == "Exceeded"
  {
    var stale := Condition(BUDGET_EXCEEDED, IsTrue, "CriticalThresholdCrossed", 0);
    var cs := [stale, stale];
    assert cs[..1] == [stale] && [stale][..0] == [];
    assert Find(cs[..1], BUDGET_EXCEEDED) == Some(stale);
    assert HiddenTrue(cs, BUDGET_EXCEEDED);
    var after := Evaluated(cs, Ok, now);
    EvaluatedShows(cs, Ok, now, BUDGET_EXCEEDED);
    AnyTrueIsFoundOrHidden(after, BUDGET_EXCEEDED);
  }

  /**
    For a positive limit: the budget is exceeded exactly when some critical threshold's part of the limit is
    spent, and otherwise in warning exactly when some other threshold's part is.  Without a limit nothing
    is spent of it.
   */
  lemma LevelIff(thresholds: seq<AlertThreshold>, spend: real, limit: real)
    ensures limit > 0.0 ==>
              var level := LevelOf(thresholds, Utilization(spend, limit));
              && (level == Exceeded <==> exists t :: t in thresholds && t.severity == "critical"
                                                     && 100.0 * spend >= t.percent as real * limit)
              && (level == Ok <==> forall t :: t in thresholds ==> 100.0 * spend < t.percent as real * limit)
    ensures limit <= 0.0 ==> LevelOf(thresholds, Utilization(spend, limit)) == LevelOf(thresholds, 0.0)
  {
    if limit > 0.0 {
      forall t | t in thresholds
        ensures Crossed(t, Utilization(spend, limit)) <==> 100.0 * spend >= t.percent as real * limit
      {
        CrossedIff(t, spend, limit);
      }
    }
  }

  lemma CrossedIff(t: AlertThreshold, spend: real, limit: real)
    requires limit > 0.0
    ensures Crossed(t, Utilization(spend, limit)) <==> 100.0 * spend >= t.percent as real * limit
  {
    var share := spend / limit;
    assert share * limit == spend;
    assert share * 100.0 >= t.percent as real <==> share * 100.0 * limit >= t.percent as real * limit;
  }

  /** The three conditions after an evaluation, with their reasons. */
  lemma EvaluatedReasons(cs: seq<Condition>, level: Level, now: int)
    ensures var after := Evaluated(cs, level, now);
            && Reason(after, "BudgetOK") == (match level case Ok => "WithinBudget" case Warning => "BudgetWarning"
                                                         case Exceeded => "BudgetExceeded")
            && Reason(after, "BudgetWarning") == (if level == Ok then "WithinBudget" else "ThresholdCrossed")
            && Reason(after, "BudgetExceeded")
               == (if level == Exceeded then "CriticalThresholdCrossed" else "WithinBudget")
  {
    KindsDiffer();
    var ok, warning, exceeded := OkCondition(level, now), WarningCondition(level, now), ExceededCondition(level, now);
    var cs1 := Set(cs, ok);
    var cs2 := Set(cs1, warning);
    FindAfterSet(cs, ok, BUDGET_OK);
    FindAfterSet(cs1, warning, BUDGET_OK);
    FindAfterSet(cs1, warning, BUDGET_WARNING);
    FindAfterSet(cs2, exceeded, BUDGET_OK);
    FindAfterSet(cs2, exceeded, BUDGET_WARNING);
    FindAfterSet(cs2, exceeded, BUDGET_EXCEEDED);
  }

  function Reason(cs: seq<Condition>, kind: string): string {
    if Find(cs, kind).Some? then Find(cs, kind).value.reason else ""
  }

  /** Spending more never lowers the level. */
  lemma LevelIsMonotone(thresholds: seq<AlertThreshold>, spend: real, more: real, limit: real)
    requires spend <= more
    ensures LevelOf(thresholds, Utilization(spend, limit)).Rank() <=
        LevelOf(thresholds, Utilization(more, limit)).Rank()
  {
  }

  /** Only which thresholds there are matters, not their order. */
  lemma LevelIgnoresOrder(a: seq<AlertThreshold>, b: seq<AlertThreshold>, utilization: real)
    requires multiset(a) == multiset(b)
    ensures LevelOf(a, utilization) == LevelOf(b, utilization)
  {
    forall t ensures t in a <==> t in b {
      assert t in a <==> t in multiset(a);
      assert t in b <==> t in multiset(b);
    }
  }
}
